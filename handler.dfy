/** The per-request handler: parse the query, answer 200 when there is no
    code, look the code up, answer 404 when nothing is found, otherwise
    classify the client, insert one view row and answer 308. `Resolve` says
    what an invocation does; `Handle` does it, step by step, against a
    `Database`. */
module Handler {
  import opened Wrappers
  import opened QueryString
  import opened UaProfile
  import opened Store

  const CacheControl: string := "public, max-age=0, must-revalidate"
  const GreetingBody: string :=
    "Hey, you found my link shortener! Visit my site at: https://nourman.id/ :D"
  const NotFoundBody: string := "Link not found!"
  const RedirectBody: string := "Redirecting..."

  /** The process environment the handler reads on every call. */
  datatype Config = Config(databaseUrl: Option<string>, ipinfoToken: Option<string>)

  /** A request: the raw query component of its URI (absent when the URI has
      none) and its headers, by lower-case name, already decoded. */
  datatype Request = Request(query: Option<string>, headers: map<string, string>)

  /** A response: status, headers in the order the builder adds them, body. */
  datatype Response = Response(status: int, headers: seq<(string, string)>, body: string)

  /** The ipinfo service as this invocation sees it: whether `IpInfo::new`
      succeeds, whether `lookup` succeeds, and the details (already as JSON)
      it knows by ip. */
  datatype IpInfoService = IpInfoService(builds: bool, lookupOk: bool, known: map<string, Value>)

  /** Why an invocation ends without a response. */
  datatype Failure =
    | MissingDatabaseUrl  // `dotenv::var("DATABASE_URL").unwrap()`
    | MissingIpinfoToken  // `dotenv::var("IPINFO_TOKEN").unwrap()`
    | ConnectFailed       // `Client::connect(...).unwrap()`
    | AgentUnparsed       // `parser.parse(ua_header).unwrap()`
    | InsertFailed        // `.expect("Error when inserting log")`
    | BadLocation         // the 308 builder's `.expect("Internal server error")`

  datatype Outcome = Abort(failure: Failure) | Reply(response: Response)

  /** What one invocation does: its outcome, the database interactions in
      order, and the view rows the database accepted. */
  datatype Run = Run(outcome: Outcome, ops: seq<Op>, inserted: seq<ViewRow>)

  function Greeting(): Response {
    Response(200, [("Cache-Control", CacheControl)], GreetingBody)
  }

  function NotFound(): Response {
    Response(404, [("Cache-Control", CacheControl)], NotFoundBody)
  }

  /** Whether the `http` crate accepts `value` as a header value: every
      byte is a tab or at least 0x20 and not 0x7F. Characters above 0x7F are
      encoded as bytes of at least 0x80, which are accepted. */
  predicate ValidHeaderValue(value: string) {
    forall i :: 0 <= i < |value| ==>
      value[i] == '\t' || (value[i] as int >= 0x20 && value[i] as int != 0x7F)
  }

  function Redirect(target: string): Response {
    Response(308, [("Location", target), ("Cache-Control", CacheControl)], RedirectBody)
  }

  /** A header's value, or "" when the request does not carry it. */
  function Header(headers: map<string, string>, name: string): string {
    if name in headers then headers[name] else ""
  }

  /** The `ip_info` column: the details the service gives for `ip`, or the
      JSON string "" when the client cannot be built, the lookup fails
      (`unwrap_or_default` gives an empty answer) or the ip is unknown. */
  function IpInfo(svc: IpInfoService, ip: string): (info: Value)
    ensures info == (if svc.builds && svc.lookupOk && ip in svc.known then svc.known[ip]
                     else String(""))
  {
    if svc.builds then
      var binding := if svc.lookupOk then svc.known else map[];
      if ip in binding then binding[ip] else String("")
    else String("")
  }

  /** The view row recorded for a resolved code. */
  function ViewOf(query: map<string, string>, headers: map<string, string>,
                  def: WootheeResult, svc: IpInfoService): ViewRow
  {
    ViewRow(Param(query, "link"), BrowserInfo(def), Param(query, "ref"),
            Header(headers, "referer"), IpInfo(svc, Header(headers, "x-real-ip")))
  }

  /** What the handler decides once the query is parsed, given the
      environment it finds. `classify` stands for woothee's `Parser::parse`. */
  function Decide(cfg: Config, query: map<string, string>, headers: map<string, string>,
                  links: seq<LinkRow>, faults: Faults,
                  classify: string -> Option<WootheeResult>, svc: IpInfoService): (run: Run)
    ensures |run.inserted| <= 1
    ensures run.inserted != [] <==>
              (run.outcome.Reply? && run.outcome.response.status == 308)
              || run.outcome == Abort(BadLocation)
    ensures run.inserted != [] ==> run.inserted[0].link == Param(query, "link") != ""
    ensures run.outcome.Reply? ==> run.outcome.response.status in {200, 404, 308}
    ensures run.outcome.Reply? ==> ("Cache-Control", CacheControl) in run.outcome.response.headers
    ensures run.ops == [] <==>
              (run.outcome.Abort? && run.outcome.failure in {MissingDatabaseUrl, MissingIpinfoToken})
              || run.outcome == Reply(Greeting())
  {
    if cfg.databaseUrl.None? then Run(Abort(MissingDatabaseUrl), [], [])
    else if cfg.ipinfoToken.None? then Run(Abort(MissingIpinfoToken), [], [])
    else
      var link := Param(query, "link");
      if link == "" then Run(Reply(Greeting()), [], [])
      else
        var connect := [ConnectOp(cfg.databaseUrl.value)];
        if !faults.connectOk then Run(Abort(ConnectFailed), connect, [])
        else
          var lookup := connect + [SelectOp(link)];
          var rows := if faults.queryOk then Select(links, link) else [];
          if rows == [] then Run(Reply(NotFound()), lookup, [])
          else
            var rest := Record(query, headers, rows[0].target, faults, classify, svc);
            Run(rest.outcome, lookup + rest.ops, rest.inserted)
  }

  /** The stage after the target is known: classify the client, insert the
      view row, build the 308. Its `ops` are the interactions of this stage
      only (none, or the one insert). */
  function Record(query: map<string, string>, headers: map<string, string>, target: string,
                  faults: Faults, classify: string -> Option<WootheeResult>,
                  svc: IpInfoService): (run: Run)
    ensures |run.ops| <= 1 && |run.inserted| <= 1
    ensures run.inserted != [] ==> run.ops == [InsertOp(run.inserted[0])]
    ensures run.inserted != [] <==>
              run.outcome == Reply(Redirect(target)) || run.outcome == Abort(BadLocation)
    ensures run.outcome.Abort? ==> run.outcome.failure in {AgentUnparsed, InsertFailed, BadLocation}
  {
    var parsed := classify(Header(headers, "user-agent"));
    if parsed.None? then Run(Abort(AgentUnparsed), [], [])
    else
      var row := ViewOf(query, headers, parsed.value, svc);
      if !faults.insertOk then Run(Abort(InsertFailed), [InsertOp(row)], [])
      else if !ValidHeaderValue(target) then Run(Abort(BadLocation), [InsertOp(row)], [row])
      else Run(Reply(Redirect(target)), [InsertOp(row)], [row])
  }

  /** What `handler` does with a request: parse its query, then decide. The
      query is parsed after the two environment reads in the source; parsing
      is pure, so the order does not change the outcome. */
  function Resolve(cfg: Config, req: Request, links: seq<LinkRow>, faults: Faults,
                   classify: string -> Option<WootheeResult>, svc: IpInfoService): Run
  {
    Decide(cfg, ParseQuery(req.query), req.headers, links, faults, classify, svc)
  }

  /** `handler`: the same decisions, taken one at a time against the
      database; the new state of the database is its old state plus what
      `Resolve` says the call does. */
  method Handle(cfg: Config, req: Request, db: Database,
                classify: string -> Option<WootheeResult>, svc: IpInfoService)
    returns (outcome: Outcome)
    modifies db
    ensures var run := Resolve(cfg, req, old(db.links), db.faults, classify, svc);
            && outcome == run.outcome
            && db.ops == old(db.ops) + run.ops
            && db.views == old(db.views) + run.inserted
            && db.links == old(db.links)
  {
    if cfg.databaseUrl.None? {
      return Abort(MissingDatabaseUrl);
    }
    var databaseUrl := cfg.databaseUrl.value;
    if cfg.ipinfoToken.None? {
      return Abort(MissingIpinfoToken);
    }
    var query := ParseQuery(req.query);
    assert Resolve(cfg, req, db.links, db.faults, classify, svc)
        == Decide(cfg, query, req.headers, db.links, db.faults, classify, svc);
    var link := Param(query, "link");
    if link == "" {
      return Reply(Greeting());
    }
    var connected := db.Connect(databaseUrl);
    if !connected {
      return Abort(ConnectFailed);
    }
    var result := db.Query(link);
    var rows := result.GetOr([]);
    assert rows == if db.faults.queryOk then Select(old(db.links), link) else [];
    if rows == [] {
      return Reply(NotFound());
    }
    var target := rows[0].target;
    outcome := RecordVisit(query, req.headers, target, db, classify, svc);
  }

  /** The second half of `handler`, from the user-agent header to the 308:
      the database gains what `Record` says. */
  method RecordVisit(query: map<string, string>, headers: map<string, string>, target: string,
                     db: Database, classify: string -> Option<WootheeResult>,
                     svc: IpInfoService)
    returns (outcome: Outcome)
    modifies db
    ensures var run := Record(query, headers, target, db.faults, classify, svc);
            && outcome == run.outcome
            && db.ops == old(db.ops) + run.ops
            && db.views == old(db.views) + run.inserted
            && db.links == old(db.links)
  {
    var parsed := classify(Header(headers, "user-agent"));
    if parsed.None? {
      return Abort(AgentUnparsed);
    }
    var browserInfo := BrowserInfo(parsed.value);
    var referrerLink := Param(query, "ref");
    var referrerSite := Header(headers, "referer");
    var ip := Header(headers, "x-real-ip");
    var ipInfo := IpInfo(svc, ip);
    var inserted := db.Insert(ViewRow(Param(query, "link"), browserInfo, referrerLink,
                                      referrerSite, ipInfo));
    if !inserted {
      return Abort(InsertFailed);
    }
    if !ValidHeaderValue(target) {
      return Abort(BadLocation);
    }
    outcome := Reply(Redirect(target));
  }

  /** The configuration the request pipeline needs before it parses. */
  predicate Configured(cfg: Config) {
    cfg.databaseUrl.Some? && cfg.ipinfoToken.Some?
  }

  /** A missing variable aborts before anything else happens. */
  lemma UnconfiguredAborts(cfg: Config, query: map<string, string>, headers: map<string, string>,
                           links: seq<LinkRow>, faults: Faults,
                           classify: string -> Option<WootheeResult>, svc: IpInfoService)
    requires !Configured(cfg)
    ensures var run := Decide(cfg, query, headers, links, faults, classify, svc);
            run.outcome.Abort? && run.ops == [] && run.inserted == []
  {
  }

  /** No `link` (or an empty one): the greeting, and the database is not
      touched at all. */
  lemma NoLinkGreets(cfg: Config, query: map<string, string>, headers: map<string, string>,
                     links: seq<LinkRow>, faults: Faults,
                     classify: string -> Option<WootheeResult>, svc: IpInfoService)
    requires Configured(cfg)
    requires "link" !in query || query["link"] == ""
    ensures var run := Decide(cfg, query, headers, links, faults, classify, svc);
            && run.outcome == Reply(Response(200, [("Cache-Control", CacheControl)], GreetingBody))
            && run.ops == [] && run.inserted == []
  {
  }

  /** A request without a query is such a request. */
  lemma NoQueryGreets(cfg: Config, headers: map<string, string>, links: seq<LinkRow>,
                      faults: Faults, classify: string -> Option<WootheeResult>,
                      svc: IpInfoService)
    requires Configured(cfg)
    ensures var run := Resolve(cfg, Request(None, headers), links, faults, classify, svc);
            run.outcome == Reply(Greeting()) && run.ops == [] && run.inserted == []
  {
  }

  /** A code for which the database cannot be reached aborts after the
      connect and inserts nothing. */
  lemma ConnectFailureAborts(cfg: Config, query: map<string, string>, headers: map<string, string>,
                             links: seq<LinkRow>, faults: Faults,
                             classify: string -> Option<WootheeResult>, svc: IpInfoService)
    requires Configured(cfg)
    requires "link" in query && query["link"] != ""
    requires !faults.connectOk
    ensures var run := Decide(cfg, query, headers, links, faults, classify, svc);
            && run.outcome == Abort(ConnectFailed)
            && run.ops == [ConnectOp(cfg.databaseUrl.value)] && run.inserted == []
  {
  }

  /** A code with no row in `links`, or whose query fails, gets 404, and no
      view row is written. */
  lemma UnknownCodeNotFound(cfg: Config, query: map<string, string>, headers: map<string, string>,
                            links: seq<LinkRow>, faults: Faults,
                            classify: string -> Option<WootheeResult>, svc: IpInfoService)
    requires Configured(cfg)
    requires "link" in query && query["link"] != ""
    requires faults.connectOk
    requires !faults.queryOk || forall i :: 0 <= i < |links| ==> links[i].link != query["link"]
    ensures var run := Decide(cfg, query, headers, links, faults, classify, svc);
            && run.outcome == Reply(Response(404, [("Cache-Control", CacheControl)], NotFoundBody))
            && run.ops == [ConnectOp(cfg.databaseUrl.value), SelectOp(query["link"])]
            && run.inserted == []
  {
  }

  /** A known code is redirected to the target of its first row, after
      exactly one view row was inserted, with the code, the `ref` parameter
      and the `referer` header (both "" when missing), the flattened profile
      of the `user-agent` header ("" when missing) and the ip details of the
      `x-real-ip` header. */
  lemma KnownCodeRedirects(cfg: Config, query: map<string, string>, headers: map<string, string>,
                           links: seq<LinkRow>, faults: Faults,
                           classify: string -> Option<WootheeResult>, svc: IpInfoService,
                           j: nat)
    requires Configured(cfg)
    requires "link" in query && query["link"] != ""
    requires faults.connectOk && faults.queryOk && faults.insertOk
    requires j < |links| && links[j].link == query["link"]
    requires forall i :: 0 <= i < j ==> links[i].link != links[j].link
    requires ValidHeaderValue(links[j].target)
    requires classify(Header(headers, "user-agent")).Some?
    ensures var run := Decide(cfg, query, headers, links, faults, classify, svc);
            var row := ViewRow(links[j].link, BrowserInfo(classify(Header(headers, "user-agent")).value),
                               if "ref" in query then query["ref"] else "",
                               if "referer" in headers then headers["referer"] else "",
                               IpInfo(svc, Header(headers, "x-real-ip")));
            && run.outcome == Reply(Response(308, [("Location", links[j].target),
                                                   ("Cache-Control", CacheControl)],
                                             RedirectBody))
            && run.inserted == [row]
            && run.ops == [ConnectOp(cfg.databaseUrl.value), SelectOp(links[j].link), InsertOp(row)]
  {
    SelectFirst(links, links[j].link, j);
  }

  /** A known code whose client the classifier cannot parse, or whose view
      row the database refuses, aborts without a redirect and without a
      stored row. */
  lemma EnrichmentFailureAborts(cfg: Config, query: map<string, string>,
                                headers: map<string, string>, links: seq<LinkRow>,
                                faults: Faults, classify: string -> Option<WootheeResult>,
                                svc: IpInfoService, j: nat)
    requires Configured(cfg)
    requires "link" in query && query["link"] != ""
    requires faults.connectOk && faults.queryOk
    requires j < |links| && links[j].link == query["link"]
    requires classify(Header(headers, "user-agent")).None? || !faults.insertOk
    ensures var run := Decide(cfg, query, headers, links, faults, classify, svc);
            && run.outcome == Abort(if classify(Header(headers, "user-agent")).None?
                                    then AgentUnparsed else InsertFailed)
            && run.inserted == []
  {
    SelectEmpty(links, query["link"]);
  }

  /** A known code whose first row's target the `Location` header rejects
      (a control character in it): the view row is already stored when the
      response builder fails, so the invocation aborts with that row kept. */
  lemma BadTargetAbortsAfterInsert(cfg: Config, query: map<string, string>,
                                   headers: map<string, string>, links: seq<LinkRow>,
                                   faults: Faults, classify: string -> Option<WootheeResult>,
                                   svc: IpInfoService, j: nat)
    requires Configured(cfg)
    requires "link" in query && query["link"] != ""
    requires faults.connectOk && faults.queryOk && faults.insertOk
    requires j < |links| && links[j].link == query["link"]
    requires forall i :: 0 <= i < j ==> links[i].link != links[j].link
    requires !ValidHeaderValue(links[j].target)
    requires classify(Header(headers, "user-agent")).Some?
    ensures var run := Decide(cfg, query, headers, links, faults, classify, svc);
            && run.outcome == Abort(BadLocation)
            && run.inserted == [ViewOf(query, headers, classify(Header(headers, "user-agent")).value, svc)]
  {
    SelectFirst(links, links[j].link, j);
  }

  /** A target holding a control character other than tab (below 0x20, or
      0x7F) anywhere is not a header value. */
  lemma ControlCharTargetRejected(target: string, i: nat)
    requires i < |target|
    requires (target[i] as int < 0x20 && target[i] != '\t') || target[i] as int == 0x7F
    ensures !ValidHeaderValue(target)
  {
  }

  /** A target holding a newline, such as `"a\nb"`, is not a header value. */
  lemma NewlineTargetRejected()
    ensures !ValidHeaderValue("a\nb")
  {
    ControlCharTargetRejected("a\nb", 1);
  }
}
