/** Concrete requests: the parser's edge cases and two typical invocations
    (a stored code and an unknown one; the request without a query is
    `Handler.NoQueryGreets`). */
module Scenarios {
  import opened Wrappers
  import opened QueryString
  import opened UaProfile
  import opened Store
  import opened Handler

  /** `a=b=c` keeps only the text between the first and second `=`. */
  lemma SecondEqualsTruncatesValue()
    ensures ParseQuery(Some("a=b=c")) == map["a" := "b"]
  {
    SplitNoSeparator("a=b=c", '&');
    assert "a=b=c" == "a" + "=" + "b" + "=" + "c";
    PairOfSegment("a", "b", "c");
    assert Pairs(Some("a=b=c")) == [("a", "b")];
  }

  /** A segment without `=` is a key with the empty value, so `?link` alone
      counts as no code. */
  lemma BareKeyHasEmptyValue()
    ensures ParseQuery(Some("link")) == map["link" := ""]
    ensures Param(ParseQuery(Some("link")), "link") == ""
  {
    SplitNoSeparator("link", '&');
    PairOfSegment("link", "", "");
    assert Pairs(Some("link")) == [("link", "")];
  }

  /** With a repeated key, the last occurrence wins. */
  lemma RepeatedKeyLastWins(query: string)
    requires query == "link=x&link=y"
    ensures ParseQuery(Some(query)) == map["link" := "y"]
  {
    assert query == "link" + "=" + "x" + "&" + "link" + "=" + "y";
    TwoParameters("link", "x", "link", "y");
  }

  /** `?link=abc123` parses to the code `abc123`. */
  lemma Abc123Parses(query: string)
    requires query == "link=abc123"
    ensures ParseQuery(Some(query)) == map["link" := "abc123"]
  {
    assert query == "link" + "=" + "abc123";
    SingleParameter("link", "abc123");
  }

  /** The stored target is an acceptable `Location` value. */
  lemma ExampleTargetIsHeaderValue(target: string)
    requires target == "https://example.com/page"
    ensures ValidHeaderValue(target)
  {
  }

  /** `GET /?link=abc123` with a stored target redirects there and records
      one view row for `abc123` carrying the client's profile. */
  lemma StoredCodeScenario(query: string, target: string, agent: string, cfg: Config,
                           faults: Faults, classify: string -> Option<WootheeResult>,
                           def: WootheeResult, svc: IpInfoService)
    requires query == "link=abc123"
    requires target == "https://example.com/page"
    requires agent == "Mozilla/5.0 (compatible test)"
    requires Configured(cfg)
    requires faults == Faults(true, true, true)
    requires classify(agent) == Some(def)
    ensures var run := Resolve(cfg, Request(Some(query), map["user-agent" := agent]),
                               [LinkRow("abc123", target)], faults, classify, svc);
            && run.outcome == Reply(Redirect(target))
            && |run.inserted| == 1
            && run.inserted[0].link == "abc123"
            && run.inserted[0].browserInfo == BrowserInfo(def)
            && run.inserted[0].referrerLink == "" && run.inserted[0].referrerSite == ""
  {
    Abc123Parses(query);
    ExampleTargetIsHeaderValue(target);
    var headers := map["user-agent" := agent];
    assert Header(headers, "user-agent") == agent;
    KnownCodeRedirects(cfg, map["link" := "abc123"], headers, [LinkRow("abc123", target)],
                       faults, classify, svc, 0);
  }

  /** `GET /?link=zzz` with no such row answers 404 and records nothing. */
  lemma UnknownCodeScenario(query: string, cfg: Config, headers: map<string, string>,
                            faults: Faults, classify: string -> Option<WootheeResult>,
                            svc: IpInfoService)
    requires query == "link=zzz"
    requires Configured(cfg)
    requires faults.connectOk
    ensures var run := Resolve(cfg, Request(Some(query), headers),
                               [LinkRow("abc123", "https://example.com/page")],
                               faults, classify, svc);
            run.outcome == Reply(NotFound()) && run.inserted == []
  {
    assert query == "link" + "=" + "zzz";
    SingleParameter("link", "zzz");
  }
}
