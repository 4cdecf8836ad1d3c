# bufflink redirect handler — Dafny model

bufflink is a link shortener deployed as one serverless function. On each
request the handler does the following:

- reads the `link` (short code) and `ref` parameters from the query string;
- answers 200 with a greeting when there is no code;
- looks the code up in the `links` table and answers 404 when no row comes back;
- otherwise, classifies the client's user agent, looks up the client ip, and
  appends one row to `links_view`;
- then answers 308 with `Location` set to the stored target (the invocation
  aborts, with the view row already stored, when that target is not a valid
  header value).

Every response carries `Cache-Control: public, max-age=0, must-revalidate`.
A helper flattens the user-agent classification into a JSON object with seven
string keys.

The model has these parts:

- `Wrappers`: `Option`.
- `Maps`: `InsertAll`, which inserts entries into a map one after another, as
  `HashMap::insert` and `serde_json::Map::insert` do (a repeated key keeps its
  last value). The proofs cover which keys end up present, that the last
  insert wins, the size of the result, and that no insert overwrites another.
- `QueryString`: the query parser. `Split` is Rust's `str::split` by one
  character. It is proved lossless: `Join` inverts it, and it inverts `Join`.
  `Pair` turns a segment into a key and a value, and `ParseQuery` builds the map.
- `UaProfile` (`api/_util.rs`): `WootheeResult`, `UAResult`, the field copy,
  and the seven inserts building the JSON map, with lemmas on the key set, the
  values, the size, and a round trip back to the profile.
- `Store`: the database as two tables and a log of interactions (connect,
  select, insert). The `Database` class holds `links`, `views` and `ops`, and
  its methods append to them.
- `Handler`: `Resolve` is a pure statement of what one invocation does: its
  outcome, its database interactions and the rows it inserts. It parses the
  query and hands the parsed map and the headers to `Decide`; the stage after
  the target is known (classify, insert, respond) is `Record`. `Handle` is the
  handler's step-by-step body, with early returns, run against a `Database`,
  and `RecordVisit` its second half; their postconditions tie the new
  database state to `Resolve` and `Record`. Lemmas cover each branch: no
  code, unknown code, known code, and each abort.
- `Scenarios`: the parser's edge cases and two concrete requests (a stored
  code and an unknown one; the request without a query is
  `Handler.NoQueryGreets`).

These are parameters of the model:

- the environment (`Config`, the two `dotenv` variables);
- the woothee classifier (`classify: string -> Option<WootheeResult>`);
- the ipinfo service (`IpInfoService`: whether the client builds, whether the
  lookup succeeds, and the details it knows by ip);
- the database's failure behaviour (`Faults`).

The model follows the code, including these behaviours:

- The code aborts when woothee returns `None`, because it calls `unwrap`.
- The code aborts when `IPINFO_TOKEN` is missing, before the query is parsed.
- Only `ip_info` is stored. The raw ip is used only as the lookup key.
- When there is no code, the code uses the empty string rather than "no code",
  so `?link` and `?link=` are also answered with the greeting.
- The cache directive is `public, max-age=0, must-revalidate` on all three
  responses.
- An insert failure aborts the invocation.
- A target that the `http` crate rejects as a header value (a byte below
  0x20 other than tab, or 0x7F) makes the 308 builder fail after the view row
  was inserted, so the invocation aborts and keeps that row.

## Model

| member | source | states |
|---|---|---|
| Maps.InsertAll | api/index.rs:28 | the map after inserting the entries front to back into `m` (the `collect` into a `HashMap`, and the successive `map.insert` calls); its properties are the `InsertAll…` lemmas below |
| Maps.InsertAllAppend | api/index.rs:28 | inserting `a` and then `b` is the same as inserting `a + b` |
| Maps.InsertAllHas | api/index.rs:28 | after the inserts, a key is present exactly when it was present before or some entry inserts it |
| Maps.InsertAllUntouched | api/index.rs:28 | a key that no entry inserts keeps its earlier presence and value |
| Maps.InsertAllLastWins | api/index.rs:28 | a key's final value is the value of its last insert |
| Maps.InsertAllSize | api/_util.rs:34-56 | entries with distinct keys, none already present, add one key each |
| Maps.InsertAllNoOverwrite | api/_util.rs:34-56 | with distinct new keys, no insert meets a key already in the map |
| QueryString.Split | api/index.rs:20-22 | `str::split`: always at least one piece, and no piece contains the separator |
| QueryString.JoinSplit | api/index.rs:20 | joining the pieces with the separator gives back the original text |
| QueryString.SplitNoSeparator | api/index.rs:20-22 | a text without the separator is a single piece |
| QueryString.SplitAround | api/index.rs:20-22 | the pieces of `x + sep + y` are the pieces of `x` followed by the pieces of `y` |
| QueryString.SplitJoin | api/index.rs:20 | splitting inverts joining pieces that hold no separator |
| QueryString.Segments | api/index.rs:16-20 | the `&`-pieces of the query, an absent query read as "" (`unwrap_or_default`); always at least one |
| QueryString.Pairs | api/index.rs:21-27 | one (key, value) pair per segment, in order |
| QueryString.ParseQuery | api/index.rs:16-28 | the parsed query map: the pairs inserted in order; its properties are `ParseQueryKeys`, `ParseQueryLastWins`, `AbsentQuery`, `TrailingAmpersand` |
| QueryString.Param | api/index.rs:30 | `query.get(name).unwrap_or(&"")`: the parameter's value, or "" when it is absent (also index.rs:70 for `ref`) |
| QueryString.Pair | api/index.rs:21-27 | neither the key nor the value of a segment contains `=` |
| QueryString.PairOfSegment | api/index.rs:22-26 | `k` gives `(k, "")`; `k=v` gives `(k, v)`; `k=v=rest` gives `(k, v)`, dropping the rest |
| QueryString.ParseQueryKeys | api/index.rs:16-28 | a key is in the parsed map exactly when some `&`-segment has it as its key |
| QueryString.ParseQueryLastWins | api/index.rs:16-28 | a key that occurs more than once maps to the value of its last segment |
| QueryString.AbsentQuery | api/index.rs:18-19 | a missing query parses to the single pair `("", "")`, so `link` resolves to "" |
| QueryString.TrailingAmpersand | api/index.rs:20-28 | a trailing `&` adds only the pair `("", "")` |
| QueryString.SingleParameter | api/index.rs:16-28 | a query `key=value` (no `&` or `=` inside) parses to exactly that pair |
| QueryString.TwoParameters | api/index.rs:16-28 | a query with two `key=value` segments parses to both pairs, the second winning on equal keys |
| UaProfile.FromWoothee | api/_util.rs:18-29 | `From<WootheeResult> for UAResult`, a field-for-field copy; proved by `FromWootheeCopiesFields` and `FromWootheeInjective` |
| UaProfile.ProfileMap | api/_util.rs:32-58 | the map built by the seven inserts from `Map::new()`; proved by `ProfileMapContents`, `ProfileMapNoOverwrite`, `ProfileRoundTrip` |
| UaProfile.BrowserInfo | api/index.rs:66 | `Value::Object` of the flattened profile of a classifier result; proved by `BrowserInfoCarriesFields` |
| UaProfile.FromWootheeCopiesFields | api/_util.rs:18-29 | each of the seven fields is copied unchanged |
| UaProfile.FromWootheeInjective | api/_util.rs:18-29 | the copy loses nothing: different classifier results give different profiles |
| UaProfile.ProfileEntries | api/_util.rs:34-56 | the seven inserts use the keys `name, category, os, os_version, browser_type, version, vendor`, in that order |
| UaProfile.ProfileMapNoOverwrite | api/_util.rs:34-57 | each insert adds a key not yet present, and the final map has seven entries |
| UaProfile.ProfileMapContents | api/_util.rs:34-57 | the map has exactly the seven keys, each holding `Value::String` of the matching field |
| UaProfile.ProfileRoundTrip | api/_util.rs:32-58 | the profile read back from the map is the profile that was flattened |
| UaProfile.BrowserInfoCarriesFields | api/index.rs:66 | the composed conversion always yields an object with seven keys carrying the classifier's fields verbatim |
| Store.Select | api/index.rs:44-46 | the query returns only rows with the requested code, all of them from the table |
| Store.SelectEmpty | api/index.rs:44-48 | the query returns nothing exactly when no table row has the code |
| Store.SelectFirst | api/index.rs:56 | the first row returned is the first table row with the code |
| Store.Database.constructor | api/index.rs:42 | a database with the given tables and an empty interaction log |
| Store.Database.Connect | api/index.rs:42 | succeeds as the faults say, logs the connect, changes no table |
| Store.Database.Query | api/index.rs:44-46 | returns the selected rows, or `None` on a query error; logs the select; changes no table |
| Store.Database.Insert | api/index.rs:99-110 | appends the row to `links_view` exactly when the insert succeeds; logs the insert |
| Handler.Header | api/index.rs:60-63 | a header's value, or "" when the request lacks it (also index.rs:71-81 for `referer` and `x-real-ip`) |
| Handler.Greeting | api/index.rs:33-37 | status 200, `Cache-Control: public, max-age=0, must-revalidate`, the greeting body |
| Handler.NotFound | api/index.rs:49-53 | status 404, the same cache directive, `Link not found!` |
| Handler.Redirect | api/index.rs:112-117 | status 308, `Location` then the cache directive, `Redirecting...` |
| Handler.ValidHeaderValue | api/index.rs:114 | the `Location` value is accepted by the builder exactly when every byte is a tab or at least 0x20 and not 0x7F |
| Handler.ViewOf | api/index.rs:99-109 | the inserted row: the code, the browser profile, `ref`, `referer` and the ip details, in column order |
| Handler.IpInfo | api/index.rs:83-97 | `ip_info` is the service's entry for the ip when the client builds, the lookup succeeds and the ip is known; otherwise the JSON string "" |
| Handler.Decide | api/index.rs:11-119 | at most one row is inserted; a row is inserted exactly when the answer is 308 or the `Location` builder fails after the insert, and it carries the non-empty parsed code; every answer is 200, 404 or 308 and carries the cache directive; the database is untouched exactly on the greeting and on a missing variable |
| Handler.Record | api/index.rs:58-119 | after the target is known: at most one insert; a row is stored exactly when the answer is the 308 to the target or the `Location` builder then fails; the only aborts are an unparsed agent, a failed insert and a bad `Location` |
| Handler.Resolve | api/index.rs:10-120 | the whole invocation: `Decide` applied to the parsed query and the request's headers |
| Handler.RecordVisit | api/index.rs:58-119 | the outcome, the interactions and the rows added to `links_view` are those `Record` gives; `links` is unchanged |
| Handler.Handle | api/index.rs:10-120 | the handler's outcome, its database interactions and the rows added to `links_view` are those `Resolve` gives; `links` is unchanged |
| Handler.UnconfiguredAborts | api/index.rs:11-12 | a missing `DATABASE_URL` or `IPINFO_TOKEN` aborts with no database interaction and no insert |
| Handler.NoLinkGreets | api/index.rs:30-38 | an absent or empty `link` gives 200, the greeting and the cache directive, with no connect, no query and no insert |
| Handler.NoQueryGreets | api/index.rs:16-38 | a request without a query is greeted without touching the database |
| Handler.ConnectFailureAborts | api/index.rs:42 | a failed connect aborts after the connect and inserts nothing |
| Handler.UnknownCodeNotFound | api/index.rs:44-54 | no row for the code, or a failed query, gives 404 `Link not found!` with the cache directive, after just a connect and a select, with no insert |
| Handler.KnownCodeRedirects | api/index.rs:56-119 | the first table row with the code, when its target is a valid header value, gives 308 with `Location` set to that target. Exactly one view row is inserted, holding the code, the flattened profile, `ref` (or ""), `referer` (or "") and the `x-real-ip` details |
| Handler.BadTargetAbortsAfterInsert | api/index.rs:99-117 | a known code whose first target is not a valid header value aborts after the insert, and the view row stays stored |
| Handler.ControlCharTargetRejected | api/index.rs:114 | a target holding, at any position, a control character other than tab (below 0x20, or 0x7F) is not a valid header value, so the `Location` header cannot be built from it |
| Handler.NewlineTargetRejected | api/index.rs:114 | the string `a\nb` is not a valid header value |
| Handler.EnrichmentFailureAborts | api/index.rs:65-66 | a known code aborts with no stored row when the classifier returns nothing or the insert fails |
| Scenarios.SecondEqualsTruncatesValue | api/index.rs:22-26 | `a=b=c` parses to `a -> b` |
| Scenarios.BareKeyHasEmptyValue | api/index.rs:24-25 | `link` alone parses to `link -> ""`, so it counts as no code |
| Scenarios.RepeatedKeyLastWins | api/index.rs:28 | `link=x&link=y` parses to `link -> y` |
| Scenarios.Abc123Parses | api/index.rs:16-30 | `link=abc123` parses to `link -> abc123` |
| Scenarios.ExampleTargetIsHeaderValue | api/index.rs:114 | `https://example.com/page` is a valid `Location` value |
| Scenarios.StoredCodeScenario | api/index.rs:30-119 | `?link=abc123` with the row `abc123 -> https://example.com/page` gives 308 to that page and one view row for `abc123` with the client's profile |
| Scenarios.UnknownCodeScenario | api/index.rs:44-54 | `?link=zzz` with no such row gives 404 and no view row |

## Left out

- The Postgres client, its SQL text and wire protocol: they are replaced by two row sequences and an interaction log. `links[0].get("target")` cannot fail in the model; in the source it panics on a missing or mistyped column and on a NULL value.
- `Select`: the query has no `ORDER BY`, so Postgres promises no row order. The order of the `links` sequence stands for the order in which the server returns the matching rows, and "the first row with the code" (`SelectFirst`) means the first row the server returns.
- The ipinfo client, its configuration and its network lookup. The lookup is a partial map from ip to details already serialised as JSON, so the `serde_json::to_value(...).unwrap()` calls cannot fail here.
- Woothee's user-agent matching rules: the classifier is a parameter that returns an optional result.
- `dotenv` environment reads: they are the two optional fields of `Config`.
- Header decoding (`to_str().unwrap()`, which aborts on non-visible-ASCII bytes). Headers are already-decoded strings keyed by lower-case name, one value per name.
- The rest of the `Response::builder` machinery. The 200 and 404 builders and the `Cache-Control` header use constant values and cannot fail; the one value that can make a builder fail, the `Location` target, is modelled (`ValidHeaderValue`, failure `BadLocation`). A response is a plain record of status, ordered header list and body.
- The `vercel_lambda` runtime, `main`, and concurrency of any kind.
- JSON values beyond strings and objects. The ip details payload (`serde_json::to_value(info)`) is opaque: the model takes it as given by the service and restricts it to the model's `Value` shapes, strings and objects.
- `api/[link].rs`, an older variant of the same handler, is not part of this model.
