/** The Postgres database the handler talks to, reduced to what it does with
    it: connect, select the `links` rows of one code, and append one row to
    `links_view`. Every interaction is recorded, so that "the store was not
    touched" and "exactly one row was inserted" can be stated exactly. */
module Store {
  import opened Wrappers
  import opened UaProfile

  /** A row of table `links`. */
  datatype LinkRow = LinkRow(link: string, target: string)

  /** A row of table `links_view`, in column order. */
  datatype ViewRow = ViewRow(
    link: string, browserInfo: Value, referrerLink: string,
    referrerSite: string, ipInfo: Value)

  /** One interaction with the database. */
  datatype Op = ConnectOp(url: string) | SelectOp(link: string) | InsertOp(row: ViewRow)

  /** How the database behaves towards this invocation: whether connecting,
      the `links` query and the `links_view` insert succeed. */
  datatype Faults = Faults(connectOk: bool, queryOk: bool, insertOk: bool)

  /** `SELECT * FROM links WHERE link = $1`. The query has no `ORDER BY`;
      the order of `rows` stands for the order in which the server returns them. */
  function Select(rows: seq<LinkRow>, link: string): (r: seq<LinkRow>)
    ensures |r| <= |rows|
    ensures forall i :: 0 <= i < |r| ==> r[i].link == link && r[i] in rows
    decreases |rows|
  {
    if rows == [] then []
    else (if rows[0].link == link then [rows[0]] else []) + Select(rows[1..], link)
  }

  /** The query finds nothing exactly when no row has the code. */
  lemma {:induction false} SelectEmpty(rows: seq<LinkRow>, link: string)
    ensures Select(rows, link) == [] <==> forall i :: 0 <= i < |rows| ==> rows[i].link != link
    decreases |rows|
  {
    if rows != [] {
      SelectEmpty(rows[1..], link);
      assert forall i :: 1 <= i < |rows| ==> rows[i] == rows[1..][i - 1];
    }
  }

  /** The first row returned is the first row of the table with the code. */
  lemma {:induction false} SelectFirst(rows: seq<LinkRow>, link: string, j: nat)
    requires j < |rows| && rows[j].link == link
    requires forall i :: 0 <= i < j ==> rows[i].link != link
    ensures Select(rows, link) != [] && Select(rows, link)[0] == rows[j]
    decreases |rows|
  {
    if j > 0 {
      assert forall i :: 0 <= i < j - 1 ==> rows[1..][i] == rows[i + 1];
      SelectFirst(rows[1..], link, j - 1);
    }
  }

  /** The database: its two tables and the log of interactions. */
  class Database {
    var links: seq<LinkRow>
    var views: seq<ViewRow>
    var ops: seq<Op>
    const faults: Faults

    constructor (links: seq<LinkRow>, views: seq<ViewRow>, faults: Faults)
      ensures this.links == links && this.views == views && this.faults == faults
      ensures ops == []
    {
      this.links := links;
      this.views := views;
      this.faults := faults;
      ops := [];
    }

    /** `Client::connect`: succeeds as the faults say; changes no table. */
    method Connect(url: string) returns (ok: bool)
      modifies this
      ensures ok == faults.connectOk
      ensures ops == old(ops) + [ConnectOp(url)]
      ensures links == old(links) && views == old(views)
    {
      ok := faults.connectOk;
      ops := ops + [ConnectOp(url)];
    }

    /** `client.query(...)`: the matching rows, or `None` on a query error. */
    method Query(link: string) returns (rows: Option<seq<LinkRow>>)
      modifies this
      ensures rows == if faults.queryOk then Some(Select(links, link)) else None
      ensures ops == old(ops) + [SelectOp(link)]
      ensures links == old(links) && views == old(views)
    {
      rows := if faults.queryOk then Some(Select(links, link)) else None;
      ops := ops + [SelectOp(link)];
    }

    /** `client.execute("INSERT INTO links_view ...")`: appends the row when
        the insert succeeds, and nothing otherwise. */
    method Insert(row: ViewRow) returns (ok: bool)
      modifies this
      ensures ok == faults.insertOk
      ensures views == if ok then old(views) + [row] else old(views)
      ensures ops == old(ops) + [InsertOp(row)]
      ensures links == old(links)
    {
      ok := faults.insertOk;
      if ok {
        views := views + [row];
      }
      ops := ops + [InsertOp(row)];
    }
  }
}
