/** The account list of the admin interface: keyset pages by (created_at, id), with opaque cursors. */
module Accounts {
  import opened Basics
  import opened Decimal
  import opened Cursor

  /** accounts: id to created_at. */
  type Table = map<int, int>

  datatype Account = Account(id: int, createdAt: int)

  ghost predicate ValidTable(t: Table) {
    forall id :: id in t ==> IsInt64(id) && IsInt64(t[id])
  }

  /** The order of the list. */
  predicate Before(a: Account, b: Account) {
    a.createdAt < b.createdAt || (a.createdAt == b.createdAt && a.id < b.id)
  }

  predicate Past(after: Option<Account>, a: Account) {
    after.Some? ==> Before(after.value, a)
  }

  predicate Increasing(rows: seq<Account>) {
    forall i, j :: 0 <= i < j < |rows| ==> Before(rows[i], rows[j])
  }

  predicate InTable(t: Table, a: Account) {
    a.id in t && t[a.id] == a.createdAt
  }

  /** The first n accounts past a position, in order: what the query returns. */
  ghost predicate FirstPast(t: Table, after: Option<Account>, n: nat, rows: seq<Account>) {
    && |rows| <= n && Increasing(rows)
    && (forall i :: 0 <= i < |rows| ==> InTable(t, rows[i]) && Past(after, rows[i]))
    && (forall a :: InTable(t, a) && Past(after, a) && a !in rows ==>
          |rows| == n && forall i :: 0 <= i < |rows| ==> Before(rows[i], a))
  }

  /** The position a cursor stands for: Some(None) for no cursor, None for one that is refused. */
  function CursorPosition(cursor: string): Option<Option<Account>> {
    if cursor == "" then Some(None)
    else match DecodeCursor(cursor)
      case None => None
      case Some((ts, idText)) =>
        match ParseInt(idText)
        case None => None
        case Some(id) => Some(Some(Account(id, ts)))
  }

  /** Which texts are cursors: none at all, and the encoding of two numbers with a colon between them. */
  lemma CursorPositionExact(cursor: string, at: Account)
    ensures CursorPosition(cursor) == Some(None) <==> cursor == ""
    ensures CursorPosition(cursor) == Some(Some(at)) <==>
              cursor != "" && exists ts, id :: Decode(cursor) == Some(ts + ":" + id) && ':' !in ts
                                 && ParseInt(ts) == Some(at.createdAt) && ParseInt(id) == Some(at.id)
  {
    if CursorPosition(cursor) == Some(Some(at)) {
      CutIsExact(Decode(cursor).value, ':');
      var (ts, id) := Cut(Decode(cursor).value, ':').value;
      assert Decode(cursor) == Some(ts + ":" + id);
    }
    forall ts, id | Decode(cursor) == Some(ts + ":" + id) && ':' !in ts
      ensures Cut(ts + ":" + id, ':') == Some((ts, id))
    {
      CutAtFirst(ts, ':', id);
    }
  }

  function NextCursor(last: Account): string {
    FormatIntIsBytes(last.id);
    EncodeCursor(last.createdAt, FormatInt(last.id))
  }

  datatype Listing = Listing(items: seq<Account>, next: string)

  function PageItems(rows: seq<Account>, limit: nat): seq<Account> {
    if |rows| > limit then rows[..limit] else rows
  }

  function Page(rows: seq<Account>, limit: nat): Listing
    requires limit >= 1
  {
    Listing(PageItems(rows, limit), if |rows| > limit then NextCursor(rows[limit - 1]) else "")
  }

  /** Collects the rows, cuts them to the limit and makes the cursor of the next page. */
  method BuildPage(rows: seq<Account>, limit: nat) returns (r: Listing)
    requires limit >= 1
    ensures r == Page(rows, limit)
  {
    var items: seq<Account> := [];
    for i := 0 to |rows|
      invariant items == rows[..i]
    {
      items := items + [rows[i]];
    }
    assert items == rows;
    if |items| > limit {
      items := items[..limit];
      var last := items[|items| - 1];
      var next := NextCursor(last);
      return Listing(items, next);
    }
    r := Listing(items, "");
  }

  /** One request; rows is what the query for limit + 1 accounts past the cursor returned. */
  method ListAccounts(t: Table, cursor: string, limit: nat, rows: seq<Account>) returns (r: Option<Listing>)
    requires limit >= 1
    requires CursorPosition(cursor).Some? ==> FirstPast(t, CursorPosition(cursor).value, limit + 1, rows)
    ensures CursorPosition(cursor).None? ==> r == None
    ensures CursorPosition(cursor).Some? ==> r == Some(Page(rows, limit))
  {
    if cursor != "" {
      var decoded := DecodeCursor(cursor);
      if decoded.None? {
        return None;
      }
      var (ts, idText) := decoded.value;
      if ParseInt(idText).None? {
        return None;
      }
    }
    var page := BuildPage(rows, limit);
    r := Some(page);
  }

  lemma CursorRestoresPosition(last: Account)
    requires IsInt64(last.id) && IsInt64(last.createdAt)
    ensures NextCursor(last) != "" && CursorPosition(NextCursor(last)) == Some(Some(last))
  {
    FormatIntIsBytes(last.id);
    FormatIntChars(last.id);
    CursorRoundTrip(last.createdAt, FormatInt(last.id));
    FormatParseRoundTrip(last.id);
    EmptyCursorIsRefused();
  }

  lemma EmptyCursorIsRefused()
    ensures DecodeCursor("") == None
  {
  }

  // ----- a walk through the pages, while accounts come and go -----

  /** Request i runs on tables[i], from the cursor that request i - 1 returned. */
  ghost predicate Walk(tables: seq<Table>, cursor: string, limit: nat, answers: seq<seq<Account>>)
    requires limit >= 1
    decreases |answers|
  {
    && |tables| == |answers| && answers != []
    && CursorPosition(cursor).Some?
    && FirstPast(tables[0], CursorPosition(cursor).value, limit + 1, answers[0])
    && (|answers| > 1 ==>
          Page(answers[0], limit).next != "" && Walk(tables[1..], Page(answers[0], limit).next, limit, answers[1..]))
  }

  function Collected(answers: seq<seq<Account>>, limit: nat): seq<Account>
    requires limit >= 1
  {
    if answers == [] then [] else PageItems(answers[0], limit) + Collected(answers[1..], limit)
  }

  ghost predicate ValidTables(tables: seq<Table>) {
    forall i :: 0 <= i < |tables| ==> ValidTable(tables[i])
  }

  /** Where the walk goes on after its first page. */
  lemma NextPage(tables: seq<Table>, cursor: string, limit: nat, answers: seq<seq<Account>>)
    requires limit >= 1 && ValidTables(tables) && Walk(tables, cursor, limit, answers) && |answers[0]| > limit
    ensures Page(answers[0], limit).next != ""
    ensures CursorPosition(Page(answers[0], limit).next) == Some(Some(answers[0][limit - 1]))
    ensures Past(CursorPosition(cursor).value, answers[0][limit - 1])
  {
    assert InTable(tables[0], answers[0][limit - 1]);
    CursorRestoresPosition(answers[0][limit - 1]);
  }

  ghost predicate AllPast(after: Option<Account>, rows: seq<Account>) {
    forall i :: 0 <= i < |rows| ==> Past(after, rows[i])
  }

  lemma JoinIncreasing(after: Option<Account>, items: seq<Account>, rest: seq<Account>)
    requires items != [] && Increasing(items) && AllPast(after, items)
    requires Increasing(rest) && AllPast(Some(items[|items| - 1]), rest)
    ensures Increasing(items + rest) && AllPast(after, items + rest)
  {
    forall i, j | 0 <= i < |items| && 0 <= j < |rest| ensures Before(items[i], rest[j]) {
      assert i < |items| - 1 ==> Before(items[i], items[|items| - 1]);
    }
    forall j | 0 <= j < |rest| ensures Past(after, rest[j]) {
      assert Past(after, items[|items| - 1]);
    }
  }

  lemma FirstItems(tables: seq<Table>, cursor: string, limit: nat, answers: seq<seq<Account>>)
    requires limit >= 1 && Walk(tables, cursor, limit, answers)
    ensures var items := PageItems(answers[0], limit);
            && Increasing(items) && AllPast(CursorPosition(cursor).value, items)
            && (|answers[0]| > limit ==> |items| == limit && items[limit - 1] == answers[0][limit - 1])
            && (|answers| > 1 ==> |answers[0]| > limit)
  {
  }

  /** A full first page in front of the rest. */
  lemma CollectedJoins(answers: seq<seq<Account>>, limit: nat, after: Option<Account>)
    requires limit >= 1 && answers != [] && |answers[0]| > limit
    requires Increasing(PageItems(answers[0], limit)) && AllPast(after, PageItems(answers[0], limit))
    requires var rest := Collected(answers[1..], limit);
             Increasing(rest) && AllPast(Some(answers[0][limit - 1]), rest)
    ensures Increasing(Collected(answers, limit)) && AllPast(after, Collected(answers, limit))
  {
    JoinIncreasing(after, PageItems(answers[0], limit), Collected(answers[1..], limit));
  }

  /** The collected accounts lie past the cursor, in strictly increasing order: none comes twice. */
  lemma {:induction false} WalkIncreases(tables: seq<Table>, cursor: string, limit: nat, answers: seq<seq<Account>>)
    requires limit >= 1 && ValidTables(tables) && Walk(tables, cursor, limit, answers)
    ensures Increasing(Collected(answers, limit)) && AllPast(CursorPosition(cursor).value, Collected(answers, limit))
    decreases |answers|
  {
    FirstItems(tables, cursor, limit, answers);
    if |answers| > 1 {
      NextPage(tables, cursor, limit, answers);
      WalkIncreases(tables[1..], Page(answers[0], limit).next, limit, answers[1..]);
      CollectedJoins(answers, limit, CursorPosition(cursor).value);
    } else {
      assert answers[1..] == [];
      assert Collected(answers, limit) == PageItems(answers[0], limit);
    }
  }

  /** The order in plain words: by time of creation, then by id; so no account comes twice. */
  lemma WalkIsLexicographic(tables: seq<Table>, cursor: string, limit: nat, answers: seq<seq<Account>>, i: nat, j: nat)
    requires limit >= 1 && ValidTables(tables) && Walk(tables, cursor, limit, answers)
    requires i < j < |Collected(answers, limit)|
    ensures var a, b := Collected(answers, limit)[i], Collected(answers, limit)[j];
            a.createdAt < b.createdAt || (a.createdAt == b.createdAt && a.id < b.id)
  {
    WalkIncreases(tables, cursor, limit, answers);
  }

  /** A walk that has come to its end has met every account that was there all the time. */
  lemma {:induction false} WalkIsComplete(
      tables: seq<Table>, cursor: string, limit: nat, answers: seq<seq<Account>>, a: Account)
    requires limit >= 1 && ValidTables(tables) && Walk(tables, cursor, limit, answers)
    requires Page(answers[|answers| - 1], limit).next == ""
    requires forall i :: 0 <= i < |tables| ==> InTable(tables[i], a)
    requires Past(CursorPosition(cursor).value, a)
    ensures a in Collected(answers, limit)
    decreases |answers|
  {
    var items := PageItems(answers[0], limit);
    if |answers| > 1 {
      NextPage(tables, cursor, limit, answers);
      FirstPageOrLater(tables[0], CursorPosition(cursor).value, limit, answers[0], a);
      if a !in items {
        assert answers[1..][|answers| - 2] == answers[|answers| - 1];
        WalkIsComplete(tables[1..], Page(answers[0], limit).next, limit, answers[1..], a);
      }
    } else {
      LastPageHasAll(tables, cursor, limit, answers, a);
    }
  }

  /** An account that the first page leaves out lies past its last one. */
  lemma FirstPageOrLater(t: Table, after: Option<Account>, limit: nat, rows: seq<Account>, a: Account)
    requires limit >= 1 && FirstPast(t, after, limit + 1, rows) && |rows| > limit
    requires InTable(t, a) && Past(after, a)
    ensures a in rows[..limit] || Before(rows[limit - 1], a)
  {
    if a in rows {
      var i :| 0 <= i < |rows| && rows[i] == a;
      if i < limit {
        assert rows[..limit][i] == a;
      }
    }
  }

  lemma LastPageHasAll(tables: seq<Table>, cursor: string, limit: nat, answers: seq<seq<Account>>, a: Account)
    requires limit >= 1 && ValidTables(tables) && Walk(tables, cursor, limit, answers)
    requires |answers| == 1 && Page(answers[0], limit).next == ""
    requires InTable(tables[0], a) && Past(CursorPosition(cursor).value, a)
    ensures a in Collected(answers, limit)
  {
    if |answers[0]| > limit {
      NextPage(tables, cursor, limit, answers);
    }
  }
}
