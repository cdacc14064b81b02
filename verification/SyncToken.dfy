/** Sync tokens: their text, and the store of the current token of every (account, domain). */
module SyncToken {
  import opened Basics
  import opened Decimal

  datatype DomainId = DomainId(account: int, domain: string)

  /** The key of a domain in the token store. */
  function TokenKey(dom: DomainId): string {
    FormatInt(dom.account) + "\0" + dom.domain
  }

  /** st_<seq>_<hex>, where hex is the random part. */
  function MintToken(seqNo: int, hex: string): string {
    "st_" + FormatInt(seqNo) + "_" + hex
  }

  /** The number in a token, or None for a text that is not a token. */
  function ParseToken(tok: string): Option<int> {
    if !("st_" <= tok) then None
    else match Cut(tok[3..], '_')
      case None => None
      case Some(parts) => if |parts.1| != 6 then None else ParseInt(parts.0)
  }

  lemma TokenRoundTrip(seqNo: int, hex: string)
    requires IsInt64(seqNo) && |hex| == 6
    ensures ParseToken(MintToken(seqNo, hex)) == Some(seqNo)
    ensures MintToken(seqNo, hex) != ""
  {
    FormatIntChars(seqNo);
    assert MintToken(seqNo, hex)[3..] == FormatInt(seqNo) + "_" + hex;
    CutAtFirst(FormatInt(seqNo), '_', hex);
    FormatParseRoundTrip(seqNo);
  }

  /** st_<digits>_<hex>, cut at the first underscore after the prefix. */
  predicate IsToken(tok: string, digits: string, hex: string) {
    tok == "st_" + digits + "_" + hex && '_' !in digits && |hex| == 6
  }

  /** A text of the form of a token, whose number is n. */
  ghost predicate ReadsAs(tok: string, n: int) {
    exists digits, hex :: IsToken(tok, digits, hex) && ParseInt(digits) == Some(n)
  }

  /** Which texts are tokens, and what they say: no other text gets through. */
  lemma ParseTokenExact(tok: string, n: int)
    ensures ParseToken(tok) == Some(n) <==> ReadsAs(tok, n)
  {
    if ParseToken(tok) == Some(n) {
      CutIsExact(tok[3..], '_');
      var parts := Cut(tok[3..], '_').value;
      assert tok == "st_" + tok[3..];
      assert tok == "st_" + parts.0 + "_" + parts.1;
      assert IsToken(tok, parts.0, parts.1);
    }
    if ReadsAs(tok, n) {
      var digits, hex :| IsToken(tok, digits, hex) && ParseInt(digits) == Some(n);
      CutToken(tok, digits, hex);
    }
  }

  lemma CutToken(tok: string, digits: string, hex: string)
    requires IsToken(tok, digits, hex)
    ensures "st_" <= tok && Cut(tok[3..], '_') == Some((digits, hex))
  {
    assert tok[3..] == digits + ['_'] + hex;
    CutAtFirst(digits, '_', hex);
  }

  /** A minted token reads as its number and as no other. */
  lemma MintedReadsAs(seqNo: int, hex: string, n: int)
    requires IsInt64(seqNo) && |hex| == 6
    ensures ReadsAs(MintToken(seqNo, hex), n) <==> n == seqNo
  {
    TokenRoundTrip(seqNo, hex);
    ParseTokenExact(MintToken(seqNo, hex), n);
  }

  lemma TokenKeyInjective(a: DomainId, b: DomainId)
    requires TokenKey(a) == TokenKey(b)
    ensures a == b
  {
    NumberedTextInjective(a.account, b.account, '\0', a.domain, b.domain);
  }

  type TokenMap = map<string, string>

  /** The watermark of a domain: the number of its current token, 0 when it has none. */
  function Mark(cur: TokenMap, dom: DomainId): int {
    if TokenKey(dom) in cur then
      match ParseToken(cur[TokenKey(dom)])
      case Some(n) => n
      case None => 0
    else 0
  }

  /** The number of the token where it reads as one; no token, or a text that is none, counts as 0. */
  lemma MarkExact(cur: TokenMap, dom: DomainId, n: int)
    ensures TokenKey(dom) in cur && ReadsAs(cur[TokenKey(dom)], n) ==> Mark(cur, dom) == n
    ensures TokenKey(dom) !in cur || (forall m :: !ReadsAs(cur[TokenKey(dom)], m)) ==> Mark(cur, dom) == 0
  {
    if TokenKey(dom) in cur {
      var tok := cur[TokenKey(dom)];
      ParseTokenExact(tok, n);
      if ParseToken(tok).Some? {
        ParseTokenExact(tok, ParseToken(tok).value);
      }
    }
  }

  /** First and last number of a batch of n items; an empty batch still uses up one number. */
  function BatchStart(mark: int, now: int): int {
    Max(Wrap64(mark + 1), now)
  }

  function BatchLast(start: int, n: nat): int {
    if n > 0 then Wrap64(Wrap64(start + n) - 1) else start
  }

  /** The batch does not run past the largest 64-bit number. */
  predicate Fits(mark: int, n: nat, now: int) {
    Max(mark + 1, now) + Max(n, 1) - 1 <= MAX_INT64
  }

  lemma BatchNumbers(mark: int, n: nat, now: Millis)
    requires 0 <= mark <= MAX_INT64 && Fits(mark, n, now)
    ensures BatchStart(mark, now) == Max(mark + 1, now)
    ensures BatchLast(BatchStart(mark, now), n) == BatchStart(mark, now) + Max(n, 1) - 1
    ensures mark < BatchStart(mark, now) && BatchStart(mark, now) + Max(n, 1) - 1 <= MAX_INT64
  {
    assert mark + 1 <= MAX_INT64;
    var start := BatchStart(mark, now);
    if n > 0 && start + n > MAX_INT64 {
      assert start + n == MAX_INT64 + 1;
      assert Wrap64(start + n) == MIN_INT64;
      assert Wrap64(MIN_INT64 - 1) == MAX_INT64;
    }
  }

  /** Tokens of a domain strictly increase exactly as long as the numbers of the batch fit. */
  lemma TokensIncreaseIffFits(mark: int, n: nat, now: Millis)
    requires 0 <= mark <= MAX_INT64 && n <= 500
    ensures BatchLast(BatchStart(mark, now), n) > mark <==> Fits(mark, n, now)
  {
    if Fits(mark, n, now) {
      BatchNumbers(mark, n, now);
    } else if mark < MAX_INT64 {
      var start := BatchStart(mark, now);
      assert start + n > MAX_INT64 + 1 || start + n == MAX_INT64 + 1;
      assert Wrap64(start + n) == start + n - TWO_64;
    } else {
      assert Wrap64(mark + 1) == MIN_INT64;
      if n > 0 && now + n > MAX_INT64 {
        assert Wrap64(now + n) == now + n - TWO_64;
      }
    }
  }

  /** One row of sync_domains with a non-empty token, as read at start-up. */
  datatype StoredToken = StoredToken(dom: DomainId, token: string)

  /** A stored token replaces the one in memory unless both parse and the one in memory is not smaller. */
  function LoadOne(cur: TokenMap, key: string, token: string): TokenMap {
    if key in cur && ParseToken(cur[key]).Some? && ParseToken(token).Some?
       && ParseToken(cur[key]).value >= ParseToken(token).value
    then cur
    else cur[key := token]
  }

  /** Of two readable tokens of one domain the greater number stays, the later one among equals does not. */
  lemma LoadOneKeepsGreater(cur: TokenMap, key: string, token: string, was: int, n: int)
    requires key in cur && ReadsAs(cur[key], was) && ReadsAs(token, n)
    ensures LoadOne(cur, key, token) == if was >= n then cur else cur[key := token]
  {
    ParseTokenExact(cur[key], was);
    ParseTokenExact(token, n);
  }

  function LoadAll(cur: TokenMap, rows: seq<StoredToken>): TokenMap {
    if rows == [] then cur
    else LoadOne(LoadAll(cur, rows[..|rows| - 1]), TokenKey(rows[|rows| - 1].dom), rows[|rows| - 1].token)
  }

  lemma LoadAllExtends(cur: TokenMap, rows: seq<StoredToken>, i: nat)
    requires i < |rows|
    ensures LoadAll(cur, rows[..i + 1]) == LoadOne(LoadAll(cur, rows[..i]), TokenKey(rows[i].dom), rows[i].token)
  {
    assert rows[..i + 1][..i] == rows[..i];
  }

  /** No two rows are of one domain: the primary key of sync_domains. */
  ghost predicate OneRowPerDomain(rows: seq<StoredToken>) {
    forall i, j :: 0 <= i < j < |rows| ==> rows[i].dom != rows[j].dom
  }

  function Keys(rows: seq<StoredToken>): set<string> {
    set row | row in rows :: TokenKey(row.dom)
  }

  lemma LastKeyIsNew(init: seq<StoredToken>, last: StoredToken)
    requires forall row :: row in init ==> row.dom != last.dom
    ensures TokenKey(last.dom) !in Keys(init)
  {
    if TokenKey(last.dom) in Keys(init) {
      var row :| row in init && TokenKey(row.dom) == TokenKey(last.dom);
      TokenKeyInjective(row.dom, last.dom);
    }
  }

  /** The store holds the token of every row and nothing else. */
  ghost predicate Restored(cur: TokenMap, rows: seq<StoredToken>) {
    && cur.Keys == Keys(rows)
    && forall row :: row in rows ==> TokenKey(row.dom) in cur && cur[TokenKey(row.dom)] == row.token
  }

  lemma LoadOneRestores(cur: TokenMap, init: seq<StoredToken>, last: StoredToken, key: string)
    requires Restored(cur, init) && key == TokenKey(last.dom)
    requires forall row :: row in init ==> row.dom != last.dom
    ensures Restored(LoadOne(cur, key, last.token), init + [last])
  {
    LastKeyIsNew(init, last);
    var after := cur[key := last.token];
    assert LoadOne(cur, key, last.token) == after;
    forall row | row in init + [last]
      ensures TokenKey(row.dom) in after && after[TokenKey(row.dom)] == row.token
    {
      if row != last {
        assert row in init;
        assert TokenKey(row.dom) in Keys(init);
      }
    }
    assert after.Keys == Keys(init + [last]) by {
      assert forall row :: row in init + [last] <==> row in init || row == last;
    }
  }

  lemma LastRowIsNew(rows: seq<StoredToken>, init: seq<StoredToken>, last: StoredToken)
    requires OneRowPerDomain(rows) && rows == init + [last]
    ensures OneRowPerDomain(init) && forall row :: row in init ==> row.dom != last.dom
  {
    forall i | 0 <= i < |init| ensures init[i].dom != last.dom {
      assert rows[i].dom != rows[|init|].dom;
    }
    forall i, j | 0 <= i < j < |init| ensures init[i].dom != init[j].dom {
      assert rows[i].dom != rows[j].dom;
    }
  }

  /** Starting empty and with at most one row a domain, the store ends up holding exactly the rows. */
  lemma {:induction false} LoadRestoresRows(cur: TokenMap, rows: seq<StoredToken>)
    requires cur == map[] && OneRowPerDomain(rows)
    ensures Restored(LoadAll(cur, rows), rows)
    decreases |rows|
  {
    if rows != [] {
      var init, last := rows[..|rows| - 1], rows[|rows| - 1];
      assert rows == init + [last];
      LastRowIsNew(rows, init, last);
      LoadRestoresRows(cur, init);
      LoadOneRestores(LoadAll(cur, init), init, last, TokenKey(last.dom));
    }
  }

  /** The in-memory cursor table of the sync service. */
  class TokenStore {
    var cur: TokenMap

    constructor ()
      ensures cur == map[]
    {
      cur := map[];
    }

    method Load(rows: seq<StoredToken>)
      modifies this
      ensures cur == LoadAll(old(cur), rows)
    {
      for i := 0 to |rows|
        invariant cur == LoadAll(old(cur), rows[..i])
      {
        var row := rows[i];
        var k := TokenKey(row.dom);
        ghost var next := LoadOne(cur, k, row.token);
        LoadAllExtends(old(cur), rows, i);
        if k in cur {
          var curNumber, newNumber := ParseToken(cur[k]), ParseToken(row.token);
          if curNumber.Some? && newNumber.Some? && curNumber.value >= newNumber.value {
            assert next == cur;
            continue;
          }
        }
        assert next == cur[k := row.token];
        cur := cur[k := row.token];
      }
      assert rows[..|rows|] == rows;
    }

    /** The current token, "" for a domain that has none. */
    function Current(dom: DomainId): string
      reads this
    {
      if TokenKey(dom) in cur then cur[TokenKey(dom)] else ""
    }

    /** Reserves n consecutive numbers and makes the last one the domain's token. */
    method Next(dom: DomainId, n: nat, now: Millis, hex: string) returns (seqBase: int, token: string)
      modifies this
      ensures seqBase == BatchStart(Mark(old(cur), dom), now)
      ensures token == MintToken(BatchLast(seqBase, n), hex)
      ensures cur == old(cur)[TokenKey(dom) := token]
    {
      var prev := Mark(cur, dom);
      var start := Wrap64(prev + 1);
      if now > start {
        start := now;
      }
      var last := start;
      if n > 0 {
        last := Wrap64(Wrap64(start + n) - 1);
      }
      assert start == BatchStart(prev, now) && last == BatchLast(start, n);
      token := MintToken(last, hex);
      cur := cur[TokenKey(dom) := token];
      seqBase := start;
    }
  }
}
