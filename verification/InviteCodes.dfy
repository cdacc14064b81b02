/** The invite-code setting: free text in, a comma-separated list without repetitions out. */
module InviteCodes {
  import opened Basics

  predicate IsSeparator(c: char) {
    c == ',' || c == '\n' || c == '\r' || c == '\t' || c == ' '
  }

  predicate IsCode(s: string) {
    s != "" && forall i :: 0 <= i < |s| ==> !IsSeparator(s[i])
  }

  /** strings.FieldsFunc: open is the run that is being read. */
  function FieldsFrom(s: string, open: string): seq<string>
    decreases |s|
  {
    if s == "" then (if open == "" then [] else [open])
    else if IsSeparator(s[0]) then (if open == "" then [] else [open]) + FieldsFrom(s[1..], "")
    else FieldsFrom(s[1..], open + [s[0]])
  }

  function Fields(s: string): seq<string> {
    FieldsFrom(s, "")
  }

  /** s[i..j] is a run: no separator inside, and none can be added on either side. */
  ghost predicate IsRun(s: string, i: nat, j: nat) {
    && i < j <= |s|
    && (forall k :: i <= k < j ==> !IsSeparator(s[k]))
    && (i == 0 || IsSeparator(s[i - 1]))
    && (j == |s| || IsSeparator(s[j]))
  }

  function Unique(codes: seq<string>): seq<string> {
    if codes == [] then []
    else
      var init, last := Unique(codes[..|codes| - 1]), codes[|codes| - 1];
      if last in init then init else init + [last]
  }

  /** strings.Join(codes, ",") */
  function Join(codes: seq<string>): string {
    if codes == [] then ""
    else if |codes| == 1 then codes[0]
    else codes[0] + "," + Join(codes[1..])
  }

  /** strings.Split(s, ","): open is the piece that is being read. */
  function SplitFrom(s: string, open: string): seq<string>
    decreases |s|
  {
    if s == "" then [open]
    else if s[0] == ',' then [open] + SplitFrom(s[1..], "")
    else SplitFrom(s[1..], open + [s[0]])
  }

  /** csvToList: the empty text is the empty list. */
  function CsvToList(csv: string): seq<string> {
    if csv == "" then [] else SplitFrom(csv, "")
  }

  method ParseInviteCodes(raw: string) returns (csv: string)
    ensures csv == Join(Unique(Fields(raw)))
  {
    var seen: set<string> := {};
    var out: seq<string> := [];
    var tokens := Fields(raw);
    for i := 0 to |tokens|
      invariant out == Unique(tokens[..i])
      invariant forall t :: t in seen <==> t in out
    {
      assert tokens[..i + 1][..i] == tokens[..i];
      if tokens[i] !in seen {
        seen := seen + {tokens[i]};
        out := out + [tokens[i]];
      }
    }
    assert tokens[..|tokens|] == tokens;
    csv := Join(out);
  }

  // ----- the fields of a text are its runs -----

  lemma {:induction false} ReadingRun(code: string, rest: string, open: string)
    requires forall i :: 0 <= i < |code| ==> !IsSeparator(code[i])
    ensures FieldsFrom(code + rest, open) == FieldsFrom(rest, open + code)
    decreases |code|
  {
    if code == "" {
      assert code + rest == rest && open + code == open;
    } else {
      assert (code + rest)[1..] == code[1..] + rest;
      assert open + [code[0]] + code[1..] == open + code;
      ReadingRun(code[1..], rest, open + [code[0]]);
    }
  }

  /** The bounds are all the runs of s from i on, left to right, and the fields are their texts. */
  ghost predicate RunsFrom(s: string, i: nat, bounds: seq<(nat, nat)>, fields: seq<string>) {
    && |bounds| == |fields|
    && (forall n :: 0 <= n < |bounds| ==> IsField(s, i, bounds[n], fields[n]))
    && Apart(bounds)
    && AllRuns(s, i, bounds)
  }

  ghost predicate IsField(s: string, i: nat, bound: (nat, nat), field: string) {
    i <= bound.0 && IsRun(s, bound.0, bound.1) && field == s[bound.0..bound.1]
  }

  ghost predicate Apart(bounds: seq<(nat, nat)>) {
    forall n, m :: 0 <= n < m < |bounds| ==> bounds[n].1 < bounds[m].0
  }

  ghost predicate AllRuns(s: string, i: nat, bounds: seq<(nat, nat)>) {
    forall a: nat, b: nat :: i <= a && IsRun(s, a, b) ==> (a, b) in bounds
  }

  /** Nothing begins at a separator. */
  lemma SkipSeparator(s: string, i: nat, bounds: seq<(nat, nat)>, fields: seq<string>)
    requires i < |s| && IsSeparator(s[i]) && RunsFrom(s, i + 1, bounds, fields)
    ensures RunsFrom(s, i, bounds, fields)
  {
    forall n | 0 <= n < |bounds| ensures IsField(s, i, bounds[n], fields[n]) {
      assert IsField(s, i + 1, bounds[n], fields[n]);
    }
    forall a: nat, b: nat | i <= a && IsRun(s, a, b) ensures (a, b) in bounds {
      assert a != i;
    }
  }

  /** A run in front of the runs after it: the texts and the order. */
  lemma AddRunField(s: string, i: nat, j: nat, bounds: seq<(nat, nat)>, fields: seq<string>, n: nat)
    requires IsRun(s, i, j) && RunsFrom(s, j, bounds, fields) && n <= |bounds|
    ensures var all, texts := [(i, j)] + bounds, [s[i..j]] + fields;
            IsField(s, i, all[n], texts[n]) && (n > 0 ==> j < all[n].0)
  {
    if n > 0 {
      var bound := bounds[n - 1];
      assert IsField(s, j, bound, fields[n - 1]);
      NextRun(s, i, j, bound.0, bound.1);
    }
  }

  /** No run is left out. */
  lemma AddRunAll(s: string, i: nat, j: nat, bounds: seq<(nat, nat)>)
    requires IsRun(s, i, j) && AllRuns(s, j, bounds)
    ensures AllRuns(s, i, [(i, j)] + bounds)
  {
    var all := [(i, j)] + bounds;
    forall a: nat, b: nat | i <= a && IsRun(s, a, b) ensures (a, b) in all {
      NextRun(s, i, j, a, b);
      if (a, b) == (i, j) {
        assert (a, b) == all[0];
      } else {
        assert (a, b) in bounds;
      }
    }
  }

  lemma AddRun(s: string, i: nat, j: nat, bounds: seq<(nat, nat)>, fields: seq<string>)
    requires IsRun(s, i, j) && RunsFrom(s, j, bounds, fields)
    ensures RunsFrom(s, i, [(i, j)] + bounds, [s[i..j]] + fields)
  {
    var all, texts := [(i, j)] + bounds, [s[i..j]] + fields;
    forall n | 0 <= n < |all| ensures IsField(s, i, all[n], texts[n]) && (n > 0 ==> j < all[n].0) {
      AddRunField(s, i, j, bounds, fields, n);
    }
    AddRunAll(s, i, j, bounds);
    assert Apart(all) by {
      forall n, m | 0 <= n < m < |all| ensures all[n].1 < all[m].0 {
        if n > 0 {
          assert bounds[n - 1].1 < bounds[m - 1].0;
        }
      }
    }
  }

  lemma FieldsAtSeparator(s: string, i: nat)
    requires i < |s| && IsSeparator(s[i])
    ensures FieldsFrom(s[i..], "") == FieldsFrom(s[i + 1..], "")
  {
    assert s[i..][1..] == s[i + 1..];
  }

  lemma FieldsAtRun(s: string, i: nat, j: nat)
    requires IsRun(s, i, j)
    ensures FieldsFrom(s[i..], "") == [s[i..j]] + FieldsFrom(s[j..], "")
  {
    var code, rest := s[i..j], s[j..];
    ReadingRun(code, rest, "");
    assert s[i..] == code + rest && "" + code == code;
    ReadingStops(rest, code);
  }

  lemma ReadingStops(rest: string, open: string)
    requires open != "" && (rest == "" || IsSeparator(rest[0]))
    ensures FieldsFrom(rest, open) == [open] + FieldsFrom(rest, "")
  {
  }

  /** Reading from the beginning of a run or from a place without one. */
  lemma {:induction false} FieldsFromRuns(s: string, i: nat) returns (bounds: seq<(nat, nat)>)
    requires i <= |s| && (i == 0 || i == |s| || IsSeparator(s[i - 1]) || IsSeparator(s[i]))
    ensures RunsFrom(s, i, bounds, FieldsFrom(s[i..], ""))
    decreases |s| - i
  {
    if i == |s| {
      bounds := [];
    } else if IsSeparator(s[i]) {
      bounds := FieldsFromRuns(s, i + 1);
      FieldsAtSeparator(s, i);
      SkipSeparator(s, i, bounds, FieldsFrom(s[i + 1..], ""));
    } else {
      var j := RunEnd(s, i);
      var rest := FieldsFromRuns(s, j);
      FieldsAtRun(s, i, j);
      AddRun(s, i, j, rest, FieldsFrom(s[j..], ""));
      bounds := [(i, j)] + rest;
    }
  }

  /** A run that does not begin before another one is that one, or begins after it. */
  lemma NextRun(s: string, i: nat, j: nat, a: nat, b: nat)
    requires IsRun(s, i, j) && IsRun(s, a, b) && i <= a
    ensures (a, b) == (i, j) || j < a
  {
  }

  lemma RunEnd(s: string, i: nat) returns (j: nat)
    requires i < |s| && !IsSeparator(s[i])
    ensures i < j <= |s| && (forall k :: i <= k < j ==> !IsSeparator(s[k])) && (j == |s| || IsSeparator(s[j]))
  {
    j := i + 1;
    while j < |s| && !IsSeparator(s[j])
      invariant i < j <= |s| && forall k :: i <= k < j ==> !IsSeparator(s[k])
    {
      j := j + 1;
    }
  }

  /** The fields of a text are its runs, all of them, from left to right. */
  lemma FieldsAreRuns(s: string) returns (bounds: seq<(nat, nat)>)
    ensures |bounds| == |Fields(s)|
    ensures forall n :: 0 <= n < |bounds| ==>
              IsRun(s, bounds[n].0, bounds[n].1) && Fields(s)[n] == s[bounds[n].0..bounds[n].1]
    ensures forall n, m :: 0 <= n < m < |bounds| ==> bounds[n].1 < bounds[m].0
    ensures forall a: nat, b: nat :: IsRun(s, a, b) ==> (a, b) in bounds
  {
    assert s[0..] == s;
    bounds := FieldsFromRuns(s, 0);
    assert forall n :: 0 <= n < |bounds| ==> IsField(s, 0, bounds[n], Fields(s)[n]);
  }

  lemma FieldsAreCodes(s: string)
    ensures AllCodes(Fields(s))
  {
    var bounds := FieldsAreRuns(s);
    forall n | 0 <= n < |Fields(s)| ensures IsCode(Fields(s)[n]) {
      assert IsRun(s, bounds[n].0, bounds[n].1);
    }
  }

  // ----- repetitions -----

  lemma {:induction false} UniqueHasSameCodes(codes: seq<string>)
    ensures Distinct(Unique(codes))
    ensures forall c :: c in codes <==> c in Unique(codes)
  {
    if codes != [] {
      var init, last := codes[..|codes| - 1], codes[|codes| - 1];
      UniqueHasSameCodes(init);
      assert codes == init + [last];
    }
  }

  /** at[n] is the place of the first occurrence of kept[n]; these places increase. */
  ghost predicate FirstOccurrences(codes: seq<string>, kept: seq<string>, at: seq<nat>) {
    && |at| == |kept|
    && (forall n :: 0 <= n < |at| ==> at[n] < |codes| && codes[at[n]] == kept[n])
    && (forall n, m :: 0 <= n < |at| && 0 <= m < at[n] ==> codes[m] != kept[n])
    && (forall n, m :: 0 <= n < m < |at| ==> at[n] < at[m])
  }

  lemma AddOccurrence(codes: seq<string>, kept: seq<string>, at: seq<nat>)
    requires codes != [] && FirstOccurrences(codes[..|codes| - 1], kept, at)
    requires forall c :: c in codes[..|codes| - 1] <==> c in kept
    ensures FirstOccurrences(codes, kept, at)
    ensures var last := codes[|codes| - 1];
            last !in kept ==> FirstOccurrences(codes, kept + [last], at + [|codes| - 1])
  {
    var init, last, m := codes[..|codes| - 1], codes[|codes| - 1], |codes| - 1;
    assert forall k :: 0 <= k < m ==> codes[k] == init[k] && codes[k] in init;
    var longer, ends := kept + [last], at + [m];
    assert forall n :: 0 <= n < |at| ==> ends[n] == at[n] && longer[n] == kept[n];
  }

  lemma {:induction false} UniqueOccurrences(codes: seq<string>) returns (at: seq<nat>)
    ensures FirstOccurrences(codes, Unique(codes), at)
  {
    if codes == [] {
      at := [];
    } else {
      var init, last := codes[..|codes| - 1], codes[|codes| - 1];
      UniqueHasSameCodes(init);
      at := UniqueOccurrences(init);
      AddOccurrence(codes, Unique(init), at);
      if last !in Unique(init) {
        at := at + [|codes| - 1];
      }
    }
  }

  /** Unique keeps the first occurrence of every code, in the order of these occurrences. */
  lemma UniqueKeepsFirstOccurrences(codes: seq<string>)
    ensures Distinct(Unique(codes)) && forall c :: c in codes <==> c in Unique(codes)
    ensures exists at :: FirstOccurrences(codes, Unique(codes), at)
  {
    UniqueHasSameCodes(codes);
    var at := UniqueOccurrences(codes);
  }

  lemma {:induction false} UniqueOfDistinct(codes: seq<string>)
    requires Distinct(codes)
    ensures Unique(codes) == codes
  {
    if codes != [] {
      UniqueOfDistinct(codes[..|codes| - 1]);
      assert codes == codes[..|codes| - 1] + [codes[|codes| - 1]];
    }
  }

  // ----- reading back what was written -----

  ghost predicate AllCodes(codes: seq<string>) {
    forall i :: 0 <= i < |codes| ==> IsCode(codes[i])
  }

  lemma {:induction false} FieldsOfJoin(codes: seq<string>)
    requires AllCodes(codes)
    ensures Fields(Join(codes)) == codes
  {
    if codes != [] {
      var code := codes[0];
      if |codes| == 1 {
        ReadingRun(code, "", "");
        assert code + "" == code && "" + code == code;
      } else {
        FieldsOfJoin(codes[1..]);
        var rest := Join(codes[1..]);
        ReadingRun(code, "," + rest, "");
        assert code + ("," + rest) == Join(codes) && "" + code == code;
        assert ("," + rest)[1..] == rest;
      }
    }
  }

  lemma {:induction false} ReadingPiece(code: string, rest: string, open: string)
    requires forall i :: 0 <= i < |code| ==> code[i] != ','
    ensures SplitFrom(code + rest, open) == SplitFrom(rest, open + code)
    decreases |code|
  {
    if code == "" {
      assert code + rest == rest && open + code == open;
    } else {
      assert (code + rest)[1..] == code[1..] + rest;
      assert open + [code[0]] + code[1..] == open + code;
      ReadingPiece(code[1..], rest, open + [code[0]]);
    }
  }

  lemma {:induction false} SplitOfJoin(codes: seq<string>)
    requires AllCodes(codes) && codes != []
    ensures Join(codes) != "" && SplitFrom(Join(codes), "") == codes
  {
    var code := codes[0];
    assert IsCode(code);
    if |codes| == 1 {
      ReadingPiece(code, "", "");
      assert code + "" == code && "" + code == code;
    } else {
      SplitOfJoin(codes[1..]);
      var rest := Join(codes[1..]);
      ReadingPiece(code, "," + rest, "");
      assert code + ("," + rest) == Join(codes) && "" + code == code;
      assert ("," + rest)[1..] == rest;
    }
  }

  /** The list in use is exactly the duplicate-free list of the runs of the text that was entered. */
  lemma SettingRoundTrip(raw: string)
    ensures CsvToList(Join(Unique(Fields(raw)))) == Unique(Fields(raw))
    ensures CsvToList(Join(Unique(Fields(raw)))) == [] <==>
              forall i :: 0 <= i < |raw| ==>
                raw[i] == ',' || raw[i] == ' ' || raw[i] == '\n' || raw[i] == '\r' || raw[i] == '\t'
  {
    var codes := Unique(Fields(raw));
    UniqueCodes(raw);
    if codes != [] {
      SplitOfJoin(codes);
    }
    NoCodesIff(raw);
  }

  lemma UniqueCodes(raw: string)
    ensures AllCodes(Unique(Fields(raw))) && Distinct(Unique(Fields(raw)))
    ensures Unique(Fields(raw)) == [] <==> Fields(raw) == []
  {
    FieldsAreCodes(raw);
    UniqueHasSameCodes(Fields(raw));
    forall i | 0 <= i < |Unique(Fields(raw))| ensures IsCode(Unique(Fields(raw))[i]) {
      assert Unique(Fields(raw))[i] in Fields(raw);
    }
    if Fields(raw) != [] {
      assert Fields(raw)[0] in Unique(Fields(raw));
    }
  }

  lemma NoCodesIff(raw: string)
    ensures Fields(raw) == [] <==> forall i :: 0 <= i < |raw| ==> IsSeparator(raw[i])
  {
    NoFieldsIff(raw, "");
  }

  lemma {:induction false} NoFieldsIff(s: string, open: string)
    ensures FieldsFrom(s, open) == [] <==> open == "" && forall i :: 0 <= i < |s| ==> IsSeparator(s[i])
    decreases |s|
  {
    if s != "" {
      NoFieldsIff(s[1..], if IsSeparator(s[0]) then "" else open + [s[0]]);
      assert s == [s[0]] + s[1..];
    }
  }

  /** Entering a stored setting again stores the same text. */
  lemma ParsingIsIdempotent(raw: string)
    ensures var csv := Join(Unique(Fields(raw)));
            Join(Unique(Fields(csv))) == csv
  {
    UniqueCodes(raw);
    FieldsOfJoin(Unique(Fields(raw)));
    UniqueOfDistinct(Unique(Fields(raw)));
  }
}
