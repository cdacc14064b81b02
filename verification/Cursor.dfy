/** Opaque page cursors: unpadded URL-safe base64 (section 5 of RFC 4648) of "<ts>:<id>". */
module Cursor {
  import opened Basics
  import opened Decimal

  /** A Go string: every character stands for one byte. */
  predicate IsBytes(s: string) {
    forall i :: 0 <= i < |s| ==> s[i] as int < 256
  }

  function Sextet(d: int): char
    requires 0 <= d < 64
  {
    if d < 26 then 'A' + d as char
    else if d < 52 then 'a' + (d - 26) as char
    else if d < 62 then '0' + (d - 52) as char
    else if d == 62 then '-' else '_'
  }

  function SextetValue(c: char): (d: Option<int>)
    ensures d.Some? ==> 0 <= d.value < 64 && Sextet(d.value) == c
  {
    if 'A' <= c <= 'Z' then Some(c as int - 'A' as int)
    else if 'a' <= c <= 'z' then Some(26 + c as int - 'a' as int)
    else if '0' <= c <= '9' then Some(52 + c as int - '0' as int)
    else if c == '-' then Some(62)
    else if c == '_' then Some(63)
    else None
  }

  /** The three characters of two bytes, and of the two bytes before a third one, b2. */
  function Head(b0: int, b1: int, b2: int): string
    requires 0 <= b0 < 256 && 0 <= b1 < 256 && 0 <= b2 < 256
  {
    [Sextet(b0 / 4), Sextet(b0 % 4 * 16 + b1 / 16), Sextet(b1 % 16 * 4 + b2 / 64)]
  }

  /** base64.RawURLEncoding.EncodeToString */
  function Encode(s: string): string
    requires IsBytes(s)
  {
    if s == "" then ""
    else if |s| == 1 then Head(s[0] as int, 0, 0)[..2]
    else if |s| == 2 then Head(s[0] as int, s[1] as int, 0)
    else Head(s[0] as int, s[1] as int, s[2] as int) + [Sextet(s[2] as int % 64)] + Encode(s[3..])
  }

  /** Line breaks are skipped by the decoder wherever they stand. */
  function StripBreaks(s: string): string {
    if s == "" then ""
    else (if s[0] == '\n' || s[0] == '\r' then "" else [s[0]]) + StripBreaks(s[1..])
  }

  function FirstByte(d0: Option<int>, d1: Option<int>): Option<int>
    requires d0.Some? ==> 0 <= d0.value < 64
    requires d1.Some? ==> 0 <= d1.value < 64
  {
    if d0.Some? && d1.Some? then Some(d0.value * 4 + d1.value / 16) else None
  }

  function SecondByte(d1: Option<int>, d2: Option<int>): Option<int>
    requires d1.Some? ==> 0 <= d1.value < 64
    requires d2.Some? ==> 0 <= d2.value < 64
  {
    if d1.Some? && d2.Some? then Some(d1.value % 16 * 16 + d2.value / 4) else None
  }

  function ThirdByte(d2: Option<int>, d3: Option<int>): Option<int>
    requires d2.Some? ==> 0 <= d2.value < 64
    requires d3.Some? ==> 0 <= d3.value < 64
  {
    if d2.Some? && d3.Some? then Some(d2.value % 4 * 64 + d3.value) else None
  }

  /** Groups of four characters; a last group of two or three gives one or two bytes. */
  function DecodeQuanta(s: string): Option<string> {
    if s == "" then Some("")
    else if |s| == 1 then None
    else
      var b0 := FirstByte(SextetValue(s[0]), SextetValue(s[1]));
      if b0.None? then None
      else if |s| == 2 then Some([b0.value as char])
      else
        var b1 := SecondByte(SextetValue(s[1]), SextetValue(s[2]));
        if b1.None? then None
        else if |s| == 3 then Some([b0.value as char, b1.value as char])
        else
          var b2 := ThirdByte(SextetValue(s[2]), SextetValue(s[3]));
          var rest := DecodeQuanta(s[4..]);
          if b2.None? || rest.None? then None
          else Some([b0.value as char, b1.value as char, b2.value as char] + rest.value)
  }

  /** base64.RawURLEncoding.DecodeString; the unused low bits of a last group are ignored. */
  function Decode(s: string): Option<string> {
    DecodeQuanta(StripBreaks(s))
  }

  /** The alphabet of section 5 of RFC 4648. */
  lemma SextetExact(d: int)
    requires 0 <= d < 64
    ensures d < 26 ==> Sextet(d) == "ABCDEFGHIJKLMNOPQRSTUVWXYZ"[d]
    ensures 26 <= d < 52 ==> Sextet(d) == "abcdefghijklmnopqrstuvwxyz"[d - 26]
    ensures 52 <= d < 62 ==> Sextet(d) == "0123456789"[d - 52]
    ensures d == 62 ==> Sextet(d) == '-'
    ensures d == 63 ==> Sextet(d) == '_'
  {
  }

  predicate InAlphabet(s: string) {
    forall i :: 0 <= i < |s| ==> SextetValue(s[i]).Some?
  }

  lemma GroupExact(s: string)
    requires |s| >= 4
    ensures DecodeQuanta(s).Some? <==>
              InAlphabet(s[..4]) && DecodeQuanta(s[4..]).Some?
    ensures DecodeQuanta(s).Some? ==> |DecodeQuanta(s).value| == 3 + |DecodeQuanta(s[4..]).value|
  {
    var t := s[..4];
    assert t[0] == s[0] && t[1] == s[1] && t[2] == s[2] && t[3] == s[3];
  }

  lemma LastGroupExact(s: string)
    requires 1 <= |s| < 4
    ensures DecodeQuanta(s).Some? <==> InAlphabet(s) && |s| != 1
    ensures DecodeQuanta(s).Some? ==> |DecodeQuanta(s).value| == |s| - 1
  {
  }

  /** Which texts decode: those of the alphabet without a lone last character; and to how many bytes. */
  lemma {:induction false} QuantaExact(s: string)
    ensures DecodeQuanta(s).Some? <==> InAlphabet(s) && |s| % 4 != 1
    ensures DecodeQuanta(s).Some? ==> |DecodeQuanta(s).value| == |s| * 3 / 4
    decreases |s|
  {
    if |s| >= 4 {
      GroupExact(s);
      QuantaExact(s[4..]);
      AlphabetSplits(s);
      OneGroupMore(|s[4..]|);
    } else if s != "" {
      LastGroupExact(s);
    }
  }

  lemma OneGroupMore(n: nat)
    ensures (n + 4) % 4 == n % 4 && (n + 4) * 3 / 4 == n * 3 / 4 + 3
  {
  }

  lemma AlphabetSplits(s: string)
    requires |s| >= 4
    ensures InAlphabet(s) <==> InAlphabet(s[..4]) && InAlphabet(s[4..])
  {
    if InAlphabet(s[..4]) && InAlphabet(s[4..]) {
      forall i | 0 <= i < |s| ensures SextetValue(s[i]).Some? {
        assert if i < 4 then s[..4][i] == s[i] else s[4..][i - 4] == s[i];
      }
    }
  }

  lemma {:induction false} StripConcat(a: string, b: string)
    ensures StripBreaks(a + b) == StripBreaks(a) + StripBreaks(b)
  {
    if a == "" {
      assert a + b == b;
    } else {
      StripConcat(a[1..], b);
      assert (a + b)[1..] == a[1..] + b && (a + b)[0] == a[0];
      var first := if a[0] == '\n' || a[0] == '\r' then "" else [a[0]];
      Regroup(first, StripBreaks(a[1..]), StripBreaks(b));
    }
  }

  lemma Regroup(x: string, y: string, z: string)
    ensures x + (y + z) == x + y + z
  {
  }

  lemma StripOne(c: char)
    ensures StripBreaks([c]) == if c == '\n' || c == '\r' then "" else [c]
  {
    assert [c][1..] == "";
  }

  /** Line breaks, and nothing else, are skipped wherever they stand. */
  lemma StripBreaksExact(a: string, c: char, b: string)
    ensures StripBreaks(a + [c] + b) == StripBreaks(a) + (if c == '\n' || c == '\r' then "" else [c]) + StripBreaks(b)
  {
    StripConcat(a + [c], b);
    StripConcat(a, [c]);
    StripOne(c);
  }

  lemma FormatIntIsBytes(n: int)
    ensures IsBytes(FormatInt(n))
  {
    FormatIntChars(n);
    forall i | 0 <= i < |FormatInt(n)| ensures FormatInt(n)[i] as int < 256 {
      assert FormatInt(n)[i] in FormatInt(n);
    }
  }

  function EncodeCursor(ts: int, id: string): string
    requires IsBytes(id)
  {
    FormatIntIsBytes(ts);
    Encode(FormatInt(ts) + ":" + id)
  }

  function DecodeCursor(s: string): Option<(int, string)> {
    match Decode(s)
    case None => None
    case Some(raw) =>
      match Cut(raw, ':')
      case None => None
      case Some(parts) =>
        if parts.1 == "" then None
        else match ParseInt(parts.0)
          case None => None
          case Some(ts) => Some((ts, parts.1))
  }

  lemma SextetRoundTrip(d: int)
    requires 0 <= d < 64
    ensures SextetValue(Sextet(d)) == Some(d)
    ensures Sextet(d) != '\n' && Sextet(d) != '\r'
  {
  }

  /** Cutting three bytes into four groups of six bits loses nothing. */
  lemma BitsRoundTrip(b0: int, b1: int, b2: int)
    requires 0 <= b0 < 256 && 0 <= b1 < 256 && 0 <= b2 < 256
    ensures b0 / 4 * 4 + (b0 % 4 * 16 + b1 / 16) / 16 == b0
    ensures (b0 % 4 * 16 + b1 / 16) % 16 * 16 + (b1 % 16 * 4 + b2 / 64) / 4 == b1
    ensures (b1 % 16 * 4 + b2 / 64) % 4 * 64 + b2 % 64 == b2
  {
  }

  lemma HeadRoundTrip(b0: int, b1: int, b2: int)
    requires 0 <= b0 < 256 && 0 <= b1 < 256 && 0 <= b2 < 256
    ensures var h := Head(b0, b1, b2);
            && FirstByte(SextetValue(h[0]), SextetValue(h[1])) == Some(b0)
            && SecondByte(SextetValue(h[1]), SextetValue(h[2])) == Some(b1)
            && ThirdByte(SextetValue(h[2]), SextetValue(Sextet(b2 % 64))) == Some(b2)
  {
    var d0, d1, d2, d3 := b0 / 4, b0 % 4 * 16 + b1 / 16, b1 % 16 * 4 + b2 / 64, b2 % 64;
    SextetRoundTrip(d0);
    SextetRoundTrip(d1);
    SextetRoundTrip(d2);
    SextetRoundTrip(d3);
    assert Head(b0, b1, b2) == [Sextet(d0), Sextet(d1), Sextet(d2)];
    BitsRoundTrip(b0, b1, b2);
  }

  lemma DecodeGroup(h: string, c: char, tail: string, b0: int, b1: int, b2: int, rest: string)
    requires |h| == 3
    requires FirstByte(SextetValue(h[0]), SextetValue(h[1])) == Some(b0) && 0 <= b0 < 256
    requires SecondByte(SextetValue(h[1]), SextetValue(h[2])) == Some(b1) && 0 <= b1 < 256
    requires ThirdByte(SextetValue(h[2]), SextetValue(c)) == Some(b2) && 0 <= b2 < 256
    requires DecodeQuanta(tail) == Some(rest)
    ensures DecodeQuanta(h[..2]) == Some([b0 as char])
    ensures DecodeQuanta(h) == Some([b0 as char, b1 as char])
    ensures DecodeQuanta(h + [c] + tail) == Some([b0 as char, b1 as char, b2 as char] + rest)
  {
    var text := h + [c] + tail;
    assert text[4..] == tail;
    assert text[0] == h[0] && text[1] == h[1] && text[2] == h[2] && text[3] == c;
  }

  lemma GroupRoundTrip(b0: int, b1: int, b2: int, tail: string, rest: string)
    requires 0 <= b0 < 256 && 0 <= b1 < 256 && 0 <= b2 < 256
    requires DecodeQuanta(tail) == Some(rest)
    ensures DecodeQuanta(Head(b0, b1, b2)[..2]) == Some([b0 as char])
    ensures DecodeQuanta(Head(b0, b1, b2)) == Some([b0 as char, b1 as char])
    ensures DecodeQuanta(Head(b0, b1, b2) + [Sextet(b2 % 64)] + tail)
         == Some([b0 as char, b1 as char, b2 as char] + rest)
  {
    HeadRoundTrip(b0, b1, b2);
    DecodeGroup(Head(b0, b1, b2), Sextet(b2 % 64), tail, b0, b1, b2, rest);
  }

  lemma OneByteRoundTrip(s: string)
    requires IsBytes(s) && |s| == 1
    ensures DecodeQuanta(Encode(s)) == Some(s)
  {
    var b0, zero := s[0] as int, |s| - 1;
    GroupRoundTrip(b0, zero, zero, s[1..], s[1..]);
    assert Encode(s) == Head(b0, zero, zero)[..2];
    assert s == [b0 as char];
  }

  lemma TwoByteRoundTrip(s: string)
    requires IsBytes(s) && |s| == 2
    ensures DecodeQuanta(Encode(s)) == Some(s)
  {
    var b0, b1, zero := s[0] as int, s[1] as int, |s| - 2;
    GroupRoundTrip(b0, b1, zero, s[2..], s[2..]);
    assert Encode(s) == Head(b0, b1, zero);
    assert s == [b0 as char, b1 as char];
  }

  lemma LongRoundTrip(s: string, tail: string, text: string)
    requires IsBytes(s) && |s| >= 3
    requires DecodeQuanta(tail) == Some(s[3..])
    requires text == Head(s[0] as int, s[1] as int, s[2] as int) + [Sextet(s[2] as int % 64)] + tail
    ensures DecodeQuanta(text) == Some(s)
  {
    GroupRoundTrip(s[0] as int, s[1] as int, s[2] as int, tail, s[3..]);
    assert s == [s[0], s[1], s[2]] + s[3..];
  }

  lemma {:induction false} QuantaRoundTrip(s: string)
    requires IsBytes(s)
    ensures DecodeQuanta(Encode(s)) == Some(s)
  {
    if s == "" {
    } else if |s| == 1 {
      OneByteRoundTrip(s);
    } else if |s| == 2 {
      TwoByteRoundTrip(s);
    } else {
      QuantaRoundTrip(s[3..]);
      LongRoundTrip(s, Encode(s[3..]), Encode(s));
    }
  }

  lemma HeadHasNoBreaks(b0: int, b1: int, b2: int)
    requires 0 <= b0 < 256 && 0 <= b1 < 256 && 0 <= b2 < 256
    ensures '\n' !in Head(b0, b1, b2) && '\r' !in Head(b0, b1, b2)
  {
    SextetRoundTrip(b0 / 4);
    SextetRoundTrip(b0 % 4 * 16 + b1 / 16);
    SextetRoundTrip(b1 % 16 * 4 + b2 / 64);
  }

  lemma {:induction false} EncodedHasNoBreaks(s: string)
    requires IsBytes(s)
    ensures '\n' !in Encode(s) && '\r' !in Encode(s)
  {
    if s != "" {
      var b0, b1, b2 := s[0] as int, if |s| > 1 then s[1] as int else 0, if |s| > 2 then s[2] as int else 0;
      HeadHasNoBreaks(b0, b1, b2);
      if |s| >= 3 {
        SextetRoundTrip(b2 % 64);
        EncodedHasNoBreaks(s[3..]);
        assert Encode(s) == Head(b0, b1, b2) + [Sextet(b2 % 64)] + Encode(s[3..]);
      }
    }
  }

  lemma {:induction false} NothingToStrip(s: string)
    requires '\n' !in s && '\r' !in s
    ensures StripBreaks(s) == s
  {
    if s != "" {
      NothingToStrip(s[1..]);
    }
  }

  /** Decoding undoes encoding on all byte strings. */
  lemma DecodeEncode(s: string)
    requires IsBytes(s)
    ensures Decode(Encode(s)) == Some(s)
  {
    QuantaRoundTrip(s);
    EncodedHasNoBreaks(s);
    NothingToStrip(Encode(s));
  }

  /** Every cursor that is handed out decodes to what it was made from, colons in the id included. */
  lemma CursorRoundTrip(ts: int, id: string)
    requires IsInt64(ts) && id != "" && IsBytes(id)
    ensures DecodeCursor(EncodeCursor(ts, id)) == Some((ts, id))
  {
    FormatIntIsBytes(ts);
    FormatIntChars(ts);
    var raw := FormatInt(ts) + ":" + id;
    DecodeEncode(raw);
    CutAtFirst(FormatInt(ts), ':', id);
    FormatParseRoundTrip(ts);
  }

  /** A cursor that decodes carries a 64-bit time and a non-empty id: nothing else gets through. */
  lemma DecodedCursorIsWellFormed(s: string)
    requires DecodeCursor(s).Some?
    ensures IsInt64(DecodeCursor(s).value.0) && DecodeCursor(s).value.1 != ""
    ensures exists before :: Decode(s) == Some(before + ":" + DecodeCursor(s).value.1)
                             && ParseInt(before) == Some(DecodeCursor(s).value.0)
  {
    CutIsExact(Decode(s).value, ':');
    var before := Cut(Decode(s).value, ':').value.0;
    assert Decode(s) == Some(before + ":" + DecodeCursor(s).value.1);
  }
}
