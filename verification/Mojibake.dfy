/** `maybeRepairMojibake` (songs-import.ts): undoing a UTF-8 text that was read as a one-byte encoding.

    Texts are sequences of Unicode scalar values; UTF-8 is section 3 of RFC 3629. */
module Mojibake {
  import opened Seqs
  import opened Options

  type Scalar = n: int | 0 <= n < 0xD800 || 0xE000 <= n < 0x110000 witness 0
  type Byte = n: int | 0 <= n < 256 witness 0
  type Text = seq<Scalar>

  const BOM: Scalar := 0xFEFF
  const REPLACEMENT: Scalar := 0xFFFD

  // ---------------------------------------------------------------- UTF-8

  function Encode(c: Scalar): seq<Byte> {
    if c < 0x80 then [c]
    else if c < 0x800 then [0xC0 + c / 64, 0x80 + c % 64]
    else if c < 0x1_0000 then [0xE0 + c / 4096, 0x80 + c / 64 % 64, 0x80 + c % 64]
    else [0xF0 + c / 262144, 0x80 + c / 4096 % 64, 0x80 + c / 64 % 64, 0x80 + c % 64]
  }

  function EncodeAll(t: Text): seq<Byte> {
    if t == [] then [] else Encode(t[0]) + EncodeAll(t[1..])
  }

  /** How many continuation bytes the lead byte asks for; `None` when it is no lead byte. */
  function Need(lead: Byte): Option<nat> {
    if lead < 0x80 then Some(0)
    else if 0xC2 <= lead <= 0xDF then Some(1)
    else if 0xE0 <= lead <= 0xEF then Some(2)
    else if 0xF0 <= lead <= 0xF4 then Some(3)
    else None
  }

  predicate Follows(lead: Byte, second: Byte) {
    (if lead == 0xE0 then 0xA0 else if lead == 0xF0 then 0x90 else 0x80) <= second
    <= (if lead == 0xED then 0x9F else if lead == 0xF4 then 0x8F else 0xBF)
  }

  predicate IsContinuation(b: Byte) {
    0x80 <= b <= 0xBF
  }

  /** The length of the longest prefix that could begin one encoded scalar (at least 1). */
  function Prefix(bs: seq<Byte>): (n: nat)
    requires bs != []
    ensures 1 <= n <= |bs|
  {
    var need := match Need(bs[0]) case None => 0 case Some(k) => k;
    if need < 1 || |bs| < 2 || !Follows(bs[0], bs[1]) then 1
    else if need < 2 || |bs| < 3 || !IsContinuation(bs[2]) then 2
    else if need < 3 || |bs| < 4 || !IsContinuation(bs[3]) then 3
    else 4
  }

  function Assemble(bs: seq<Byte>): int {
    if |bs| == 1 then bs[0] as int
    else if |bs| == 2 then (bs[0] as int - 0xC0) * 64 + (bs[1] as int - 0x80)
    else if |bs| == 3 then (bs[0] as int - 0xE0) * 4096 + (bs[1] as int - 0x80) * 64 + (bs[2] as int - 0x80)
    else if |bs| == 4 then
      (bs[0] as int - 0xF0) * 262144 + (bs[1] as int - 0x80) * 4096 + (bs[2] as int - 0x80) * 64 + (bs[3] as int - 0x80)
    else 0
  }

  lemma AssembledIsScalar(bs: seq<Byte>)
    requires bs != [] && Need(bs[0]) == Some(|bs| - 1) && Prefix(bs) == |bs|
    ensures 0 <= Assemble(bs) < 0xD800 || 0xE000 <= Assemble(bs) < 0x110000
  {
  }

  lemma PrefixOfPrefix(bs: seq<Byte>)
    requires bs != []
    ensures Prefix(bs[..Prefix(bs)]) == Prefix(bs)
  {
  }

  /** `Buffer.from(bytes).toString("utf8")`: ill-formed parts become one U+FFFD per maximal subpart. */
  function Decode(bs: seq<Byte>): Text
    decreases |bs|
  {
    if bs == [] then []
    else
      var n := Prefix(bs);
      var c: Scalar :=
        if Need(bs[0]) == Some(n - 1) then
          PrefixOfPrefix(bs);
          AssembledIsScalar(bs[..n]);
          Assemble(bs[..n])
        else REPLACEMENT;
      [c] + Decode(bs[n..])
  }

  /** The base-64 digits of a number. */
  lemma Base64Digits(c: nat)
    ensures c == 64 * (c / 64) + c % 64
    ensures c / 64 == 64 * (c / 4096) + c / 64 % 64
    ensures c / 4096 == 64 * (c / 262144) + c / 4096 % 64
  {
    assert c / 64 / 64 == c / 4096;
    assert c / 4096 / 64 == c / 262144;
  }

  lemma EncodeAssembles(c: Scalar)
    ensures Assemble(Encode(c)) == c && Need(Encode(c)[0]) == Some(|Encode(c)| - 1)
  {
    Base64Digits(c);
  }

  lemma EncodeFits(c: Scalar)
    ensures var e := Encode(c);
            && 1 <= |e| <= 4
            && (|e| > 1 ==> Follows(e[0], e[1]))
            && (|e| > 2 ==> IsContinuation(e[2])) && (|e| > 3 ==> IsContinuation(e[3]))
  {
    Base64Digits(c);
  }

  lemma EncodeIsWellFormed(c: Scalar, rest: seq<Byte>)
    ensures var e := Encode(c); var bs := e + rest;
            Need(e[0]) == Some(|e| - 1) && Prefix(bs) == |e| && Assemble(e) == c
  {
    EncodeAssembles(c);
    EncodeFits(c);
    hide Encode, Need, Follows, IsContinuation, Assemble;
    var e := Encode(c);
    var bs := e + rest;
    assert forall i | 0 <= i < |e| :: bs[i] == e[i];
  }

  /** Decoding undoes encoding. */
  lemma {:induction false} DecodeEncode(t: Text)
    ensures Decode(EncodeAll(t)) == t
  {
    if t != [] {
      hide Encode, Prefix, Need, Assemble;
      var e, rest := Encode(t[0]), EncodeAll(t[1..]);
      EncodeIsWellFormed(t[0], rest);
      DecodeEncode(t[1..]);
      assert (e + rest)[..|e|] == e && (e + rest)[|e|..] == rest;
      HeadTail(t);
    }
  }

  // ---------------------------------------------------------------- one-byte readings

  /** `CP1252_UNICODE_TO_BYTE` */
  function Cp1252Byte(c: Scalar): Option<Byte> {
    if c == 0x20AC then Some(0x80) else if c == 0x201A then Some(0x82) else if c == 0x0192 then Some(0x83)
    else if c == 0x201E then Some(0x84) else if c == 0x2026 then Some(0x85) else if c == 0x2020 then Some(0x86)
    else if c == 0x2021 then Some(0x87) else if c == 0x02C6 then Some(0x88) else if c == 0x2030 then Some(0x89)
    else if c == 0x0160 then Some(0x8A) else if c == 0x2039 then Some(0x8B) else if c == 0x0152 then Some(0x8C)
    else if c == 0x017D then Some(0x8E) else if c == 0x2018 then Some(0x91) else if c == 0x2019 then Some(0x92)
    else if c == 0x201C then Some(0x93) else if c == 0x201D then Some(0x94) else if c == 0x2022 then Some(0x95)
    else if c == 0x2013 then Some(0x96) else if c == 0x2014 then Some(0x97) else if c == 0x02DC then Some(0x98)
    else if c == 0x2122 then Some(0x99) else if c == 0x0161 then Some(0x9A) else if c == 0x203A then Some(0x9B)
    else if c == 0x0153 then Some(0x9C) else if c == 0x017E then Some(0x9E) else if c == 0x0178 then Some(0x9F)
    else None
  }

  /** The byte a character most likely came from. */
  function LikelyByte(c: Scalar): Option<Byte> {
    if c <= 0xFF then Some(c) else Cp1252Byte(c)
  }

  function LikelyBytes(t: Text): Option<seq<Byte>> {
    if t == [] then Some([])
    else match (LikelyByte(t[0]), LikelyBytes(t[1..]))
         case (Some(b), rest) => After([b], rest)
         case _ => None
  }

  /** `toLikelyLatin1Bytes` */
  method ToLikelyLatin1Bytes(value: Text) returns (result: Option<seq<Byte>>)
    ensures result == LikelyBytes(value)
  {
    var bytes: seq<Byte> := [];
    AtStart(value);
    for i := 0 to |value|
      invariant LikelyBytes(value) == After(bytes, LikelyBytes(value[i..]))
    {
      hide Cp1252Byte;
      assert value[i..][1..] == value[i + 1..] && value[i..][0] == value[i];
      if value[i] <= 0xFF {
        SnocCons(bytes, value[i], LikelyBytes(value[i + 1..]));
        bytes := bytes + [value[i]];
        continue;
      }
      var byte := Cp1252Byte(value[i]);
      if byte.None? { return None; }
      SnocCons(bytes, byte.value, LikelyBytes(value[i + 1..]));
      bytes := bytes + [byte.value];
    }
    assert value[|value|..] == [] && bytes + [] == bytes;
    return Some(bytes);
  }

  function After(bytes: seq<Byte>, rest: Option<seq<Byte>>): Option<seq<Byte>> {
    match rest case None => None case Some(bs) => Some(bytes + bs)
  }

  lemma AtStart(value: Text)
    ensures LikelyBytes(value[0..]) == LikelyBytes(value) && After([], LikelyBytes(value)) == LikelyBytes(value)
  {
    assert value[0..] == value;
    if LikelyBytes(value).Some? { assert [] + LikelyBytes(value).value == LikelyBytes(value).value; }
  }

  lemma SnocCons(bytes: seq<Byte>, b: Byte, rest: Option<seq<Byte>>)
    ensures After(bytes, After([b], rest)) == After(bytes + [b], rest)
  {
    if rest.Some? { Assoc(bytes, [b], rest.value); }
  }

  /** The Windows-1252 reading of a byte; the five unassigned bytes read as C1 controls. */
  function Cp1252Char(b: Byte): Scalar {
    if b < 0x80 || b >= 0xA0 then b
    else [0x20AC, 0x81, 0x201A, 0x0192, 0x201E, 0x2026, 0x2020, 0x2021, 0x02C6, 0x2030, 0x0160, 0x2039, 0x0152, 0x8D,
          0x017D, 0x8F, 0x90, 0x2018, 0x2019, 0x201C, 0x201D, 0x2022, 0x2013, 0x2014, 0x02DC, 0x2122, 0x0161, 0x203A,
          0x0153, 0x9D, 0x017E, 0x0178][b - 0x80]
  }

  /** The Windows-1252 reading of a byte string. */
  function ReadCp1252(bs: seq<Byte>): Text {
    if bs == [] then [] else [Cp1252Char(bs[0])] + ReadCp1252(bs[1..])
  }

  /** The Latin-1 reading of a byte string. */
  function ReadLatin1(bs: seq<Byte>): Text {
    if bs == [] then [] else [bs[0]] + ReadLatin1(bs[1..])
  }

  /** The likely bytes of either reading are the bytes that were read. */
  lemma {:induction false} ReadingsAreLikely(bs: seq<Byte>)
    ensures LikelyBytes(ReadCp1252(bs)) == Some(bs) && LikelyBytes(ReadLatin1(bs)) == Some(bs)
  {
    if bs != [] {
      ReadingsAreLikely(bs[1..]);
      CharIsLikely(bs[0]);
      HeadTail(bs);
      hide LikelyByte, Cp1252Char;
      Cons(Cp1252Char(bs[0]), ReadCp1252(bs[1..]));
      Cons(bs[0] as Scalar, ReadLatin1(bs[1..]));
    }
  }

  lemma CharIsLikely(b: Byte)
    ensures LikelyByte(Cp1252Char(b)) == Some(b) && LikelyByte(b) == Some(b)
  {
  }

  // ---------------------------------------------------------------- the marker score

  /** `value.indexOf(token, from)`, with `None` for -1. */
  function IndexOf(value: Text, token: Text, from: nat): (r: Option<nat>)
    requires from <= |value| && token != []
    ensures r.Some? ==> from <= r.value && r.value + |token| <= |value|
    decreases |value| - from
  {
    if |value| - from < |token| then None
    else if token <= value[from..] then Some(from)
    else IndexOf(value, token, from + 1)
  }

  /** The number of occurrences of `token`, counted from the left without overlap. */
  function Count(value: Text, token: Text): nat
    requires token != []
    decreases |value|
  {
    if |value| < |token| then 0
    else if token <= value then 1 + Count(value[|token|..], token)
    else Count(value[1..], token)
  }

  lemma {:induction false} CountFrom(value: Text, token: Text, from: nat)
    requires from <= |value| && token != []
    ensures Count(value[from..], token) ==
            match IndexOf(value, token, from) case None => 0 case Some(i) => 1 + Count(value[i + |token|..], token)
    decreases |value| - from
  {
    if |value| - from >= |token| {
      if token <= value[from..] {
        assert value[from..][|token|..] == value[from + |token|..];
      } else {
        assert value[from..][1..] == value[from + 1..];
        CountFrom(value, token, from + 1);
      }
    }
  }

  /** `countOccurrences` */
  method CountOccurrences(value: Text, token: Text) returns (count: nat)
    requires token != []
    ensures count == Count(value, token)
  {
    hide Count, IndexOf;
    count := 0;
    var from := 0;
    assert value[0..] == value;
    while from < |value|
      invariant from <= |value| && Count(value, token) == count + Count(value[from..], token)
      decreases |value| - from
    {
      CountFrom(value, token, from);
      var found := IndexOf(value, token, from);
      if found.None? { return; }
      count := count + 1;
      from := found.value + |token|;
    }
    CountNothing(token);
    assert value[|value|..] == [];
  }

  lemma CountNothing(token: Text)
    requires token != []
    ensures Count([], token) == 0
  {
  }

  const TOKENS: seq<Text> := [[0xC3], [0xC2], [0xE2, 0x80], [0xE2, 0x20AC], [0xEF, 0xBF, 0xBD], [0xFFFD]]

  function Controls(value: Text): nat {
    if value == [] then 0 else (if 0x80 <= value[0] <= 0x9F then 1 else 0) + Controls(value[1..])
  }

  /** The marker score: token occurrences plus C1 controls. */
  function Score(value: Text): nat {
    Count(value, [0xC3]) + Count(value, [0xC2]) + Count(value, [0xE2, 0x80]) + Count(value, [0xE2, 0x20AC])
    + Count(value, [0xEF, 0xBF, 0xBD]) + Count(value, [0xFFFD]) + Controls(value)
  }

  /** A marker begins at position `i`: U+00C2, U+00C3 or U+FFFD, U+00E2 before U+0080 or U+20AC, the three characters
      that U+FFFD is misread as, or a C1 control. */
  predicate MarkerAt(value: Text, i: nat)
    requires i < |value|
  {
    || value[i] == 0xC2 || value[i] == 0xC3 || value[i] == 0xFFFD
    || (value[i] == 0xE2 && i + 1 < |value| && (value[i + 1] == 0x80 || value[i + 1] == 0x20AC))
    || (value[i] == 0xEF && i + 2 < |value| && value[i + 1] == 0xBF && value[i + 2] == 0xBD)
    || 0x80 <= value[i] <= 0x9F
  }

  /** The number of positions at which a marker begins. */
  function Marks(value: Text): nat {
    if value == [] then 0 else (if MarkerAt(value, 0) then 1 else 0) + Marks(value[1..])
  }

  /** No marker begins anywhere. */
  predicate Unmarked(value: Text) {
    forall i | 0 <= i < |value| :: !MarkerAt(value, i)
  }

  /** A token whose first character does not come again in it is counted at each of its positions. */
  lemma CountHere(value: Text, token: Text)
    requires value != [] && 1 <= |token| <= 3 && forall k | 1 <= k < |token| :: token[k] != token[0]
    ensures Count(value, token) == (if token <= value then 1 else 0) + Count(value[1..], token)
  {
    if token <= value {
      if |token| == 1 {
      } else {
        SkipOther(value[1..], token);
        assert value[1..][1..] == value[2..];
        if |token| == 3 {
          SkipOther(value[2..], token);
          assert value[2..][1..] == value[3..];
        }
      }
    } else if |value| < |token| {
      assert Count(value[1..], token) == 0;
    }
  }

  lemma SkipOther(value: Text, token: Text)
    requires value != [] && token != [] && value[0] != token[0]
    ensures Count(value, token) == Count(value[1..], token)
  {
  }

  /** The score counts the markers, each once, at the positions where they begin. */
  lemma {:induction false} ScoreIsMarks(value: Text)
    ensures Score(value) == Marks(value)
  {
    if value == [] {
      EmptyScore();
    } else {
      ScoreIsMarks(value[1..]);
      CountHere(value, [0xC3]);
      CountHere(value, [0xC2]);
      CountHere(value, [0xE2, 0x80]);
      CountHere(value, [0xE2, 0x20AC]);
      CountHere(value, [0xEF, 0xBF, 0xBD]);
      CountHere(value, [0xFFFD]);
      hide Count;
      OneMarkerHere(value);
    }
  }

  lemma OneMarkerHere(value: Text)
    requires value != []
    ensures (if MarkerAt(value, 0) then 1 else 0)
         == (if [0xC3] <= value then 1 else 0) + (if [0xC2] <= value then 1 else 0)
            + (if [0xE2, 0x80] <= value then 1 else 0) + (if [0xE2, 0x20AC] <= value then 1 else 0)
            + (if [0xEF, 0xBF, 0xBD] <= value then 1 else 0) + (if [0xFFFD] <= value then 1 else 0)
            + (if 0x80 <= value[0] <= 0x9F then 1 else 0)
  {}

  /** A text scores nothing exactly when no marker occurs in it. */
  lemma {:induction false} UnmarkedScoresNothing(value: Text)
    ensures Score(value) == 0 <==> Unmarked(value)
  {
    ScoreIsMarks(value);
    NoMarks(value);
  }

  lemma {:induction false} NoMarks(value: Text)
    ensures Marks(value) == 0 <==> Unmarked(value)
  {
    if value != [] {
      NoMarks(value[1..]);
      forall i | 1 <= i < |value| ensures MarkerAt(value, i) <==> MarkerAt(value[1..], i - 1) {}
      hide MarkerAt;
      assert Unmarked(value) <==> !MarkerAt(value, 0) && Unmarked(value[1..]) by {
        assert forall i | 0 <= i < |value[1..]| :: MarkerAt(value[1..], i) <==> MarkerAt(value, i + 1);
      }
    }
  }

  /** `countMojibakeMarkers` */
  method CountMojibakeMarkers(value: Text) returns (markers: nat)
    ensures markers == Score(value) == Marks(value)
  {
    ScoreIsMarks(value);
    hide Count, Controls;
    markers := 0;
    for i := 0 to |TOKENS|
      invariant markers == (if i > 0 then Count(value, [0xC3]) else 0) + (if i > 1 then Count(value, [0xC2]) else 0)
                           + (if i > 2 then Count(value, [0xE2, 0x80]) else 0) + (if i > 3 then Count(value, [0xE2, 0x20AC]) else 0)
                           + (if i > 4 then Count(value, [0xEF, 0xBF, 0xBD]) else 0) + (if i > 5 then Count(value, [0xFFFD]) else 0)
    {
      var n := CountOccurrences(value, TOKENS[i]);
      markers := markers + n;
    }
    markers := markers + Controls(value);
  }

  /** `value.replace(/\uFEFF/g, "")` */
  function StripBom(value: Text): Text {
    if value == [] then [] else (if value[0] == BOM then [] else [value[0]]) + StripBom(value[1..])
  }

  // ---------------------------------------------------------------- the repair

  /** A character that every one-byte reading of its UTF-8 form gives away: U+0080 to U+00FF and U+2000 to U+203F,
      where accented letters and typographic signs are. */
  predicate Telltale(original: Text) {
    exists i :: 0 <= i < |original| && (0x80 <= original[i] <= 0xFF || 0x2000 <= original[i] <= 0x203F)
  }

  /** `maybeRepairMojibake`. Text without markers that holds a telltale character comes back from both
      misreadings, text without markers is left as it is, and at most one U+FFFD is added. */
  method MaybeRepairMojibake(value: Text) returns (result: Text)
    ensures result == Repaired(StripBom(value))
    ensures forall original: Text | Unmarked(original) && Telltale(original) && value == ReadCp1252(EncodeAll(original)) ::
              result == original
    ensures forall original: Text | Unmarked(original) && Telltale(original) && value == ReadLatin1(EncodeAll(original)) ::
              result == original
    ensures Unmarked(value) && BOM !in value ==> result == value
    ensures Count(result, [REPLACEMENT]) <= Count(StripBom(value), [REPLACEMENT]) + 1
  {
    ReadingsComeBack(value);
    UnmarkedIsLeftAlone(value);
    hide Unmarked, Telltale, EncodeAll, ReadCp1252, ReadLatin1;
    hide Score, Count, Decode, LikelyBytes, StripBom;
    var source := StripBom(value);
    var sourceScore := CountMojibakeMarkers(source);
    if sourceScore == 0 { return source; }
    var bytes := ToLikelyLatin1Bytes(source);
    if bytes.None? { return source; }
    var repaired := Decode(bytes.value);
    if repaired == [] { return source; }
    var repairedScore := CountMojibakeMarkers(repaired);
    var sourceReplacement := CountOccurrences(source, [REPLACEMENT]);
    var repairedReplacement := CountOccurrences(repaired, [REPLACEMENT]);
    if repairedReplacement > sourceReplacement + 1 { return source; }
    if repairedScore < sourceScore { return repaired; }
    if repairedScore == sourceScore && repairedReplacement < sourceReplacement { return repaired; }
    return source;
  }

  /** What becomes of a text without byte order marks. */
  function Repaired(source: Text): Text {
    if Score(source) == 0 || LikelyBytes(source).None? then source
    else
      var repaired := Decode(LikelyBytes(source).value);
      if repaired == [] then source
      else
        var before, after := Count(source, [REPLACEMENT]), Count(repaired, [REPLACEMENT]);
        if after > before + 1 then source
        else if Score(repaired) < Score(source) || (Score(repaired) == Score(source) && after < before) then repaired
        else source
  }

  /** The repair never makes a text look more damaged than it was, byte order marks aside. */
  lemma RepairNeverWorse(value: Text)
    ensures Score(Repaired(StripBom(value))) <= Score(StripBom(value))
  {
    hide Score, Count, Decode, LikelyBytes, StripBom;
  }

  lemma {:induction false} CountSingle(value: Text, c: Scalar)
    ensures Count(value, [c]) > 0 <==> c in value
  {
    if value != [] {
      CountSingle(value[1..], c);
      HeadTail(value);
    }
  }

  lemma {:induction false} LikelyBytesMatch(damaged: Text)
    requires LikelyBytes(damaged).Some?
    ensures |LikelyBytes(damaged).value| == |damaged|
    ensures forall i | 0 <= i < |damaged| :: LikelyByte(damaged[i]) == Some(LikelyBytes(damaged).value[i])
  {
    hide LikelyByte;
    if damaged != [] {
      LikelyBytesMatch(damaged[1..]);
      var rest := LikelyBytes(damaged[1..]).value;
      assert LikelyBytes(damaged).value == [LikelyByte(damaged[0]).value] + rest;
    }
  }

  lemma NoReplacementInLikely(damaged: Text)
    requires LikelyBytes(damaged).Some?
    ensures REPLACEMENT !in damaged && BOM !in damaged
  {
    hide LikelyBytes;
    LikelyBytesMatch(damaged);
    assert LikelyByte(REPLACEMENT).None? && LikelyByte(BOM).None?;
  }

  lemma {:induction false} StripBomOfClean(value: Text)
    requires BOM !in value
    ensures StripBom(value) == value
  {
    if value != [] {
      StripBomOfClean(value[1..]);
      HeadTail(value);
    }
  }

  /** The repair inverts the damage: when `damaged` is any text whose likely bytes are the UTF-8 bytes of
      `original`, and `original` has no U+FFFD, the repair gives `original` back if and only if the
      damage raised the score (or did nothing). */
  lemma RepairInvertsDamage(original: Text, damaged: Text)
    requires REPLACEMENT !in original && LikelyBytes(damaged) == Some(EncodeAll(original))
    ensures Repaired(StripBom(damaged)) == original <==> Score(original) < Score(damaged) || damaged == original
  {
    NoReplacementInLikely(damaged);
    StripBomOfClean(damaged);
    DecodeEncode(original);
    CountSingle(original, REPLACEMENT);
    CountSingle(damaged, REPLACEMENT);
    hide Count, Decode, LikelyBytes, EncodeAll, StripBom, Controls;
    if original == [] { EmptyScore(); }
  }

  lemma EmptyScore()
    ensures Score([]) == 0 && Decode([]) == []
  {
  }

  predicate Ascii(t: Text) {
    forall i | 0 <= i < |t| :: t[i] < 0x80
  }

  lemma {:induction false} EncodedLength(t: Text)
    ensures |EncodeAll(t)| >= |t| && (|EncodeAll(t)| == |t| <==> Ascii(t))
    ensures Ascii(t) ==> ReadCp1252(EncodeAll(t)) == ReadLatin1(EncodeAll(t)) == t
  {
    if t != [] {
      EncodedLength(t[1..]);
      HeadTail(t);
      assert Ascii(t) <==> t[0] < 0x80 && Ascii(t[1..]) by {
        assert forall i | 1 <= i < |t| :: t[i] == t[1..][i - 1];
      }
      if t[0] < 0x80 { Cons(t[0] as Byte, EncodeAll(t[1..])); }
    }
  }

  lemma {:induction false} ReadingLength(bs: seq<Byte>)
    ensures |ReadCp1252(bs)| == |ReadLatin1(bs)| == |bs|
  {
    hide Cp1252Char;
    if bs != [] { ReadingLength(bs[1..]); }
  }

  /** In particular for a UTF-8 file opened as Windows-1252 or as Latin-1: the repair recovers the text
      exactly when it is plain ASCII or the misreading raised the score. */
  lemma RepairInvertsReadings(original: Text)
    requires REPLACEMENT !in original
    ensures var w := ReadCp1252(EncodeAll(original));
            Repaired(StripBom(w)) == original <==> Score(original) < Score(w) || Ascii(original)
    ensures var l := ReadLatin1(EncodeAll(original));
            Repaired(StripBom(l)) == original <==> Score(original) < Score(l) || Ascii(original)
  {
    hide Score, Repaired, StripBom, LikelyBytes, ReadCp1252, ReadLatin1, EncodeAll, Ascii;
    ReadingsAreLikely(EncodeAll(original));
    EncodedLength(original);
    ReadingLength(EncodeAll(original));
    RepairInvertsDamage(original, ReadCp1252(EncodeAll(original)));
    RepairInvertsDamage(original, ReadLatin1(EncodeAll(original)));
  }

  // ------------------------------------------------ accented Latin-1 texts

  lemma {:induction false} LeadByteAppears(original: Text, i: nat)
    requires i < |original| && 0x80 <= original[i] <= 0xFF
    ensures 0xC2 in EncodeAll(original) || 0xC3 in EncodeAll(original)
  {
    if i > 0 { LeadByteAppears(original[1..], i - 1); }
    else { assert Encode(original[0])[0] in Encode(original[0]); }
  }

  lemma LeadByteIsMarker(damaged: Text, b: Byte)
    requires LikelyBytes(damaged).Some? && b in LikelyBytes(damaged).value && (b == 0xC2 || b == 0xC3)
    ensures Score(damaged) > 0
  {
    hide LikelyBytes;
    LikelyBytesMatch(damaged);
    var i :| 0 <= i < |damaged| && LikelyBytes(damaged).value[i] == b;
    LeadByteIsItself(damaged[i], b);
    CountSingle(damaged, b);
    hide Count, Controls;
  }

  lemma LeadByteIsItself(c: Scalar, b: Byte)
    requires LikelyByte(c) == Some(b) && b >= 0xA0
    ensures c == b
  {
  }

  /** Accented text free of markers is always recovered: one character from U+0080 to U+00FF is enough. */
  lemma AccentedTextIsRecovered(original: Text, damaged: Text)
    requires Score(original) == 0 && LikelyBytes(damaged) == Some(EncodeAll(original))
    requires exists i :: 0 <= i < |original| && 0x80 <= original[i] <= 0xFF
    ensures Repaired(StripBom(damaged)) == original
  {
    var i :| 0 <= i < |original| && 0x80 <= original[i] <= 0xFF;
    LeadByteAppears(original, i);
    CountSingle(original, REPLACEMENT);
    hide Count, Controls, Repaired, StripBom, LikelyBytes, EncodeAll;
    LeadByteIsMarker(damaged, if 0xC2 in EncodeAll(original) then 0xC2 else 0xC3);
    RepairInvertsDamage(original, damaged);
  }

  /** Where the encoding of a telltale character begins with 0xC2 or 0xC3, or with 0xE2 0x80. */
  lemma {:induction false} TelltaleBytes(original: Text, i: nat) returns (j: nat)
    requires i < |original| && (0x80 <= original[i] <= 0xFF || 0x2000 <= original[i] <= 0x203F)
    ensures j < |EncodeAll(original)|
    ensures var bs := EncodeAll(original);
      bs[j] == 0xC2 || bs[j] == 0xC3 || (bs[j] == 0xE2 && j + 1 < |bs| && bs[j + 1] == 0x80)
  {
    if i == 0 {
      j := 0;
    } else {
      var k := TelltaleBytes(original[1..], i - 1);
      j := |Encode(original[0])| + k;
      hide Encode;
    }
  }

  lemma EuroOrControl(c: Scalar)
    requires LikelyByte(c) == Some(0x80)
    ensures c == 0x80 || c == 0x20AC
  {}

  /** Whatever the misreading, a telltale character leaves a marker behind. */
  lemma TelltaleLeavesMarker(original: Text, damaged: Text)
    requires Telltale(original) && LikelyBytes(damaged) == Some(EncodeAll(original))
    ensures !Unmarked(damaged)
  {
    var i :| 0 <= i < |original| && (0x80 <= original[i] <= 0xFF || 0x2000 <= original[i] <= 0x203F);
    var j := TelltaleBytes(original, i);
    LikelyBytesMatch(damaged);
    hide LikelyBytes, EncodeAll, LikelyByte;
    var bs := EncodeAll(original);
    LeadByteIsItself(damaged[j], bs[j]);
    if bs[j] == 0xE2 { EuroOrControl(damaged[j + 1]); }
    assert MarkerAt(damaged, j);
  }

  /** Text without markers is recovered from any misreading of a telltale character. */
  lemma TelltaleTextIsRecovered(original: Text, damaged: Text)
    requires Unmarked(original) && Telltale(original) && LikelyBytes(damaged) == Some(EncodeAll(original))
    ensures Repaired(StripBom(damaged)) == original
  {
    TelltaleLeavesMarker(original, damaged);
    UnmarkedScoresNothing(original);
    UnmarkedScoresNothing(damaged);
    assert REPLACEMENT !in original by {
      forall i | 0 <= i < |original| ensures original[i] != REPLACEMENT { assert !MarkerAt(original, i); }
    }
    hide Score, Repaired, StripBom, LikelyBytes, EncodeAll, Unmarked, Telltale;
    RepairInvertsDamage(original, damaged);
  }

  lemma ReadingsComeBack(value: Text)
    ensures forall original: Text | Unmarked(original) && Telltale(original) && value == ReadCp1252(EncodeAll(original)) ::
              Repaired(StripBom(value)) == original
    ensures forall original: Text | Unmarked(original) && Telltale(original) && value == ReadLatin1(EncodeAll(original)) ::
              Repaired(StripBom(value)) == original
  {
    hide Repaired, StripBom, LikelyBytes, EncodeAll, Unmarked, Telltale, ReadCp1252, ReadLatin1;
    forall original: Text | Unmarked(original) && Telltale(original)
                            && (value == ReadCp1252(EncodeAll(original)) || value == ReadLatin1(EncodeAll(original)))
      ensures Repaired(StripBom(value)) == original
    {
      ReadingsAreLikely(EncodeAll(original));
      TelltaleTextIsRecovered(original, value);
    }
  }

  lemma UnmarkedIsLeftAlone(value: Text)
    ensures Unmarked(value) && BOM !in value ==> Repaired(StripBom(value)) == value
  {
    if Unmarked(value) && BOM !in value {
      StripBomOfClean(value);
      UnmarkedScoresNothing(value);
    }
  }

  /** The typographic apostrophe before plain text, read as Windows-1252, is three characters; they become the
      apostrophe again. */
  lemma ApostropheIsRecovered(t: Text)
    requires Ascii(t)
    ensures Repaired(StripBom([0xE2, 0x20AC, 0x2122] + t)) == [0x2019] + t
  {
    ApostropheBytes(t);
    var original: Text := [0x2019] + t;
    assert original[0] == 0x2019;
    assert Unmarked(original) by {
      forall i | 0 <= i < |original| ensures !MarkerAt(original, i) { assert i > 0 ==> original[i] == t[i - 1]; }
    }
    hide Unmarked, EncodeAll, LikelyBytes, Repaired, StripBom;
    TelltaleTextIsRecovered(original, [0xE2, 0x20AC, 0x2122] + t);
  }

  lemma ApostropheBytes(t: Text)
    requires Ascii(t)
    ensures LikelyBytes([0xE2, 0x20AC, 0x2122] + t) == Some(EncodeAll([0x2019] + t))
  {
    PlainBytes(t);
    EncodesAs(t);
    assert LikelyByte(0x2122) == Some(0x99) && LikelyByte(0x20AC) == Some(0x80) && LikelyByte(0xE2) == Some(0xE2);
    hide *;
    LikelyThree(0xE2, 0x20AC, 0x2122, t);
  }

  lemma EncodesAs(t: Text)
    ensures EncodeAll([0x2019] + t) == [0xE2, 0x80, 0x99] + EncodeAll(t)
  {
    Cons(0x2019 as Scalar, t);
  }

  lemma Three<T>(x: T, y: T, z: T, s: seq<T>)
    ensures [x] + ([y] + ([z] + s)) == [x, y, z] + s
  {}

  lemma LikelyThree(a: Scalar, b: Scalar, c: Scalar, t: Text)
    requires LikelyByte(a).Some? && LikelyByte(b).Some? && LikelyByte(c).Some? && LikelyBytes(t).Some?
    ensures LikelyBytes([a, b, c] + t)
         == Some([LikelyByte(a).value, LikelyByte(b).value, LikelyByte(c).value] + LikelyBytes(t).value)
  {
    hide *;
    LikelyCons(c, t);
    LikelyCons(b, [c] + t);
    LikelyCons(a, [b] + ([c] + t));
    Three(a, b, c, t);
    Three(LikelyByte(a).value, LikelyByte(b).value, LikelyByte(c).value, LikelyBytes(t).value);
  }

  lemma LikelyCons(c: Scalar, t: Text)
    requires LikelyByte(c).Some? && LikelyBytes(t).Some?
    ensures LikelyBytes([c] + t) == Some([LikelyByte(c).value] + LikelyBytes(t).value)
  {
    hide LikelyByte;
    Cons(c, t);
  }

  lemma {:induction false} PlainBytes(t: Text)
    requires Ascii(t)
    ensures EncodeAll(t) == t && LikelyBytes(t) == Some(t)
  {
    if t != [] {
      PlainBytes(t[1..]);
      HeadTail(t);
    }
  }
}
