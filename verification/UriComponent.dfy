/**
 encodeURIComponent and decodeURIComponent on strings of UTF-16 code units, as far as
 cookies go: every code unit, percent escapes, and UTF-8 (section 3 of RFC 3629).
 */
module UriComponent {
  import opened Wrappers

  type CodeUnit = bv16
  type JsString = seq<CodeUnit>

  const EQUALS: CodeUnit := 0x3D
  const SEMICOLON: CodeUnit := 0x3B
  const SPACE: CodeUnit := 0x20
  const PERCENT: CodeUnit := 0x25
  const PLUS: CodeUnit := 0x2B
  const SLASH: CodeUnit := 0x2F

  // ---- encoding ------------------------------------------------------------------------------

  // The alphabet of section 4 of RFC 4648, padding included.
  predicate IsBase64Character(c: CodeUnit) {
    || 0x41 <= c <= 0x5A || 0x61 <= c <= 0x7A || 0x30 <= c <= 0x39
    || c == PLUS || c == SLASH || c == EQUALS
  }

  predicate Ascii(s: JsString) {
    forall i :: 0 <= i < |s| ==> s[i] < 0x80
  }

  predicate IsBase64(s: JsString) {
    Ascii(s) && forall i :: 0 <= i < |s| ==> IsBase64Character(s[i])
  }

  function HexDigit(n: CodeUnit): CodeUnit
    requires n < 16
  {
    if n < 10 then 0x30 + n else 0x37 + n
  }

  function HexValue(c: CodeUnit): (r: Option<CodeUnit>)
    ensures r.Some? ==> r.value < 16
  {
    if 0x30 <= c <= 0x39 then Some(c - 0x30)
    else if 0x41 <= c <= 0x46 then Some(c - 0x37)
    else if 0x61 <= c <= 0x66 then Some(c - 0x57)
    else None
  }

  // The characters encodeURIComponent leaves as they are: A-Z a-z 0-9 - _ . ! ~ * ' ( )
  predicate Unreserved(c: CodeUnit) {
    || 0x41 <= c <= 0x5A || 0x61 <= c <= 0x7A || 0x30 <= c <= 0x39
    || c in {0x2D, 0x5F, 0x2E, 0x21, 0x7E, 0x2A, 0x27, 0x28, 0x29}
  }

  predicate HighSurrogate(c: CodeUnit) {
    0xD800 <= c < 0xDC00
  }

  predicate LowSurrogate(c: CodeUnit) {
    0xDC00 <= c < 0xE000
  }

  // "%XY"
  function Escape(octet: CodeUnit): JsString
    requires octet < 0x100
  {
    [PERCENT, HexDigit(octet >> 4), HexDigit(octet & 0xF)]
  }

  function EscapeAll(octets: seq<CodeUnit>): JsString
    requires AllOctets(octets)
  {
    if octets == [] then [] else Escape(octets[0]) + EscapeAll(octets[1..])
  }

  predicate AllOctets(octets: seq<CodeUnit>) {
    forall i :: 0 <= i < |octets| ==> octets[i] < 0x100
  }

  // UTF-8 (section 3 of RFC 3629) of one code unit, or of a surrogate pair.
  function Utf8(c: CodeUnit): (octets: seq<CodeUnit>)
    ensures AllOctets(octets)
  {
    if c < 0x80 then [c]
    else if c < 0x800 then [0xC0 | (c >> 6), 0x80 | (c & 0x3F)]
    else [0xE0 | (c >> 12), 0x80 | ((c >> 6) & 0x3F), 0x80 | (c & 0x3F)]
  }

  function Utf8Pair(high: CodeUnit, low: CodeUnit): (octets: seq<CodeUnit>)
    requires HighSurrogate(high) && LowSurrogate(low)
    ensures AllOctets(octets)
  {
    [Lead4(high), 0x80 | Six1(high), 0x80 | Six2(high, low), 0x80 | Six3(low)]
  }

  // The leading octet of a surrogate pair and its three groups of six bits.
  function Lead4(high: CodeUnit): (lead: CodeUnit)
    requires HighSurrogate(high)
    ensures 0xF0 <= lead <= 0xF4
  {
    0xF0 | ((high - 0xD800 + 0x40) >> 8)
  }

  function Six1(high: CodeUnit): (six: CodeUnit)
    ensures six < 0x40
  {
    ((high - 0xD800 + 0x40) >> 2) & 0x3F
  }

  function Six2(high: CodeUnit, low: CodeUnit): (six: CodeUnit)
    requires LowSurrogate(low)
    ensures six < 0x40
  {
    (((high - 0xD800 + 0x40) & 3) << 4) | ((low - 0xDC00) >> 6)
  }

  function Six3(low: CodeUnit): (six: CodeUnit)
    ensures six < 0x40
  {
    (low - 0xDC00) & 0x3F
  }

  // encodeURIComponent; None where it throws, at a surrogate that is not part of a pair.
  function Encode(s: JsString): Option<JsString> {
    if s == [] then Some([])
    else if Unreserved(s[0]) then Prepend([s[0]], Encode(s[1..]))
    else if LowSurrogate(s[0]) then None
    else if HighSurrogate(s[0]) then
      if |s| < 2 || !LowSurrogate(s[1]) then None
      else Prepend(EscapeAll(Utf8Pair(s[0], s[1])), Encode(s[2..]))
    else Prepend(EscapeAll(Utf8(s[0])), Encode(s[1..]))
  }

  function Prepend(text: JsString, rest: Option<JsString>): Option<JsString> {
    match rest
    case None => None
    case Some(more) => Some(text + more)
  }

  // The octet that the escape at position i stands for.
  function Octet(s: JsString, i: nat): (r: Option<CodeUnit>)
    ensures r.Some? ==> i + 3 <= |s| && r.value < 0x100
  {
    if i + 3 <= |s| && s[i] == PERCENT && HexValue(s[i + 1]).Some? && HexValue(s[i + 2]).Some?
    then Some((HexValue(s[i + 1]).value << 4) | HexValue(s[i + 2]).value)
    else None
  }

  // The six bits of a continuation octet.
  function Continuation(s: JsString, i: nat): (r: Option<CodeUnit>)
    ensures r.Some? ==> i + 3 <= |s| && r.value < 0x40
  {
    match Octet(s, i)
    case None => None
    case Some(octet) => if 0x80 <= octet < 0xC0 then Some(octet & 0x3F) else None
  }

  // A decoded character and the length of its escapes.
  datatype Character = Character(units: JsString, length: nat)

  // The character whose escapes begin s; None for malformed, overlong or surrogate UTF-8.
  function EscapedCharacter(s: JsString): (r: Option<Character>)
    ensures r.Some? ==> 3 <= r.value.length <= |s|
  {
    match Octet(s, 0)
    case None => None
    case Some(lead) =>
      if lead < 0x80 then Some(Character([lead], 3))
      else if lead < 0xC2 || lead > 0xF4 then None
      else if lead < 0xE0 then TwoOctets(s, lead)
      else if lead < 0xF0 then ThreeOctets(s, lead)
      else FourOctets(s, lead)
  }

  function TwoOctets(s: JsString, lead: CodeUnit): (r: Option<Character>)
    ensures r.Some? ==> r.value.length == 6 <= |s|
  {
    match Continuation(s, 3)
    case None => None
    case Some(c1) => Some(Character([((lead & 0x1F) << 6) | c1], 6))
  }

  function ThreeOctets(s: JsString, lead: CodeUnit): (r: Option<Character>)
    ensures r.Some? ==> r.value.length == 9 <= |s|
  {
    match (Continuation(s, 3), Continuation(s, 6))
    case (Some(c1), Some(c2)) =>
      (match JoinThree(lead, c1, c2)
       case None => None
       case Some(unit) => Some(Character([unit], 9)))
    case _ => None
  }

  // Overlong forms and surrogates are not valid UTF-8.
  function JoinThree(lead: CodeUnit, c1: CodeUnit, c2: CodeUnit): Option<CodeUnit> {
    var unit := ((lead & 0xF) << 12) | (c1 << 6) | c2;
    if unit < 0x800 || HighSurrogate(unit) || LowSurrogate(unit) then None else Some(unit)
  }

  function FourOctets(s: JsString, lead: CodeUnit): (r: Option<Character>)
    ensures r.Some? ==> r.value.length == 12 <= |s|
  {
    match (Continuation(s, 3), Continuation(s, 6), Continuation(s, 9))
    case (Some(c1), Some(c2), Some(c3)) =>
      (match JoinFour(lead, c1, c2, c3)
       case None => None
       case Some(pair) => Some(Character(pair, 12)))
    case _ => None
  }

  // Overlong forms and code points beyond the last are not valid UTF-8.
  function JoinFour(lead: CodeUnit, c1: CodeUnit, c2: CodeUnit, c3: CodeUnit): Option<JsString> {
    if (lead == 0xF0 && c1 < 0x10) || (lead == 0xF4 && c1 >= 0x10) then None
    else
      Some([JoinHigh(lead, c1, c2), JoinLow(c2, c3)])
  }

  function JoinHigh(lead: CodeUnit, c1: CodeUnit, c2: CodeUnit): CodeUnit {
    0xD800 + ((((lead & 7) << 8) | (c1 << 2) | (c2 >> 4)) - 0x40)
  }

  function JoinLow(c2: CodeUnit, c3: CodeUnit): CodeUnit {
    0xDC00 | ((c2 & 0xF) << 6) | c3
  }

  // decodeURIComponent; None where it throws.
  function Decode(s: JsString): Option<JsString> {
    if s == [] then Some([])
    else if s[0] != PERCENT then Prepend([s[0]], Decode(s[1..]))
    else
      match EscapedCharacter(s)
      case None => None
      case Some(character) => Prepend(character.units, Decode(s[character.length..]))
  }

  lemma HexRoundTrip(c: CodeUnit)
    requires c < 0x100
    ensures HexValue(HexDigit(c >> 4)) == Some(c >> 4) && HexValue(HexDigit(c & 0xF)) == Some(c & 0xF)
    ensures ((c >> 4) << 4) | (c & 0xF) == c
  {}

  lemma OctetOfEscape(s: JsString, i: nat, octet: CodeUnit)
    requires octet < 0x100 && i + 3 <= |s| && s[i..i + 3] == Escape(octet)
    ensures Octet(s, i) == Some(octet)
  {
    HexRoundTrip(octet);
    assert s[i] == s[i..i + 3][0] && s[i + 1] == s[i..i + 3][1] && s[i + 2] == s[i..i + 3][2];
  }

  lemma {:induction false} OctetsOfEscapes(octets: seq<CodeUnit>, rest: JsString, k: nat)
    requires AllOctets(octets) && k < |octets|
    ensures |EscapeAll(octets)| == 3 * |octets|
    ensures Octet(EscapeAll(octets) + rest, 3 * k) == Some(octets[k])
  {
    var s := EscapeAll(octets) + rest;
    assert s == Escape(octets[0]) + (EscapeAll(octets[1..]) + rest);
    EscapeAllLength(octets);
    if k == 0 {
      assert s[0..3] == Escape(octets[0]);
      OctetOfEscape(s, 0, octets[0]);
    } else {
      OctetsOfEscapes(octets[1..], rest, k - 1);
      OctetShift(Escape(octets[0]), EscapeAll(octets[1..]) + rest, 3 * (k - 1));
    }
  }

  lemma OctetShift(prefix: JsString, s: JsString, i: nat)
    requires |prefix| == 3
    ensures Octet(prefix + s, i + 3) == Octet(s, i)
  {
    var t := prefix + s;
    if i + 3 <= |s| {
      assert t[i + 3] == s[i] && t[i + 4] == s[i + 1] && t[i + 5] == s[i + 2];
    }
  }

  lemma {:induction false} EscapeAllLength(octets: seq<CodeUnit>)
    requires AllOctets(octets)
    ensures |EscapeAll(octets)| == 3 * |octets|
    ensures octets != [] ==> EscapeAll(octets)[0] == PERCENT
  {
    if octets != [] {
      EscapeAllLength(octets[1..]);
    }
  }

  lemma TwoOctetsOf(c: CodeUnit)
    requires 0x80 <= c < 0x800
    ensures 0xC2 <= 0xC0 | (c >> 6) < 0xE0 && c & 0x3F < 0x40
    ensures (((0xC0 | (c >> 6)) & 0x1F) << 6) | (c & 0x3F) == c
  {}

  lemma ThreeOctetsOf(c: CodeUnit)
    requires 0x800 <= c && !HighSurrogate(c) && !LowSurrogate(c)
    ensures 0xE0 <= 0xE0 | (c >> 12) < 0xF0 && (c >> 6) & 0x3F < 0x40 && c & 0x3F < 0x40
    ensures JoinThree(0xE0 | (c >> 12), (c >> 6) & 0x3F, c & 0x3F) == Some(c)
  {}

  lemma HighComesBack(high: CodeUnit, low: CodeUnit)
    requires HighSurrogate(high) && LowSurrogate(low)
    ensures JoinHigh(Lead4(high), Six1(high), Six2(high, low)) == high
  {}

  lemma LowComesBack(high: CodeUnit, low: CodeUnit)
    requires LowSurrogate(low)
    ensures JoinLow(Six2(high, low), Six3(low)) == low
  {}

  lemma NotOverlong(high: CodeUnit)
    requires HighSurrogate(high)
    ensures !(Lead4(high) == 0xF0 && Six1(high) < 0x10) && !(Lead4(high) == 0xF4 && Six1(high) >= 0x10)
  {}

  lemma FourOctetsOf(high: CodeUnit, low: CodeUnit)
    requires HighSurrogate(high) && LowSurrogate(low)
    ensures JoinFour(Lead4(high), Six1(high), Six2(high, low), Six3(low)) == Some([high, low])
  {
    HighComesBack(high, low);
    LowComesBack(high, low);
    NotOverlong(high);
  }

  lemma ContinuationOf(six: CodeUnit)
    requires six < 0x40
    ensures 0x80 <= 0x80 | six < 0xC0 && (0x80 | six) & 0x3F == six
  {}

  lemma ContinuationRead(s: JsString, i: nat, six: CodeUnit)
    requires six < 0x40 && Octet(s, i) == Some(0x80 | six)
    ensures Continuation(s, i) == Some(six)
  {
    ContinuationOf(six);
  }

  lemma TwoOctetsComeBack(c: CodeUnit, rest: JsString)
    requires 0x80 <= c < 0x800
    ensures EscapedCharacter(EscapeAll(Utf8(c)) + rest) == Some(Character([c], 6))
  {
    TwoOctetsSeen(c, rest);
    TwoOctetsOf(c);
    TwoOctetsRead(EscapeAll(Utf8(c)) + rest, 0xC0 | (c >> 6), c & 0x3F, c);
  }

  lemma TwoOctetsSeen(c: CodeUnit, rest: JsString)
    requires 0x80 <= c < 0x800
    ensures var s := EscapeAll(Utf8(c)) + rest;
            Octet(s, 0) == Some(0xC0 | (c >> 6)) && Octet(s, 3) == Some(0x80 | (c & 0x3F))
  {
    OctetsOfEscapes(Utf8(c), rest, 0);
    OctetsOfEscapes(Utf8(c), rest, 1);
  }

  lemma TwoOctetsRead(s: JsString, lead: CodeUnit, c1: CodeUnit, unit: CodeUnit)
    requires Octet(s, 0) == Some(lead) && 0xC2 <= lead < 0xE0
    requires c1 < 0x40 && Octet(s, 3) == Some(0x80 | c1)
    requires unit == ((lead & 0x1F) << 6) | c1
    ensures EscapedCharacter(s) == Some(Character([unit], 6))
  {
    ContinuationRead(s, 3, c1);
  }

  lemma ThreeOctetsComeBack(c: CodeUnit, rest: JsString)
    requires 0x800 <= c && !HighSurrogate(c) && !LowSurrogate(c)
    ensures EscapedCharacter(EscapeAll(Utf8(c)) + rest) == Some(Character([c], 9))
  {
    ThreeOctetsSeen(c, rest);
    ThreeOctetsOf(c);
    ThreeOctetsRead(EscapeAll(Utf8(c)) + rest, 0xE0 | (c >> 12), (c >> 6) & 0x3F, c & 0x3F, c);
  }

  lemma ThreeOctetsSeen(c: CodeUnit, rest: JsString)
    requires 0x800 <= c
    ensures var s := EscapeAll(Utf8(c)) + rest;
            && Octet(s, 0) == Some(0xE0 | (c >> 12)) && Octet(s, 3) == Some(0x80 | ((c >> 6) & 0x3F))
            && Octet(s, 6) == Some(0x80 | (c & 0x3F))
  {
    OctetsOfEscapes(Utf8(c), rest, 0);
    OctetsOfEscapes(Utf8(c), rest, 1);
    OctetsOfEscapes(Utf8(c), rest, 2);
  }

  lemma ThreeOctetsRead(s: JsString, lead: CodeUnit, c1: CodeUnit, c2: CodeUnit, unit: CodeUnit)
    requires Octet(s, 0) == Some(lead) && 0xE0 <= lead < 0xF0
    requires c1 < 0x40 && Octet(s, 3) == Some(0x80 | c1) && c2 < 0x40 && Octet(s, 6) == Some(0x80 | c2)
    requires JoinThree(lead, c1, c2) == Some(unit)
    ensures EscapedCharacter(s) == Some(Character([unit], 9))
  {
    ContinuationRead(s, 3, c1);
    ContinuationRead(s, 6, c2);
  }

  lemma UnitComesBack(c: CodeUnit, rest: JsString)
    requires !HighSurrogate(c) && !LowSurrogate(c)
    ensures EscapedCharacter(EscapeAll(Utf8(c)) + rest) == Some(Character([c], 3 * |Utf8(c)|))
  {
    if c < 0x80 {
      OctetsOfEscapes([c], rest, 0);
    } else if c < 0x800 {
      TwoOctetsComeBack(c, rest);
    } else {
      ThreeOctetsComeBack(c, rest);
    }
  }

  lemma FourOctetsRead(s: JsString, lead: CodeUnit, c1: CodeUnit, c2: CodeUnit, c3: CodeUnit, pair: JsString)
    requires Octet(s, 0) == Some(lead) && 0xF0 <= lead <= 0xF4
    requires c1 < 0x40 && Octet(s, 3) == Some(0x80 | c1) && c2 < 0x40 && Octet(s, 6) == Some(0x80 | c2)
    requires c3 < 0x40 && Octet(s, 9) == Some(0x80 | c3) && JoinFour(lead, c1, c2, c3) == Some(pair)
    ensures EscapedCharacter(s) == Some(Character(pair, 12))
  {
    ContinuationRead(s, 3, c1);
    ContinuationRead(s, 6, c2);
    ContinuationRead(s, 9, c3);
  }

  lemma FourOctetsSeen(octets: seq<CodeUnit>, rest: JsString)
    requires AllOctets(octets) && |octets| == 4
    ensures var s := EscapeAll(octets) + rest;
            && Octet(s, 0) == Some(octets[0]) && Octet(s, 3) == Some(octets[1])
            && Octet(s, 6) == Some(octets[2]) && Octet(s, 9) == Some(octets[3])
  {
    OctetsOfEscapes(octets, rest, 0);
    OctetsOfEscapes(octets, rest, 1);
    OctetsOfEscapes(octets, rest, 2);
    OctetsOfEscapes(octets, rest, 3);
  }

  lemma PairComesBack(high: CodeUnit, low: CodeUnit, rest: JsString)
    requires HighSurrogate(high) && LowSurrogate(low)
    ensures EscapedCharacter(EscapeAll(Utf8Pair(high, low)) + rest) == Some(Character([high, low], 12))
  {
    FourOctetsOf(high, low);
    FourOctetsSeen(Utf8Pair(high, low), rest);
    FourOctetsRead(EscapeAll(Utf8Pair(high, low)) + rest, Lead4(high), Six1(high), Six2(high, low), Six3(low), [high, low]);
  }

  // Decoding undoes encoding, for every string that can be encoded.
  lemma {:induction false} DecodeEncode(s: JsString)
    requires Encode(s).Some?
    ensures Decode(Encode(s).value) == Some(s)
  {
    if s != [] {
      if Unreserved(s[0]) {
        DecodeEncode(s[1..]);
        assert Encode(s).value[1..] == Encode(s[1..]).value;
        assert [s[0]] + s[1..] == s;
      } else if HighSurrogate(s[0]) {
        var rest := Encode(s[2..]).value;
        DecodeEncode(s[2..]);
        PairComesBack(s[0], s[1], rest);
        DecodesTo(Utf8Pair(s[0], s[1]), [s[0], s[1]], rest, s[2..]);
        assert [s[0], s[1]] + s[2..] == s;
      } else {
        var rest := Encode(s[1..]).value;
        DecodeEncode(s[1..]);
        UnitComesBack(s[0], rest);
        DecodesTo(Utf8(s[0]), [s[0]], rest, s[1..]);
        assert [s[0]] + s[1..] == s;
      }
    }
  }

  lemma DecodesTo(octets: seq<CodeUnit>, units: JsString, rest: JsString, decoded: JsString)
    requires AllOctets(octets) && octets != [] && Decode(rest) == Some(decoded)
    requires EscapedCharacter(EscapeAll(octets) + rest) == Some(Character(units, 3 * |octets|))
    ensures Decode(EscapeAll(octets) + rest) == Some(units + decoded)
  {
    EscapeAllLength(octets);
    assert (EscapeAll(octets) + rest)[3 * |octets|..] == rest;
  }

  lemma {:induction false} AsciiCanBeEncoded(s: JsString)
    requires Ascii(s)
    ensures Encode(s).Some?
  {
    if s != [] {
      AsciiCanBeEncoded(s[1..]);
    }
  }

  // Letters, digits and - _ . ! ~ * ' ( ) stay as they are; nothing else does.
  lemma UnescapedIff(c: CodeUnit)
    ensures Encode([c]) == Some([c]) <==>
            || 0x41 <= c <= 0x5A || 0x61 <= c <= 0x7A || 0x30 <= c <= 0x39
            || c in [0x2D, 0x5F, 0x2E, 0x21, 0x7E, 0x2A, 0x27, 0x28, 0x29]
  {
    assert [c][1..] == [] && [c] + [] == [c];
    if !Unreserved(c) && !HighSurrogate(c) && !LowSurrogate(c) {
      EscapeAllLength(Utf8(c));
      assert Encode([c]) == Prepend(EscapeAll(Utf8(c)), Some([]));
      assert |Encode([c]).value| >= 3;
    }
  }

  // ---- only UTF-8 is accepted -------------------------------------------------------------

  // The escapes at the start of s are those of the octets.
  predicate BeginsWithOctets(s: JsString, octets: seq<CodeUnit>) {
    forall k :: 0 <= k < |octets| ==> Octet(s, 3 * k) == Some(octets[k])
  }

  // A character is read from escapes only if they are exactly its UTF-8: overlong forms,
  // surrogates, stray octets and values past the last code point are not read.
  lemma OnlyUtf8IsRead(s: JsString)
    requires EscapedCharacter(s).Some?
    ensures var c := EscapedCharacter(s).value;
            || (|c.units| == 1 && !HighSurrogate(c.units[0]) && !LowSurrogate(c.units[0])
                && c.length == 3 * |Utf8(c.units[0])| && BeginsWithOctets(s, Utf8(c.units[0])))
            || (|c.units| == 2 && HighSurrogate(c.units[0]) && LowSurrogate(c.units[1])
                && c.length == 12 && BeginsWithOctets(s, Utf8Pair(c.units[0], c.units[1])))
  {
    var lead := Octet(s, 0).value;
    if lead < 0x80 {
    } else if lead < 0xE0 {
      TwoOctetsAreUtf8(s, lead);
    } else if lead < 0xF0 {
      ThreeOctetsAreUtf8(s, lead);
    } else {
      FourOctetsAreUtf8(s, lead);
    }
  }

  lemma ContinuationIs(s: JsString, i: nat)
    requires Continuation(s, i).Some?
    ensures Octet(s, i) == Some(0x80 | Continuation(s, i).value)
  {
    SixBits(Octet(s, i).value);
  }

  lemma SixBits(octet: CodeUnit)
    requires 0x80 <= octet < 0xC0
    ensures 0x80 | (octet & 0x3F) == octet
  {}

  lemma TwoJoined(lead: CodeUnit, c1: CodeUnit)
    requires 0xC2 <= lead < 0xE0 && c1 < 0x40
    ensures var c := ((lead & 0x1F) << 6) | c1; 0x80 <= c < 0x800 && Utf8(c) == [lead, 0x80 | c1]
  {}

  lemma ThreeJoined(lead: CodeUnit, c1: CodeUnit, c2: CodeUnit)
    requires 0xE0 <= lead < 0xF0 && c1 < 0x40 && c2 < 0x40 && JoinThree(lead, c1, c2).Some?
    ensures var c := JoinThree(lead, c1, c2).value;
            && !HighSurrogate(c) && !LowSurrogate(c)
            && Utf8(c) == [lead, 0x80 | c1, 0x80 | c2]
  {}

  lemma HighJoined(lead: CodeUnit, c1: CodeUnit, c2: CodeUnit)
    requires 0xF0 <= lead <= 0xF4 && c1 < 0x40 && c2 < 0x40
    requires !(lead == 0xF0 && c1 < 0x10) && !(lead == 0xF4 && c1 >= 0x10)
    ensures HighSurrogate(JoinHigh(lead, c1, c2))
    ensures Lead4(JoinHigh(lead, c1, c2)) == lead && Six1(JoinHigh(lead, c1, c2)) == c1
  {}

  lemma LowJoined(c2: CodeUnit, c3: CodeUnit)
    requires c2 < 0x40 && c3 < 0x40
    ensures LowSurrogate(JoinLow(c2, c3)) && Six3(JoinLow(c2, c3)) == c3
  {}

  lemma MiddleJoined(lead: CodeUnit, c1: CodeUnit, c2: CodeUnit, c3: CodeUnit)
    requires 0xF0 <= lead <= 0xF4 && c1 < 0x40 && c2 < 0x40 && c3 < 0x40
    requires LowSurrogate(JoinLow(c2, c3))
    ensures Six2(JoinHigh(lead, c1, c2), JoinLow(c2, c3)) == c2
  {}

  lemma FourJoined(lead: CodeUnit, c1: CodeUnit, c2: CodeUnit, c3: CodeUnit)
    requires 0xF0 <= lead <= 0xF4 && c1 < 0x40 && c2 < 0x40 && c3 < 0x40 && JoinFour(lead, c1, c2, c3).Some?
    ensures var pair := JoinFour(lead, c1, c2, c3).value;
            && |pair| == 2 && HighSurrogate(pair[0]) && LowSurrogate(pair[1])
            && Utf8Pair(pair[0], pair[1]) == [lead, 0x80 | c1, 0x80 | c2, 0x80 | c3]
  {
    HighJoined(lead, c1, c2);
    LowJoined(c2, c3);
    MiddleJoined(lead, c1, c2, c3);
  }

  lemma TwoOctetsAreUtf8(s: JsString, lead: CodeUnit)
    requires Octet(s, 0) == Some(lead) && 0xC2 <= lead < 0xE0 && TwoOctets(s, lead).Some?
    ensures var c := TwoOctets(s, lead).value.units[0];
            !HighSurrogate(c) && !LowSurrogate(c) && |Utf8(c)| == 2 && BeginsWithOctets(s, Utf8(c))
  {
    ContinuationIs(s, 3);
    TwoAreUtf8(s, lead, Continuation(s, 3).value, TwoOctets(s, lead).value.units[0]);
  }

  lemma TwoAreUtf8(s: JsString, lead: CodeUnit, c1: CodeUnit, c: CodeUnit)
    requires Octet(s, 0) == Some(lead) && 0xC2 <= lead < 0xE0 && c1 < 0x40 && Octet(s, 3) == Some(0x80 | c1)
    requires c == ((lead & 0x1F) << 6) | c1
    ensures !HighSurrogate(c) && !LowSurrogate(c) && |Utf8(c)| == 2 && BeginsWithOctets(s, Utf8(c))
  {
    TwoJoined(lead, c1);
    NoSurrogate(c);
  }

  lemma NoSurrogate(c: CodeUnit)
    requires c < 0x800
    ensures !HighSurrogate(c) && !LowSurrogate(c)
  {}

  lemma ThreeOctetsAreUtf8(s: JsString, lead: CodeUnit)
    requires Octet(s, 0) == Some(lead) && 0xE0 <= lead < 0xF0 && ThreeOctets(s, lead).Some?
    ensures var c := ThreeOctets(s, lead).value.units[0];
            !HighSurrogate(c) && !LowSurrogate(c) && |Utf8(c)| == 3 && BeginsWithOctets(s, Utf8(c))
  {
    ContinuationIs(s, 3);
    ContinuationIs(s, 6);
    ThreeJoined(lead, Continuation(s, 3).value, Continuation(s, 6).value);
  }

  lemma FourOctetsAreUtf8(s: JsString, lead: CodeUnit)
    requires Octet(s, 0) == Some(lead) && 0xF0 <= lead <= 0xF4 && FourOctets(s, lead).Some?
    ensures var units := FourOctets(s, lead).value.units;
            && |units| == 2 && HighSurrogate(units[0]) && LowSurrogate(units[1])
            && BeginsWithOctets(s, Utf8Pair(units[0], units[1]))
  {
    ContinuationIs(s, 3);
    ContinuationIs(s, 6);
    ContinuationIs(s, 9);
    FourJoined(lead, Continuation(s, 3).value, Continuation(s, 6).value, Continuation(s, 9).value);
  }

  // How a base64 token looks in its cookie: only '+', '/' and '=' are escaped.
  function InCookie(token: JsString): JsString {
    if token == [] then []
    else
      (if token[0] == PLUS then [0x25, 0x32, 0x42]          // %2B
       else if token[0] == SLASH then [0x25, 0x32, 0x46]    // %2F
       else if token[0] == EQUALS then [0x25, 0x33, 0x44]   // %3D
       else [token[0]]) + InCookie(token[1..])
  }

  lemma {:induction false} EncodedBase64(token: JsString)
    requires IsBase64(token)
    ensures Encode(token) == Some(InCookie(token))
  {
    if token != [] {
      EncodedBase64(token[1..]);
      var c := token[0];
      EscapesOfBase64();
      OneEscape(c);
      assert Unreserved(c) || c == PLUS || c == SLASH || c == EQUALS;
    }
  }

  lemma OneEscape(c: CodeUnit)
    requires c < 0x80
    ensures EscapeAll(Utf8(c)) == Escape(c)
  {
    assert [c][1..] == [] && EscapeAll([]) == [];
  }

  lemma EscapesOfBase64()
    ensures Escape(PLUS) == [0x25, 0x32, 0x42] && Escape(SLASH) == [0x25, 0x32, 0x46] && Escape(EQUALS) == [0x25, 0x33, 0x44]
    ensures !Unreserved(PLUS) && !Unreserved(SLASH) && !Unreserved(EQUALS)
  {}

  predicate IsHex(c: CodeUnit) {
    0x30 <= c <= 0x39 || 0x41 <= c <= 0x46 || 0x61 <= c <= 0x66
  }

  // Digits of either case are read, to the same value.
  lemma HexDigitsRead(c: CodeUnit)
    ensures HexValue(c).Some? <==> IsHex(c)
    ensures 0x61 <= c <= 0x66 ==> HexValue(c) == HexValue(c - 0x20)
  {}

  // A '%' without two hexadecimal digits behind it makes decoding throw.
  lemma {:induction false} MalformedEscapeThrows(before: JsString, s: JsString)
    requires PERCENT !in before && s != [] && s[0] == PERCENT
    requires |s| < 3 || !IsHex(s[1]) || !IsHex(s[2])
    ensures Decode(before + s) == None
  {
    if before == [] {
      assert before + s == s;
    } else {
      assert (before + s)[1..] == before[1..] + s && before[0] in before;
      MalformedEscapeThrows(before[1..], s);
    }
  }
}
