/** `decodeBase64` against the encoding of section 4 of RFC 4648. Decoded text is a
    sequence of UTF-16 code units. */
module Base64 {

  type Byte = n: int | 0 <= n < 256

  // ----- The alphabet -----

  const FIRST_LINE: string := "ABCDEFGHIJKLMNOP"
  const SECOND_LINE: string := "QRSTUVWXYZabcdef"
  const THIRD_LINE: string := "ghijklmnopqrstuv"
  const FOURTH_LINE: string := "wxyz0123456789+/"

  /** Table 1 of RFC 4648, in the lines of `keyStr`. */
  const ALPHABET: string := FIRST_LINE + SECOND_LINE + THIRD_LINE + FOURTH_LINE

  lemma AlphabetLength()
    ensures |ALPHABET| == 64
    ensures |FIRST_LINE| == |SECOND_LINE| == |THIRD_LINE| == |FOURTH_LINE| == 16
  {
  }

  /** `keyStr.charAt(i)`; the padding character is number 64. */
  function KeyChar(i: nat): char
    requires i <= 64
  {
    if i < 26 then ('A' as int + i) as char
    else if i < 52 then ('a' as int + (i - 26)) as char
    else if i < 62 then ('0' as int + (i - 52)) as char
    else if i == 62 then '+'
    else if i == 63 then '/'
    else '='
  }

  /** `keyStr.indexOf(c)`. */
  function KeyIndex(c: char): (i: int)
    ensures -1 <= i <= 64
    ensures i >= 0 ==> KeyChar(i) == c
  {
    if 'A' <= c <= 'Z' then c as int - 'A' as int
    else if 'a' <= c <= 'z' then c as int - 'a' as int + 26
    else if '0' <= c <= '9' then c as int - '0' as int + 52
    else if c == '+' then 62
    else if c == '/' then 63
    else if c == '=' then 64
    else -1
  }

  lemma FirstLineIndex(i: nat)
    requires i < 16
    ensures KeyIndex(FIRST_LINE[i]) == i
  {
  }

  lemma SecondLineIndex(i: nat)
    requires i < 16
    ensures KeyIndex(SECOND_LINE[i]) == 16 + i
  {
  }

  lemma ThirdLineIndex(i: nat)
    requires i < 16
    ensures KeyIndex(THIRD_LINE[i]) == 32 + i
  {
  }

  lemma FourthLineIndex(i: nat)
    requires i < 16
    ensures KeyIndex(FOURTH_LINE[i]) == 48 + i
  {
  }

  lemma InLines(a: string, b: string, c: string, d: string, i: nat)
    requires |a| == |b| == |c| == |d| == 16 && i < 64
    ensures (a + b + c + d)[i]
            == if i < 16 then a[i] else if i < 32 then b[i - 16] else if i < 48 then c[i - 32] else d[i - 48]
  {
  }

  lemma KeyIndexInverts(i: nat)
    requires i <= 64
    ensures KeyIndex(KeyChar(i)) == i
  {
  }

  /** Both functions read the table: the number of a character is its place. */
  lemma AlphabetIndex(i: nat)
    requires i < 64
    ensures |ALPHABET| == 64 && KeyIndex(ALPHABET[i]) == i && KeyChar(i) == ALPHABET[i]
  {
    AlphabetLength();
    InLines(FIRST_LINE, SECOND_LINE, THIRD_LINE, FOURTH_LINE, i);
    if i < 16 {
      FirstLineIndex(i);
    } else if i < 32 {
      SecondLineIndex(i - 16);
    } else if i < 48 {
      ThirdLineIndex(i - 32);
    } else {
      FourthLineIndex(i - 48);
    }
  }

  /** `[A-Za-z0-9+/=]`. */
  predicate IsKept(c: char) {
    'A' <= c <= 'Z' || 'a' <= c <= 'z' || '0' <= c <= '9' || c == '+' || c == '/' || c == '='
  }

  lemma KeptHasIndex(c: char)
    ensures IsKept(c) <==> KeyIndex(c) >= 0
  {
  }

  function Keep(c: char): string {
    if IsKept(c) then [c] else ""
  }

  /** `input.replace(/[^A-Za-z0-9+/=]/g, "")`. */
  function Clean(input: string): (r: string)
    ensures InAlphabet(r)
  {
    if input == "" then ""
    else Keep(input[0]) + Clean(input[1..])
  }

  lemma CleanOne(c: char)
    ensures Clean([c]) == if IsKept(c) then [c] else ""
    ensures IsKept(c) <==> c in ALPHABET || c == '='
  {
    AlphabetLength();
    KeptHasIndex(c);
    assert [c][1..] == "";
    if c in ALPHABET {
      var i :| 0 <= i < |ALPHABET| && ALPHABET[i] == c;
      AlphabetIndex(i);
    } else if IsKept(c) && c != '=' {
      AlphabetIndex(KeyIndex(c));
    }
  }

  lemma CleanNext(a: string, b: string)
    requires a != ""
    ensures Clean(a + b) == Keep(a[0]) + Clean(a[1..] + b)
  {
    assert (a + b)[1..] == a[1..] + b;
  }

  lemma {:induction false} CleanBoth(a: string, b: string)
    ensures Clean(a + b) == Clean(a) + Clean(b)
  {
    if a == "" {
      assert a + b == b;
    } else {
      CleanBoth(a[1..], b);
      CleanNext(a, b);
      assert Keep(a[0]) + (Clean(a[1..]) + Clean(b)) == Keep(a[0]) + Clean(a[1..]) + Clean(b);
    }
  }

  /** Cleaning keeps the characters of the table and the padding, in order, and no other. */
  lemma CleanAround(before: string, c: char, after: string)
    ensures Clean(before + [c] + after)
            == Clean(before) + (if c in ALPHABET || c == '=' then [c] else "") + Clean(after)
  {
    CleanBoth(before + [c], after);
    CleanBoth(before, [c]);
    CleanOne(c);
  }

  // ----- Encoding, RFC 4648 section 4 -----

  /** The four characters of the first three, or fewer, bytes. */
  function EncodeGroup(bs: seq<Byte>): (r: string)
    requires bs != []
    ensures |r| == 4
  {
    if |bs| == 1 then [KeyChar(bs[0] / 4), KeyChar(bs[0] % 4 * 16), '=', '=']
    else if |bs| == 2 then
      [KeyChar(bs[0] / 4), KeyChar(bs[0] % 4 * 16 + bs[1] / 16), KeyChar(bs[1] % 16 * 4), '=']
    else
      [KeyChar(bs[0] / 4), KeyChar(bs[0] % 4 * 16 + bs[1] / 16),
       KeyChar(bs[1] % 16 * 4 + bs[2] / 64), KeyChar(bs[2] % 64)]
  }

  function Encode(bs: seq<Byte>): string {
    if bs == [] then ""
    else EncodeGroup(bs) + if |bs| > 3 then Encode(bs[3..]) else ""
  }

  // ----- Decoding -----

  /** Bitwise `|` on non-negative numbers. */
  function Or(a: nat, b: nat): nat
    decreases a + b
  {
    if a == 0 then b
    else if b == 0 then a
    else 2 * Or(a / 2, b / 2) + if a % 2 == 1 || b % 2 == 1 then 1 else 0
  }

  /** Bit by bit: the lowest one is set if it is set in either number, the others likewise. */
  lemma OrBits(a: nat, b: nat)
    ensures Or(a, b) % 2 == 1 <==> a % 2 == 1 || b % 2 == 1
    ensures Or(a, b) / 2 == Or(a / 2, b / 2)
  {
  }

  function Pow2(k: nat): (p: nat)
    ensures p > 0
  {
    if k == 0 then 1 else 2 * Pow2(k - 1)
  }

  /** Filling the low bits left free by a shift is addition. */
  lemma {:induction false} OrIsSum(x: nat, y: nat, k: nat)
    requires y < Pow2(k)
    ensures Or(Pow2(k) * x, y) == Pow2(k) * x + y
  {
    if k == 0 || x == 0 || y == 0 {
    } else {
      var half := Pow2(k - 1) * x;
      assert Pow2(k) * x == 2 * half by {
        assert Pow2(k) == 2 * Pow2(k - 1);
      }
      OrIsSum(x, y / 2, k - 1);
    }
  }

  /** Numbers 4, 16 and 64 are the shifts the decoder uses. */
  lemma OrShifted(x: nat, y: nat)
    ensures y < 4 ==> Or(4 * x, y) == 4 * x + y
    ensures y < 16 ==> Or(16 * x, y) == 16 * x + y
    ensures y < 64 ==> Or(64 * x, y) == 64 * x + y
  {
    assert Pow2(2) == 4 && Pow2(4) == 16 by {
      assert Pow2(1) == 2 && Pow2(3) == 8;
    }
    assert Pow2(6) == 64 by {
      assert Pow2(5) == 32;
    }
    if y < 4 { OrIsSum(x, y, 2); }
    if y < 16 { OrIsSum(x, y, 4); }
    if y < 64 { OrIsSum(x, y, 6); }
  }

  function Chr1(e1: nat, e2: nat): nat {
    Or(e1 * 4, e2 / 16)
  }

  function Chr2(e2: nat, e3: nat): nat {
    Or(e2 % 16 * 16, e3 / 4)
  }

  function Chr3(e3: nat, e4: nat): nat {
    Or(e3 % 4 * 64, e4)
  }

  /** What one round of the loop appends. */
  function Group(e1: nat, e2: nat, e3: nat, e4: nat): seq<nat> {
    [Chr1(e1, e2)]
    + (if e3 != 64 then [Chr2(e2, e3)] else [])
    + (if e4 != 64 then [Chr3(e3, e4)] else [])
  }

  predicate InAlphabet(input: string) {
    forall c :: c in input ==> KeyIndex(c) >= 0
  }

  /** `keyStr.indexOf(input.charAt(i))`; past the end `charAt` is the empty string, which
      is found at 0. */
  function Code(input: string, i: nat): (e: nat)
    requires InAlphabet(input)
    ensures e <= 64
  {
    if i < |input| then KeyIndex(input[i]) else 0
  }

  /** What the round that reads position `i` appends. */
  function GroupAt(input: string, i: nat): seq<nat>
    requires InAlphabet(input)
  {
    Group(Code(input, i), Code(input, i + 1), Code(input, i + 2), Code(input, i + 3))
  }

  /** What the rounds from position `i` on append. */
  function DecodeFrom(input: string, i: nat): seq<nat>
    requires InAlphabet(input)
    decreases |input| - i
  {
    GroupAt(input, i) + if i + 4 < |input| then DecodeFrom(input, i + 4) else []
  }

  function DecodeRest(input: string, i: nat): seq<nat>
    requires InAlphabet(input)
  {
    if i < |input| then DecodeFrom(input, i) else []
  }

  lemma RoundAppends(input: string, i: nat, before: seq<nat>)
    requires InAlphabet(input)
    ensures (before + GroupAt(input, i)) + DecodeRest(input, i + 4) == before + DecodeFrom(input, i)
  {
    var group := GroupAt(input, i);
    assert DecodeFrom(input, i) == group + DecodeRest(input, i + 4);
  }

  method DecodeRound(input: string, i: nat, soFar: seq<nat>) returns (output: seq<nat>)
    requires InAlphabet(input)
    ensures output == soFar + GroupAt(input, i)
  {
    var enc1, enc2, enc3, enc4 := Code(input, i), Code(input, i + 1), Code(input, i + 2), Code(input, i + 3);
    output := soFar + [Chr1(enc1, enc2)];
    if enc3 != 64 {
      output := output + [Chr2(enc2, enc3)];
    }
    if enc4 != 64 {
      output := output + [Chr3(enc3, enc4)];
    }
  }

  /** The do-while loop, before the final `unescape`. */
  method DecodeLoop(input: string) returns (output: seq<nat>)
    requires InAlphabet(input)
    ensures output == DecodeFrom(input, 0)
  {
    ghost var whole := DecodeFrom(input, 0);
    output := DecodeRound(input, 0, []);
    RoundAppends(input, 0, []);
    var i := 4;
    while i < |input|
      invariant output + DecodeRest(input, i) == whole
    {
      ghost var before := output;
      output := DecodeRound(input, i, output);
      RoundAppends(input, i, before);
      i := i + 4;
    }
  }

  lemma Chr1Sum(e1: nat, e2: nat)
    requires e2 < 64
    ensures Chr1(e1, e2) == 4 * e1 + e2 / 16
  {
    OrShifted(e1, e2 / 16);
  }

  lemma Chr2Sum(e2: nat, e3: nat)
    requires e3 < 64
    ensures Chr2(e2, e3) == 16 * (e2 % 16) + e3 / 4
  {
    OrShifted(e2 % 16, e3 / 4);
  }

  lemma Chr3Sum(e3: nat, e4: nat)
    requires e4 < 64
    ensures Chr3(e3, e4) == 64 * (e3 % 4) + e4
  {
    OrShifted(e3 % 4, e4);
  }

  /** The four sextets of three bytes. */
  function Sextets(a: Byte, b: Byte, c: Byte): (e: (nat, nat, nat, nat))
    ensures e.0 < 64 && e.1 < 64 && e.2 < 64 && e.3 < 64
    ensures 4 * e.0 + e.1 / 16 == a
    ensures 16 * (e.1 % 16) + e.2 / 4 == b
    ensures 64 * (e.2 % 4) + e.3 == c
  {
    (a / 4, a % 4 * 16 + b / 16, b % 16 * 4 + c / 64, c % 64)
  }

  /** Three bytes survive their four sextets; a padded place drops its byte. */
  lemma GroupRoundTrip(a: Byte, b: Byte, c: Byte)
    ensures var e := Sextets(a, b, c);
            && Group(e.0, e.1, e.2, e.3) == [a, b, c]
            && Group(e.0, e.1, e.2, 64) == [a, b]
            && Group(e.0, e.1, 64, 64) == [a]
  {
    var e := Sextets(a, b, c);
    Chr1Sum(e.0, e.1);
    Chr2Sum(e.1, e.2);
    Chr3Sum(e.2, e.3);
  }

  lemma EncodedCodes(bs: seq<Byte>)
    requires bs != []
    ensures var b := if |bs| > 1 then bs[1] else 0;
            var c := if |bs| > 2 then bs[2] else 0;
            var e := Sextets(bs[0], b, c);
            var r := EncodeGroup(bs);
            && KeyIndex(r[0]) == e.0 && KeyIndex(r[1]) == e.1
            && KeyIndex(r[2]) == (if |bs| > 1 then e.2 else 64)
            && KeyIndex(r[3]) == (if |bs| > 2 then e.3 else 64)
  {
    var b := if |bs| > 1 then bs[1] else 0;
    var c := if |bs| > 2 then bs[2] else 0;
    var e := Sextets(bs[0], b, c);
    KeyIndexInverts(e.0);
    KeyIndexInverts(e.1);
    KeyIndexInverts(e.2);
    KeyIndexInverts(e.3);
  }

  /** One encoded group decodes to its bytes, wherever it stands in the input. */
  lemma EncodedGroup(bs: seq<Byte>, input: string, i: nat)
    requires bs != [] && InAlphabet(input)
    requires i + 4 <= |input| && input[i..i + 4] == EncodeGroup(bs)
    ensures GroupAt(input, i) == bs[..if |bs| > 3 then 3 else |bs|]
  {
    var r := input[i..i + 4];
    assert r[0] == input[i] && r[1] == input[i + 1] && r[2] == input[i + 2] && r[3] == input[i + 3];
    EncodedCodes(bs);
    GroupRoundTrip(bs[0], if |bs| > 1 then bs[1] else 0, if |bs| > 2 then bs[2] else 0);
  }

  lemma {:induction false} EncodedInAlphabet(bs: seq<Byte>)
    ensures InAlphabet(Encode(bs))
  {
    if bs == [] {
    } else {
      EncodedCodes(bs);
      var r := EncodeGroup(bs);
      assert forall c :: c in r ==> c == r[0] || c == r[1] || c == r[2] || c == r[3];
      if |bs| > 3 {
        EncodedInAlphabet(bs[3..]);
      }
    }
  }

  /** Decoding from position `i` inverts the encoding that stands there. */
  lemma {:induction false} DecodeInvertsEncode(bs: seq<Byte>, input: string, i: nat)
    requires bs != [] && InAlphabet(input)
    requires i <= |input| && input[i..] == Encode(bs)
    ensures DecodeFrom(input, i) == bs
    decreases |bs|
  {
    EncodedHere(bs, input, i);
    EncodedGroup(bs, input, i);
    if |bs| > 3 {
      DecodeInvertsEncode(bs[3..], input, i + 4);
      DecodeJoins(bs, input, i);
    } else {
      assert bs[..|bs|] == bs;
    }
  }

  lemma SliceFront(input: string, i: nat, group: string, tail: string)
    requires i <= |input| && input[i..] == group + tail
    ensures i + |group| <= |input| && input[i..i + |group|] == group && input[i + |group|..] == tail
  {
    var rest := input[i..];
    assert input[i..i + |group|] == rest[..|group|] && input[i + |group|..] == rest[|group|..];
  }

  lemma EncodeSplits(bs: seq<Byte>)
    requires bs != []
    ensures Encode(bs) == EncodeGroup(bs) + Encode(bs[if |bs| > 3 then 3 else |bs|..])
  {
  }

  /** The first group of an encoding, and where the next one begins. */
  lemma EncodedHere(bs: seq<Byte>, input: string, i: nat)
    requires bs != [] && i <= |input| && input[i..] == Encode(bs)
    ensures i + 4 <= |input| && input[i..i + 4] == EncodeGroup(bs)
    ensures |bs| > 3 <==> i + 4 < |input|
    ensures |bs| > 3 ==> input[i + 4..] == Encode(bs[3..])
  {
    EncodeSplits(bs);
    SliceFront(input, i, EncodeGroup(bs), Encode(bs[if |bs| > 3 then 3 else |bs|..]));
  }

  lemma DecodeJoins(bs: seq<Byte>, input: string, i: nat)
    requires InAlphabet(input) && |bs| > 3 && i + 4 < |input|
    requires GroupAt(input, i) == bs[..3] && DecodeFrom(input, i + 4) == bs[3..]
    ensures DecodeFrom(input, i) == bs
  {
    assert bs == bs[..3] + bs[3..];
  }

  // ----- The final `unescape`, section B.2.1.2 of ECMA-262 -----

  const PERCENT: nat := 37
  const LOWER_U: nat := 117

  predicate IsHex(u: nat) {
    48 <= u <= 57 || 65 <= u <= 70 || 97 <= u <= 102
  }

  function HexValue(u: nat): nat
    requires IsHex(u)
  {
    if u <= 57 then u - 48 else if u <= 70 then u - 55 else u - 87
  }

  function HexNumber(s: seq<nat>): nat
    requires forall u :: u in s ==> IsHex(u)
  {
    if s == [] then 0 else HexNumber(s[..|s| - 1]) * 16 + HexValue(s[|s| - 1])
  }

  predicate AllHex(s: seq<nat>) {
    forall u :: u in s ==> IsHex(u)
  }

  /** `%uXXXX` begins the text. */
  predicate LongEscape(s: seq<nat>) {
    |s| >= 6 && s[0] == PERCENT && s[1] == LOWER_U && AllHex(s[2..6])
  }

  /** `%XX` begins the text. */
  predicate ShortEscape(s: seq<nat>) {
    |s| >= 3 && s[0] == PERCENT && AllHex(s[1..3])
  }

  function Unescape(s: seq<nat>): seq<nat>
    decreases |s|
  {
    if s == [] then []
    else if LongEscape(s) then [HexNumber(s[2..6])] + Unescape(s[6..])
    else if ShortEscape(s) then [HexNumber(s[1..3])] + Unescape(s[3..])
    else [s[0]] + Unescape(s[1..])
  }

  const UPPER_DIGITS: string := "0123456789ABCDEF"
  const LOWER_DIGITS: string := "0123456789abcdef"

  /** `u` is the code of a hexadecimal digit for `v`. */
  predicate DigitFor(u: nat, v: nat) {
    v < 16 && (u == UPPER_DIGITS[v] as int || u == LOWER_DIGITS[v] as int)
  }

  lemma DigitRead(u: nat, v: nat)
    requires DigitFor(u, v)
    ensures IsHex(u) && HexValue(u) == v
  {
  }

  /** `%` and two digits stand for the number they write. */
  lemma ShortEscapeRead(a: nat, b: nat, v: nat, w: nat, rest: seq<nat>)
    requires DigitFor(a, v) && DigitFor(b, w)
    ensures Unescape([37, a, b] + rest) == [16 * v + w] + Unescape(rest)
  {
    var s := [37, a, b] + rest;
    DigitRead(a, v);
    DigitRead(b, w);
    assert s[1..3] == [a, b] && s[3..] == rest;
    assert [a, b][..1] == [a] && [a][..0] == [];
    assert HexNumber([a]) == v;
  }

  /** `%u` and four digits do so as well. */
  lemma LongEscapeRead(a: nat, b: nat, c: nat, d: nat, v: nat, w: nat, x: nat, y: nat, rest: seq<nat>)
    requires DigitFor(a, v) && DigitFor(b, w) && DigitFor(c, x) && DigitFor(d, y)
    ensures Unescape([37, 117, a, b, c, d] + rest) == [4096 * v + 256 * w + 16 * x + y] + Unescape(rest)
  {
    var s := [37, 117, a, b, c, d] + rest;
    DigitRead(a, v);
    DigitRead(b, w);
    DigitRead(c, x);
    DigitRead(d, y);
    assert s[2..6] == [a, b, c, d] && s[6..] == rest;
    assert [a, b, c, d][..3] == [a, b, c] && [a, b, c][..2] == [a, b] && [a, b][..1] == [a] && [a][..0] == [];
    assert HexNumber([a]) == v;
    assert HexNumber([a, b]) == 16 * v + w;
    assert HexNumber([a, b, c]) == 256 * v + 16 * w + x;
  }

  /** Anything but a percent sign is left as it is. */
  lemma PlainRead(u: nat, rest: seq<nat>)
    requires u != 37
    ensures Unescape([u] + rest) == [u] + Unescape(rest)
  {
    assert ([u] + rest)[1..] == rest;
  }

  /** Nothing else is a digit. */
  lemma HexIsDigit(u: nat)
    ensures IsHex(u) <==> exists v :: DigitFor(u, v)
  {
    if IsHex(u) {
      assert DigitFor(u, HexValue(u));
    } else if v :| DigitFor(u, v) {
      DigitRead(u, v);
    }
  }

  predicate EscapeAt(s: seq<nat>, k: nat)
    requires k <= |s|
  {
    LongEscape(s[k..]) || ShortEscape(s[k..])
  }

  predicate HasEscape(s: seq<nat>) {
    exists k :: 0 <= k <= |s| && EscapeAt(s, k)
  }

  lemma EscapeAtHeadOrLater(s: seq<nat>)
    requires s != []
    ensures HasEscape(s) <==> EscapeAt(s, 0) || HasEscape(s[1..])
  {
    assert s[0..] == s;
    var t := s[1..];
    if HasEscape(s) && !EscapeAt(s, 0) {
      var k :| 0 <= k <= |s| && EscapeAt(s, k);
      assert t[k - 1..] == s[k..];
      assert EscapeAt(t, k - 1);
    }
    if HasEscape(t) {
      var k :| 0 <= k <= |t| && EscapeAt(t, k);
      assert s[k + 1..] == t[k..];
      assert EscapeAt(s, k + 1);
    }
  }

  lemma {:induction false} UnescapeNeverLonger(s: seq<nat>)
    ensures |Unescape(s)| <= |s|
    decreases |s|
  {
    if s == [] {
    } else if LongEscape(s) {
      UnescapeNeverLonger(s[6..]);
    } else if ShortEscape(s) {
      UnescapeNeverLonger(s[3..]);
    } else {
      UnescapeNeverLonger(s[1..]);
    }
  }

  /** `unescape` leaves a text alone exactly when the text holds no escape; otherwise it
      makes the text shorter. */
  lemma {:induction false} UnescapeChanges(s: seq<nat>)
    ensures Unescape(s) == s <==> !HasEscape(s)
    ensures HasEscape(s) ==> |Unescape(s)| < |s|
    decreases |s|
  {
    if s == [] {
      assert forall k :: 0 <= k <= |s| ==> !EscapeAt(s, k);
    } else {
      assert s[0..] == s;
      EscapeAtHeadOrLater(s);
      if LongEscape(s) {
        UnescapeNeverLonger(s[6..]);
      } else if ShortEscape(s) {
        UnescapeNeverLonger(s[3..]);
      } else {
        UnescapeChanges(s[1..]);
        assert s == [s[0]] + s[1..];
      }
    }
  }

  // ----- The whole function -----

  /** For every byte sequence, however many foreign characters are strewn through its
      encoding: the loop rebuilds the bytes exactly when there is one, and the whole
      function returns them exactly when, besides, they do not read as an escape. */
  lemma DecodeRoundTrip(bs: seq<Byte>, input: string)
    requires Clean(input) == Encode(bs)
    ensures DecodeFrom(Clean(input), 0) == bs <==> bs != []
    ensures bs == [] ==> Unescape(DecodeFrom(Clean(input), 0)) == [0, 0, 0]
    ensures Unescape(DecodeFrom(Clean(input), 0)) == bs <==> bs != [] && !HasEscape(bs)
  {
    var text := Clean(input);
    if bs == [] {
      EmptyDecodes();
    } else {
      assert text[0..] == text;
      DecodeInvertsEncode(bs, text, 0);
      UnescapeChanges(bs);
    }
  }

  method DecodeBase64(input: string) returns (output: seq<nat>)
    ensures output == Unescape(DecodeFrom(Clean(input), 0))
    ensures forall bs: seq<Byte> :: Clean(input) == Encode(bs) ==> (output == bs <==> bs != [] && !HasEscape(bs))
  {
    output := DecodeLoop(Clean(input));
    output := Unescape(output);
    forall bs: seq<Byte> | Clean(input) == Encode(bs) ensures output == bs <==> bs != [] && !HasEscape(bs) {
      DecodeRoundTrip(bs, input);
    }
  }

  /** `TWFu` is the text `Man`. */
  lemma ManDecodes()
    ensures DecodeFrom("TWFu", 0) == [77, 97, 110]
  {
    assert Sextets(77, 97, 110) == (19, 22, 5, 46);
    GroupRoundTrip(77, 97, 110);
    assert GroupAt("TWFu", 0) == Group(19, 22, 5, 46);
  }

  /** The do-while body runs once on nothing. */
  lemma EmptyDecodes()
    ensures DecodeFrom("", 0) == [0, 0, 0]
    ensures Unescape([0, 0, 0]) == [0, 0, 0]
  {
    assert Group(0, 0, 0, 0) == [0, 0, 0];
    UnescapeChanges([0, 0, 0]);
    var s: seq<nat> := [0, 0, 0];
    assert forall k :: 0 <= k < |s| ==> s[k..][0] == 0;
    assert !HasEscape(s);
  }

  /** The three bytes of "%41", whose encoding decodes to "A". */
  lemma EscapeIsLost()
    ensures HasEscape([37, 52, 49]) && Unescape([37, 52, 49]) == [65]
  {
    var s: seq<nat> := [37, 52, 49];
    assert s[0..] == s && s[1..3] == [52, 49] && s[3..] == [];
    assert ShortEscape(s) && EscapeAt(s, 0);
    assert s[1..3][..1] == [52];
    assert HexNumber([52]) == 4;
    assert HexNumber(s[1..3]) == 65;
  }
}
