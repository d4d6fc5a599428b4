/** UTF-8 as the panel reads it (components/panel_text/panel_text.cpp), against the encoding and the
    grammar of sections 3 and 4 of RFC 3629. */
module Utf8 {
  import opened Options

  type Byte = x: nat | x < 256

  // --- C strings ---

  /** Up to the first NUL. */
  function CString(s: seq<Byte>): (r: seq<Byte>)
    ensures |r| <= |s| && r <= s && 0 !in r
  {
    if s == [] || s[0] == 0 then [] else [s[0]] + CString(s[1..])
  }

  lemma {:induction false} PlainCString(s: seq<Byte>)
    requires 0 !in s
    ensures CString(s) == s
  {
    if s != [] {
      PlainCString(s[1..]);
    }
  }

  // --- RFC 3629 ---

  predicate Scalar(cp: nat) {
    cp <= 0x10FFFF && !(0xD800 <= cp <= 0xDFFF)
  }

  /** Section 3: the shortest form, six bits to each byte after the first. */
  function Encode(cp: nat): (s: seq<Byte>)
    requires Scalar(cp)
    ensures 1 <= |s| <= 4
  {
    if cp < 0x80 then [cp]
    else if cp < 0x800 then [0xC0 + cp / 64, 0x80 + cp % 64]
    else if cp < 0x10000 then [0xE0 + cp / 4096, 0x80 + cp / 64 % 64, 0x80 + cp % 64]
    else [0xF0 + cp / 262144, 0x80 + cp / 4096 % 64, 0x80 + cp / 64 % 64, 0x80 + cp % 64]
  }

  predicate Tail(b: Byte) {
    0x80 <= b <= 0xBF
  }

  /** Section 4: UTF8-char, alternative by alternative. */
  predicate Utf8Char(s: seq<Byte>) {
    || (|s| == 1 && s[0] <= 0x7F)
    || (|s| == 2 && 0xC2 <= s[0] <= 0xDF && Tail(s[1]))
    || (|s| == 3 && Tail(s[2]) &&
        (|| (s[0] == 0xE0 && 0xA0 <= s[1] <= 0xBF)
         || (0xE1 <= s[0] <= 0xEC && Tail(s[1]))
         || (s[0] == 0xED && 0x80 <= s[1] <= 0x9F)
         || (0xEE <= s[0] <= 0xEF && Tail(s[1]))))
    || (|s| == 4 && Tail(s[2]) && Tail(s[3]) &&
        (|| (s[0] == 0xF0 && 0x90 <= s[1] <= 0xBF)
         || (0xF1 <= s[0] <= 0xF3 && Tail(s[1]))
         || (s[0] == 0xF4 && 0x80 <= s[1] <= 0x8F)))
  }

  // --- The decoder ---

  /** How long the sequence a byte leads is, and where its second byte must lie; length 0 for a byte
      that leads none. */
  datatype Lead = Lead(length: nat, low: Byte, high: Byte)

  function LeadOf(b: Byte): (l: Lead)
    ensures l.length <= 4
  {
    if b < 0x80 then Lead(1, 0, 0)
    else if b < 0xC2 then Lead(0, 0, 0)
    else if b < 0xE0 then Lead(2, 0x80, 0xBF)
    else if b == 0xE0 then Lead(3, 0xA0, 0xBF)
    else if b == 0xED then Lead(3, 0x80, 0x9F)
    else if b < 0xF0 then Lead(3, 0x80, 0xBF)
    else if b == 0xF0 then Lead(4, 0x90, 0xBF)
    else if b < 0xF4 then Lead(4, 0x80, 0xBF)
    else if b == 0xF4 then Lead(4, 0x80, 0x8F)
    else Lead(0, 0, 0)
  }

  /** `taken` is a whole sequence or the part of one that could still have been. */
  datatype Decoded = Decoded(codePoint: nat, taken: nat, length: nat)

  predicate Whole(d: Decoded) {
    d.length != 0 && d.taken == d.length
  }

  predicate Follows(lead: Lead, taken: nat, next: Byte) {
    (if taken == 1 then lead.low else 0x80) <= next <= (if taken == 1 then lead.high else 0xBF)
  }

  function Payload(b: Byte, length: nat): nat {
    match length
    case 1 => b
    case 0 => b % 128
    case 2 => b % 32
    case 3 => b % 16
    case _ => b % 8
  }

  function Low6(b: Byte): nat {
    b % 64
  }

  function DecodeFrom(s: seq<Byte>, lead: Lead, codePoint: nat, taken: nat): (d: Decoded)
    requires 1 <= taken <= |s|
    ensures taken <= d.taken <= |s| && d.length == lead.length
    ensures d.taken <= lead.length || d.taken == taken
    decreases |s| - taken
  {
    if taken < lead.length && taken < |s| && Follows(lead, taken, s[taken]) then
      DecodeFrom(s, lead, codePoint * 64 + Low6(s[taken]), taken + 1)
    else Decoded(codePoint, taken, lead.length)
  }

  function DecodeAt(s: seq<Byte>): (d: Decoded)
    requires s != []
    ensures 1 <= d.taken <= |s| && d.length <= 4
  {
    var lead := LeadOf(s[0]);
    DecodeFrom(s, lead, Payload(s[0], lead.length), 1)
  }

  function ThreeBytes(s: seq<Byte>): nat
    requires |s| >= 3
  {
    (Payload(s[0], 3) * 64 + Low6(s[1])) * 64 + Low6(s[2])
  }

  function FourBytes(s: seq<Byte>): nat
    requires |s| >= 4
  {
    ((Payload(s[0], 4) * 64 + Low6(s[1])) * 64 + Low6(s[2])) * 64 + Low6(s[3])
  }

  lemma DecodesOne(s: seq<Byte>)
    requires s != [] && LeadOf(s[0]).length == 1
    ensures DecodeAt(s) == Decoded(s[0], 1, 1)
  {}

  lemma DecodesTwo(s: seq<Byte>)
    requires s != [] && LeadOf(s[0]).length == 2
    ensures if |s| >= 2 && Tail(s[1]) then DecodeAt(s) == Decoded(Payload(s[0], 2) * 64 + Low6(s[1]), 2, 2)
            else DecodeAt(s).taken == 1 && !Whole(DecodeAt(s))
  {
    var lead := LeadOf(s[0]);
    var c := Payload(s[0], 2);
    if |s| >= 2 && Tail(s[1]) {
      assert DecodeAt(s) == DecodeFrom(s, lead, c * 64 + Low6(s[1]), 2);
    }
  }

  lemma DecodesThree(s: seq<Byte>)
    requires s != [] && LeadOf(s[0]).length == 3
    ensures if |s| >= 3 && Follows(LeadOf(s[0]), 1, s[1]) && Tail(s[2])
            then DecodeAt(s) == Decoded(ThreeBytes(s), 3, 3)
            else DecodeAt(s).taken <= 2 && !Whole(DecodeAt(s))
  {
    var lead := LeadOf(s[0]);
    var c := Payload(s[0], 3);
    if |s| >= 2 && Follows(lead, 1, s[1]) {
      assert DecodeAt(s) == DecodeFrom(s, lead, c * 64 + Low6(s[1]), 2);
      if |s| >= 3 && Tail(s[2]) {
        assert DecodeAt(s) == DecodeFrom(s, lead, (c * 64 + Low6(s[1])) * 64 + Low6(s[2]), 3);
      }
    }
  }

  lemma DecodesFour(s: seq<Byte>)
    requires s != [] && LeadOf(s[0]).length == 4
    ensures if |s| >= 4 && Follows(LeadOf(s[0]), 1, s[1]) && Tail(s[2]) && Tail(s[3])
            then DecodeAt(s) == Decoded(FourBytes(s), 4, 4)
            else DecodeAt(s).taken <= 3 && !Whole(DecodeAt(s))
  {
    var lead := LeadOf(s[0]);
    var c := Payload(s[0], 4);
    if |s| >= 2 && Follows(lead, 1, s[1]) {
      assert DecodeAt(s) == DecodeFrom(s, lead, c * 64 + Low6(s[1]), 2);
      if |s| >= 3 && Tail(s[2]) {
        var three := (c * 64 + Low6(s[1])) * 64 + Low6(s[2]);
        assert DecodeAt(s) == DecodeFrom(s, lead, three, 3);
        if |s| >= 4 && Tail(s[3]) {
          assert DecodeAt(s) == DecodeFrom(s, lead, three * 64 + Low6(s[3]), 4);
        }
      }
    }
  }

  lemma EncodedTwo(cp: nat, s: seq<Byte>)
    requires 0x80 <= cp < 0x800 && |s| >= 2 && s[..2] == Encode(cp)
    ensures LeadOf(s[0]).length == 2 && Tail(s[1]) && Payload(s[0], 2) * 64 + Low6(s[1]) == cp
  {
    assert s[0] == s[..2][0] && s[1] == s[..2][1];
  }

  lemma EncodedThree(cp: nat, s: seq<Byte>)
    requires 0x800 <= cp < 0x10000 && Scalar(cp) && |s| >= 3 && s[..3] == Encode(cp)
    ensures LeadOf(s[0]).length == 3 && Follows(LeadOf(s[0]), 1, s[1]) && Tail(s[2]) && ThreeBytes(s) == cp
  {
    assert s[0] == s[..3][0] && s[1] == s[..3][1] && s[2] == s[..3][2];
    assert s[0] == 0xE0 + cp / 4096 && s[1] == 0x80 + cp / 64 % 64 && s[2] == 0x80 + cp % 64;
    hide Encode;
    Digits(cp);
  }

  lemma LeadOfFour(b: Byte, a: nat)
    requires b == 0xF0 + a && a <= 4
    ensures LeadOf(b) == Lead(4, if a == 0 then 0x90 else 0x80, if a == 4 then 0x8F else 0xBF)
    ensures Payload(b, 4) == a
  {}

  lemma TailOf(b: Byte, d: nat)
    requires b == 0x80 + d && d < 64
    ensures Low6(b) == d && Tail(b)
  {}

  /** What the second byte may be beside the first. */
  lemma SecondOfFour(cp: nat)
    requires 0x10000 <= cp <= 0x10FFFF
    ensures cp / 262144 <= 4
    ensures cp / 262144 == 0 ==> cp / 4096 % 64 >= 16
    ensures cp / 262144 == 4 ==> cp / 4096 % 64 < 16
  {}

  lemma EncodedFour(cp: nat, s: seq<Byte>)
    requires 0x10000 <= cp && Scalar(cp) && |s| >= 4 && s[..4] == Encode(cp)
    ensures LeadOf(s[0]).length == 4 && Follows(LeadOf(s[0]), 1, s[1]) && Tail(s[2]) && Tail(s[3])
    ensures FourBytes(s) == cp
  {
    hide LeadOf, Payload, Low6, Tail;
    var a, b, c, d := cp / 262144, cp / 4096 % 64, cp / 64 % 64, cp % 64;
    assert s[0] == s[..4][0] && s[1] == s[..4][1] && s[2] == s[..4][2] && s[3] == s[..4][3];
    assert s[0] == 0xF0 + a && s[1] == 0x80 + b && s[2] == 0x80 + c && s[3] == 0x80 + d;
    hide Encode;
    SecondOfFour(cp);
    LeadOfFour(s[0], a);
    TailOf(s[1], b);
    TailOf(s[2], c);
    TailOf(s[3], d);
    Digits(cp);
  }

  /** A number in base 64. */
  lemma Digits(n: nat)
    ensures n == n / 64 * 64 + n % 64
    ensures n / 64 == n / 4096 * 64 + n / 64 % 64
    ensures n / 4096 == n / 262144 * 64 + n / 4096 % 64
  {
    assert n / 64 / 64 == n / 4096;
    assert n / 4096 / 64 == n / 262144;
  }

  /** Decoding inverts encoding, whatever follows. */
  lemma DecodesEncoded(cp: nat, rest: seq<Byte>)
    requires Scalar(cp)
    ensures DecodeAt(Encode(cp) + rest) == Decoded(cp, |Encode(cp)|, |Encode(cp)|)
  {
    var s := Encode(cp) + rest;
    var n := |Encode(cp)|;
    assert s[..n] == Encode(cp);
    hide DecodeAt, LeadOf, Payload, Low6, ThreeBytes, FourBytes, Follows, Tail;
    if cp < 0x80 {
      assert s[0] == s[..n][0] == cp;
      OneByteLeads(s[0]);
      DecodesOne(s);
    } else if cp < 0x800 {
      EncodedTwo(cp, s);
      DecodesTwo(s);
    } else if cp < 0x10000 {
      EncodedThree(cp, s);
      DecodesThree(s);
    } else {
      EncodedFour(cp, s);
      DecodesFour(s);
    }
  }

  lemma OneByteLeads(b: Byte)
    ensures LeadOf(b).length == 1 <==> b < 0x80
  {}

  /** And what decodes whole is an encoding: of the code point it decodes to, by the RFC's grammar. */
  lemma WholeIsEncoded(s: seq<Byte>)
    requires s != [] && Whole(DecodeAt(s))
    ensures var d := DecodeAt(s);
            Scalar(d.codePoint) && s[..d.taken] == Encode(d.codePoint) && Utf8Char(s[..d.taken])
  {
    var length := LeadOf(s[0]).length;
    if length == 1 {
      DecodesOne(s);
    } else if length == 2 {
      DecodesTwo(s);
    } else if length == 3 {
      DecodesThree(s);
      hide DecodeAt;
      WholeThree(s);
    } else if length == 4 {
      DecodesFour(s);
      hide DecodeAt;
      WholeFour(s);
    }
  }

  lemma WholeThree(s: seq<Byte>)
    requires |s| >= 3 && LeadOf(s[0]).length == 3 && Follows(LeadOf(s[0]), 1, s[1]) && Tail(s[2])
    ensures var cp := ThreeBytes(s);
            Scalar(cp) && s[..3] == Encode(cp) && Utf8Char(s[..3])
  {
    var a, b, c := Payload(s[0], 3), Low6(s[1]), Low6(s[2]);
    assert s[0] == 0xE0 + a && s[1] == 0x80 + b && s[2] == 0x80 + c;
    Undigits(0, a, b, c);
  }

  /** The four digits a whole sequence carries, and the bounds its second byte keeps. */
  lemma DigitsOfFour(s: seq<Byte>) returns (a: nat, b: nat, c: nat, d: nat)
    requires |s| >= 4 && LeadOf(s[0]).length == 4 && Follows(LeadOf(s[0]), 1, s[1]) && Tail(s[2]) && Tail(s[3])
    ensures a <= 4 && b < 64 && c < 64 && d < 64 && (a == 0 ==> b >= 16) && (a == 4 ==> b < 16)
    ensures s[0] == 0xF0 + a && s[1] == 0x80 + b && s[2] == 0x80 + c && s[3] == 0x80 + d
    ensures FourBytes(s) == ((a * 64 + b) * 64 + c) * 64 + d
  {
    hide Payload, Low6;
    a, b, c, d := s[0] - 0xF0, s[1] - 0x80, s[2] - 0x80, s[3] - 0x80;
    LeadOfFour(s[0], a);
    TailOf(s[1], b);
    TailOf(s[2], c);
    TailOf(s[3], d);
  }

  lemma WholeFour(s: seq<Byte>)
    requires |s| >= 4 && LeadOf(s[0]).length == 4 && Follows(LeadOf(s[0]), 1, s[1]) && Tail(s[2]) && Tail(s[3])
    ensures var cp := FourBytes(s);
            Scalar(cp) && s[..4] == Encode(cp) && Utf8Char(s[..4])
  {
    var a, b, c, d := DigitsOfFour(s);
    hide LeadOf, FourBytes;
    Undigits(a, b, c, d);
    assert s[..4] == [s[0], s[1], s[2], s[3]];
  }

  lemma Undigits(a: nat, b: nat, c: nat, d: nat)
    requires b < 64 && c < 64 && d < 64
    ensures var n := ((a * 64 + b) * 64 + c) * 64 + d;
            n / 262144 == a && n / 4096 % 64 == b && n / 64 % 64 == c && n % 64 == d
  {
    var y := a * 64 + b;
    var x := y * 64 + c;
    var n := x * 64 + d;
    OneDigit(x, d, n);
    OneDigit(y, c, x);
    OneDigit(a, b, y);
    Nested(n);
  }

  lemma OneDigit(x: nat, d: nat, n: nat)
    requires d < 64 && n == x * 64 + d
    ensures n / 64 == x && n % 64 == d
  {}

  lemma Nested(n: nat)
    ensures n / 4096 == n / 64 / 64 && n / 262144 == n / 64 / 64 / 64
  {
    Digits(n);
  }

  lemma CharDecodes(s: seq<Byte>)
    requires Utf8Char(s)
    ensures Whole(DecodeAt(s)) && DecodeAt(s).taken == |s|
  {
    if |s| == 1 {
      DecodesOne(s);
    } else if |s| == 2 {
      DecodesTwo(s);
    } else if |s| == 3 {
      DecodesThree(s);
      hide DecodeAt;
    } else {
      DecodesFour(s);
      hide DecodeAt;
    }
  }

  /** The decoder takes a whole sequence exactly where the grammar of section 4 of RFC 3629 has one. */
  lemma WholeIsRfc3629(s: seq<Byte>, n: nat)
    requires 1 <= n <= |s|
    ensures Whole(DecodeAt(s)) && DecodeAt(s).taken == n <==> Utf8Char(s[..n])
  {
    hide DecodeFrom, Utf8Char, Encode;
    if Whole(DecodeAt(s)) {
      WholeIsEncoded(s);
    }
    if Utf8Char(s[..n]) {
      CharDecodes(s[..n]);
      WholeIsEncoded(s[..n]);
      var cp := DecodeAt(s[..n]).codePoint;
      assert s[..n][..n] == s[..n];
      DecodesEncoded(cp, s[n..]);
      assert Encode(cp) + s[n..] == s;
      assert |Encode(cp)| == n;
    }
  }

  // --- What is taken of an ill-formed sequence ---

  lemma {:induction false} TakenFollow(s: seq<Byte>, lead: Lead, codePoint: nat, taken: nat)
    requires 1 <= taken <= |s|
    ensures var k := DecodeFrom(s, lead, codePoint, taken).taken;
            && (forall j :: taken <= j < k ==> Follows(lead, j, s[j]))
            && (k < |s| && k < lead.length ==> !Follows(lead, k, s[k]))
            && (k == |s| || k >= lead.length || !Follows(lead, k, s[k]))
    decreases |s| - taken
  {
    hide Follows;
    if taken < lead.length && taken < |s| && Follows(lead, taken, s[taken]) {
      TakenFollow(s, lead, codePoint * 64 + Low6(s[taken]), taken + 1);
    }
  }

  lemma CharFollows(t: seq<Byte>)
    ensures Utf8Char(t) <==>
              && t != [] && |t| == LeadOf(t[0]).length
              && forall j :: 1 <= j < |t| ==> Follows(LeadOf(t[0]), j, t[j])
  {
    if t != [] && |t| == LeadOf(t[0]).length && forall j :: 1 <= j < |t| ==> Follows(LeadOf(t[0]), j, t[j]) {
      assert |t| >= 2 ==> Follows(LeadOf(t[0]), 1, t[1]);
      assert |t| >= 3 ==> Follows(LeadOf(t[0]), 2, t[2]);
      assert |t| >= 4 ==> Follows(LeadOf(t[0]), 3, t[3]);
    }
  }

  function Filled(s: seq<Byte>, lead: Lead): (t: seq<Byte>)
    requires |s| <= lead.length
    ensures |t| == lead.length && s <= t
    ensures forall j :: |s| <= j < |t| ==> t[j] == if j == 1 then lead.low else 0x80
    decreases lead.length - |s|
  {
    if |s| == lead.length then s
    else Filled(s + [if |s| == 1 then lead.low else 0x80], lead)
  }

  lemma FilledFollows(s: seq<Byte>)
    requires s != [] && |s| <= LeadOf(s[0]).length
    requires forall j :: 1 <= j < |s| ==> Follows(LeadOf(s[0]), j, s[j])
    ensures Utf8Char(Filled(s, LeadOf(s[0])))
  {
    hide Utf8Char;
    var lead := LeadOf(s[0]);
    var t := Filled(s, lead);
    assert t[0] == s[0];
    forall j | 1 <= j < |t| ensures Follows(lead, j, t[j]) {
      if j < |s| {
        assert t[j] == s[j];
      }
    }
    CharFollows(t);
  }

  /** What is taken of an ill-formed sequence is its maximal part: it begins some well-formed one, unless
      no sequence begins with its first byte, and with one byte more no well-formed sequence begins. */
  lemma IllFormedPartIsMaximal(s: seq<Byte>)
    requires s != [] && !Whole(DecodeAt(s))
    ensures var d := DecodeAt(s);
            && (d.length == 0 ==> d.taken == 1)
            && (d.length > 0 ==> exists t :: Utf8Char(t) && s[..d.taken] <= t)
            && (d.taken < |s| ==> forall t :: Utf8Char(t) ==> !(s[..d.taken + 1] <= t))
  {
    hide Utf8Char, Follows;
    var lead := LeadOf(s[0]);
    var d := DecodeAt(s);
    var k := d.taken;
    TakenFollow(s, lead, Payload(s[0], lead.length), 1);
    if d.length > 0 {
      var part := s[..k];
      assert forall j :: 1 <= j < k ==> part[j] == s[j];
      FilledFollows(part);
    }
    if k < |s| {
      var more := s[..k + 1];
      assert more[0] == s[0] && more[k] == s[k];
      forall t | Utf8Char(t) ensures !(s[..k + 1] <= t) {
        CharFollows(t);
      }
    }
  }

  // --- Whole texts ---

  predicate Scalars(cps: seq<nat>) {
    forall i :: 0 <= i < |cps| ==> Scalar(cps[i])
  }

  function EncodeAll(cps: seq<nat>): seq<Byte>
    requires Scalars(cps)
  {
    if cps == [] then [] else Encode(cps[0]) + EncodeAll(cps[1..])
  }

  /** The code points of a text, if it is well-formed. */
  function CodePoints(s: seq<Byte>): (r: Option<seq<nat>>)
    decreases |s|
  {
    if s == [] then Some([])
    else
      var d := DecodeAt(s);
      var rest := CodePoints(s[d.taken..]);
      if Whole(d) && rest.Some? then Some([d.codePoint] + rest.value) else None
  }

  ghost predicate WellFormed(s: seq<Byte>) {
    exists cps :: Scalars(cps) && EncodeAll(cps) == s
  }

  lemma {:induction false} EncodedDecodes(cps: seq<nat>)
    requires Scalars(cps)
    ensures CodePoints(EncodeAll(cps)) == Some(cps)
    decreases |cps|
  {
    hide DecodeAt, Encode;
    if cps != [] {
      var rest := EncodeAll(cps[1..]);
      var s := Encode(cps[0]) + rest;
      EncodedDecodes(cps[1..]);
      DecodesEncoded(cps[0], rest);
      assert s[|Encode(cps[0])|..] == rest;
      assert [cps[0]] + cps[1..] == cps;
    }
  }

  lemma {:induction false} DecodedEncodes(s: seq<Byte>)
    requires CodePoints(s).Some?
    ensures Scalars(CodePoints(s).value) && EncodeAll(CodePoints(s).value) == s
    decreases |s|
  {
    hide DecodeAt, Encode, Utf8Char;
    if s != [] {
      var d := DecodeAt(s);
      var cps := CodePoints(s).value;
      WholeIsEncoded(s);
      DecodedEncodes(s[d.taken..]);
      assert cps[0] == d.codePoint && cps[1..] == CodePoints(s[d.taken..]).value;
      assert s == s[..d.taken] + s[d.taken..];
    }
  }

  /** A text decodes exactly when it is an encoding, and then to the one text it encodes. */
  lemma DecodesIffWellFormed(s: seq<Byte>)
    ensures CodePoints(s).Some? <==> WellFormed(s)
    ensures CodePoints(s).Some? ==>
              forall cps :: Scalars(cps) && EncodeAll(cps) == s ==> cps == CodePoints(s).value
  {
    forall cps | Scalars(cps) && EncodeAll(cps) == s ensures CodePoints(s) == Some(cps) {
      EncodedDecodes(cps);
    }
    if CodePoints(s).Some? {
      DecodedEncodes(s);
    }
  }

  lemma {:induction false} EncodeAllAppends(a: seq<nat>, b: seq<nat>)
    requires Scalars(a) && Scalars(b)
    ensures Scalars(a + b) && EncodeAll(a + b) == EncodeAll(a) + EncodeAll(b)
    decreases |a|
  {
    hide Encode;
    if a == [] {
      assert a + b == b;
    } else {
      EncodeAllAppends(a[1..], b);
      assert (a + b)[0] == a[0] && (a + b)[1..] == a[1..] + b;
    }
  }

  lemma EncodeAllOne(cp: nat)
    requires Scalar(cp)
    ensures EncodeAll([cp]) == Encode(cp)
  {
    hide Encode;
    assert [cp][1..] == [];
  }

  method Decode(s: seq<Byte>) returns (d: Decoded)
    requires s != []
    ensures d == DecodeAt(s)
  {
    var lead := LeadOf(s[0]);
    var codePoint: nat := Payload(s[0], lead.length);
    var taken := 1;
    while taken < lead.length && taken < |s|
      invariant 1 <= taken <= |s|
      invariant DecodeAt(s) == DecodeFrom(s, lead, codePoint, taken)
    {
      var next := s[taken];
      if next < (if taken == 1 then lead.low else 0x80) || next > (if taken == 1 then lead.high else 0xBF) {
        break;
      }
      codePoint := codePoint * 64 + Low6(next);
      taken := taken + 1;
    }
    return Decoded(codePoint, taken, lead.length);
  }
}
