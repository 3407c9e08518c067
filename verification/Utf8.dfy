/** Well-formed UTF-8 byte sequences (table 3-7 of the Unicode Standard). A byte is a
    character below 256, so that ASCII text is its own encoding; no other character is
    part of a well-formed sequence. */
module Utf8 {
  predicate In(c: char, low: int, high: int) {
    low <= c as int <= high
  }

  predicate Continues(s: string, n: nat) {
    n < |s| && In(s[n], 0x80, 0xBF)
  }

  /** The length of the well-formed sequence `s` starts with, or 0. */
  function LeadLength(s: string): (n: nat)
    ensures n <= |s| && n <= 4
  {
    if s == "" then 0
    else if In(s[0], 0x00, 0x7F) then 1
    else if In(s[0], 0xC2, 0xDF) then (if Continues(s, 1) then 2 else 0)
    else if In(s[0], 0xE0, 0xEF) then
      (if Continues(s, 1) && Continues(s, 2)
          && (s[0] as int == 0xE0 ==> In(s[1], 0xA0, 0xBF)) && (s[0] as int == 0xED ==> In(s[1], 0x80, 0x9F))
       then 3 else 0)
    else if In(s[0], 0xF0, 0xF4) then
      (if Continues(s, 1) && Continues(s, 2) && Continues(s, 3)
          && (s[0] as int == 0xF0 ==> In(s[1], 0x90, 0xBF)) && (s[0] as int == 0xF4 ==> In(s[1], 0x80, 0x8F))
       then 4 else 0)
    else 0
  }

  predicate Valid(s: string)
    decreases |s|
  {
    s == "" || (LeadLength(s) > 0 && Valid(s[LeadLength(s)..]))
  }

  lemma {:induction false} ConcatValid(a: string, b: string)
    requires Valid(a)
    ensures Valid(a + b) <==> Valid(b)
    decreases |a|
  {
    if a == "" {
      assert a + b == b;
    } else {
      var n := LeadLength(a);
      assert LeadLength(a + b) == n;
      assert (a + b)[n..] == a[n..] + b;
      ConcatValid(a[n..], b);
    }
  }

  lemma {:induction false} AsciiValid(s: string)
    requires forall i :: 0 <= i < |s| ==> s[i] as int < 0x80
    ensures Valid(s)
  {
    if s != "" {
      AsciiValid(s[1..]);
    }
  }

  /// ## Exactly the encoded text

  /** The scalar values of Unicode. */
  predicate IsScalar(n: int) {
    0 <= n <= 0x10FFFF && !(0xD800 <= n <= 0xDFFF)
  }

  function Byte(n: int): char
    requires 0 <= n < 256
  {
    n as char
  }

  function Encode(n: int): (s: string)
    requires IsScalar(n)
    ensures 1 <= |s| <= 4
  {
    if n < 0x80 then [Byte(n)]
    else if n < 0x800 then [Byte(0xC0 + n / 64), Byte(0x80 + n % 64)]
    else if n < 0x1_0000 then [Byte(0xE0 + n / 64 / 64), Byte(0x80 + n / 64 % 64), Byte(0x80 + n % 64)]
    else [Byte(0xF0 + n / 64 / 64 / 64), Byte(0x80 + n / 64 / 64 % 64), Byte(0x80 + n / 64 % 64), Byte(0x80 + n % 64)]
  }

  function EncodeAll(ns: seq<int>): string
    requires forall i :: 0 <= i < |ns| ==> IsScalar(ns[i])
  {
    if ns == [] then "" else Encode(ns[0]) + EncodeAll(ns[1..])
  }

  lemma EncodedIsLead(n: int, rest: string)
    requires IsScalar(n)
    ensures LeadLength(Encode(n) + rest) == |Encode(n)|
  {}

  /** The bits a continuation byte adds. */
  function Sextet(n: int, c: char): int {
    n * 64 + (c as int - 0x80)
  }

  function Decode(s: string): int
    requires LeadLength(s) > 0
  {
    var n := LeadLength(s);
    if n == 1 then s[0] as int
    else if n == 2 then Sextet(s[0] as int - 0xC0, s[1])
    else if n == 3 then Sextet(Sextet(s[0] as int - 0xE0, s[1]), s[2])
    else Sextet(Sextet(Sextet(s[0] as int - 0xF0, s[1]), s[2]), s[3])
  }

  lemma SextetSplits(n: nat, c: char)
    requires In(c, 0x80, 0xBF)
    ensures Sextet(n, c) / 64 == n && Sextet(n, c) % 64 == c as int - 0x80
  {}

  lemma LeadIsEncoded(s: string)
    requires LeadLength(s) > 0
    ensures IsScalar(Decode(s)) && Encode(Decode(s)) == s[..LeadLength(s)]
  {
    match LeadLength(s)
    case 1 =>
    case 2 => TwoBytes(s);
    case 3 => ThreeBytes(s);
    case _ => FourBytes(s);
  }

  lemma TwoBytes(s: string)
    requires LeadLength(s) == 2
    ensures IsScalar(Decode(s)) && Encode(Decode(s)) == s[..2]
  {
    SextetSplits(s[0] as int - 0xC0, s[1]);
  }

  lemma ThreeBytes(s: string)
    requires LeadLength(s) == 3
    ensures IsScalar(Decode(s)) && Encode(Decode(s)) == s[..3]
  {
    var a := Sextet(s[0] as int - 0xE0, s[1]);
    SextetSplits(s[0] as int - 0xE0, s[1]);
    SextetSplits(a, s[2]);
    assert Decode(s) / 64 == a;
  }

  lemma FourBytes(s: string)
    requires LeadLength(s) == 4
    ensures IsScalar(Decode(s)) && Encode(Decode(s)) == s[..4]
  {
    var a := Sextet(s[0] as int - 0xF0, s[1]);
    var b := Sextet(a, s[2]);
    SextetSplits(s[0] as int - 0xF0, s[1]);
    SextetSplits(a, s[2]);
    SextetSplits(b, s[3]);
    assert Decode(s) / 64 == b && b / 64 == a;
  }

  lemma {:induction false} EncodedIsValid(ns: seq<int>)
    requires forall i :: 0 <= i < |ns| ==> IsScalar(ns[i])
    ensures Valid(EncodeAll(ns))
  {
    hide LeadLength;
    hide Encode;
    if ns != [] {
      EncodedIsValid(ns[1..]);
      EncodedIsLead(ns[0], EncodeAll(ns[1..]));
      assert EncodeAll(ns)[|Encode(ns[0])|..] == EncodeAll(ns[1..]);
    }
  }

  lemma {:induction false} ValidIsEncoded(s: string) returns (ns: seq<int>)
    requires Valid(s)
    ensures forall i :: 0 <= i < |ns| ==> IsScalar(ns[i])
    ensures EncodeAll(ns) == s
    decreases |s|
  {
    hide LeadLength;
    hide Encode;
    hide Decode;
    if s == "" {
      ns := [];
    } else {
      var n := LeadLength(s);
      var rest := ValidIsEncoded(s[n..]);
      LeadIsEncoded(s);
      ns := [Decode(s)] + rest;
      assert s[..n] + s[n..] == s;
    }
  }

  ghost predicate IsEncoding(s: string, ns: seq<int>) {
    (forall i :: 0 <= i < |ns| ==> IsScalar(ns[i])) && EncodeAll(ns) == s
  }

  /** Valid are exactly the encodings of sequences of scalar values. */
  lemma ValidIffEncoded(s: string)
    ensures Valid(s) <==> exists ns :: IsEncoding(s, ns)
  {
    if Valid(s) {
      var ns := ValidIsEncoded(s);
      assert IsEncoding(s, ns);
    }
    if ns :| IsEncoding(s, ns) {
      EncodedIsValid(ns);
    }
  }
}
