/** Splitting, joining and printing text. */
module Text {
  import opened Wrappers

  /** The pieces of `s` between separators; always at least one. */
  function Split(s: string, sep: char): (parts: seq<string>)
    ensures |parts| >= 1
    ensures forall i :: 0 <= i < |parts| ==> sep !in parts[i]
  {
    if s == "" then [""]
    else
      Prepend(s[0], Split(s[1..], sep), sep)
  }

  function Join(parts: seq<string>, sep: char): string
    requires |parts| >= 1
  {
    if |parts| == 1 then parts[0] else parts[0] + [sep] + Join(parts[1..], sep)
  }

  /** Putting one more character in front of already split text. */
  function Prepend(c: char, parts: seq<string>, sep: char): seq<string>
    requires |parts| >= 1
  {
    if c == sep then [""] + parts else [[c] + parts[0]] + parts[1..]
  }

  lemma PrependConcat(c: char, xs: seq<string>, ys: seq<string>, sep: char)
    requires |xs| >= 1
    ensures Prepend(c, xs + ys, sep) == Prepend(c, xs, sep) + ys
  {
    assert (xs + ys)[1..] == xs[1..] + ys;
  }

  lemma {:induction false} SplitConcat(a: string, b: string, sep: char)
    ensures Split(a + [sep] + b, sep) == Split(a, sep) + Split(b, sep)
  {
    var s := a + [sep] + b;
    if a == "" {
      assert s[1..] == b;
    } else {
      SplitConcat(a[1..], b, sep);
      assert s[1..] == a[1..] + [sep] + b;
      PrependConcat(a[0], Split(a[1..], sep), Split(b, sep), sep);
    }
  }

  lemma {:induction false} SplitWhole(s: string, sep: char)
    requires sep !in s
    ensures Split(s, sep) == [s]
  {
    if s != "" {
      SplitWhole(s[1..], sep);
      assert [s[0]] + s[1..] == s;
    }
  }

  lemma {:induction false} SplitJoin(parts: seq<string>, sep: char)
    requires |parts| >= 1 && forall i :: 0 <= i < |parts| ==> sep !in parts[i]
    ensures Split(Join(parts, sep), sep) == parts
  {
    SplitWhole(parts[0], sep);
    if |parts| > 1 {
      SplitJoin(parts[1..], sep);
      SplitConcat(parts[0], Join(parts[1..], sep), sep);
    }
  }

  lemma {:induction false} JoinSplit(s: string, sep: char)
    ensures Join(Split(s, sep), sep) == s
  {
    if s != "" {
      var rest := Split(s[1..], sep);
      JoinSplit(s[1..], sep);
      assert s == [s[0]] + s[1..];
      if s[0] == sep {
        assert ([""] + rest)[1..] == rest;
      } else {
        assert ([[s[0]] + rest[0]] + rest[1..])[1..] == rest[1..];
      }
    }
  }

  /// ## ASCII classes

  predicate IsDigit(c: char) {
    '0' <= c <= '9'
  }

  predicate IsLower(c: char) {
    'a' <= c <= 'z'
  }

  predicate IsUpper(c: char) {
    'A' <= c <= 'Z'
  }

  predicate IsAlpha(c: char) {
    IsLower(c) || IsUpper(c)
  }

  function Upper(c: char): char {
    if IsLower(c) then (c as int - 'a' as int + 'A' as int) as char else c
  }

  function UpperAll(s: string): (r: string)
    ensures |r| == |s|
    ensures forall i :: 0 <= i < |s| ==> r[i] == Upper(s[i])
  {
    seq(|s|, i requires 0 <= i < |s| => Upper(s[i]))
  }

  /** How many leading characters are in the class. */
  function Span(s: string, inClass: char -> bool): (n: nat)
    ensures n <= |s|
    ensures forall i :: 0 <= i < n ==> inClass(s[i])
    ensures n < |s| ==> !inClass(s[n])
  {
    if s != "" && inClass(s[0]) then 1 + Span(s[1..], inClass) else 0
  }

  lemma {:induction false} SpanIs(s: string, inClass: char -> bool, n: nat)
    requires n <= |s| && (forall i :: 0 <= i < n ==> inClass(s[i])) && (n < |s| ==> !inClass(s[n]))
    ensures Span(s, inClass) == n
  {
    if n > 0 {
      SpanIs(s[1..], inClass, n - 1);
    }
  }

  /// ## Searching and trimming

  /** Where `c` first occurs in `s`, or the length of `s`. */
  function Index(s: string, c: char): (i: nat)
    ensures i <= |s| && c !in s[..i]
    ensures i < |s| ==> s[i] == c
  {
    if s == "" || s[0] == c then 0 else 1 + Index(s[1..], c)
  }

  lemma {:induction false} IndexAfter(a: string, c: char, rest: string)
    requires c !in a
    ensures Index(a + ([c] + rest), c) == |a|
  {
    var s := a + ([c] + rest);
    if a == "" {
      assert s[0] == c;
    } else {
      IndexAfter(a[1..], c, rest);
      assert s[1..] == a[1..] + ([c] + rest);
    }
  }

  /** Unicode's White_Space property. */
  predicate IsWhitespace(c: char) {
    || '\U{0009}' <= c <= '\U{000D}' || c == ' ' || c == '\U{0085}' || c == '\U{00A0}' || c == '\U{1680}'
    || '\U{2000}' <= c <= '\U{200A}' || c == '\U{2028}' || c == '\U{2029}' || c == '\U{202F}' || c == '\U{205F}'
    || c == '\U{3000}'
  }

  function TrimStart(s: string): string {
    if s != "" && IsWhitespace(s[0]) then TrimStart(s[1..]) else s
  }

  function TrimEnd(s: string): string {
    if s != "" && IsWhitespace(s[|s| - 1]) then TrimEnd(s[..|s| - 1]) else s
  }

  function Trim(s: string): string {
    TrimEnd(TrimStart(s))
  }

  lemma {:induction false} TrimStartBefore(s: string, t: string)
    requires t != "" && !IsWhitespace(t[0])
    ensures TrimStart(s + t) == TrimStart(s) + t
  {
    if s == "" {
      assert s + t == t;
    } else if IsWhitespace(s[0]) {
      TrimStartBefore(s[1..], t);
      assert (s + t)[1..] == s[1..] + t;
    }
  }

  lemma {:induction false} TrimEndAfter(t: string, s: string)
    requires t != "" && !IsWhitespace(t[|t| - 1])
    ensures TrimEnd(t + s) == t + TrimEnd(s)
  {
    if s == "" {
      assert t + s == t;
    } else if IsWhitespace(s[|s| - 1]) {
      TrimEndAfter(t, s[..|s| - 1]);
      assert (t + s)[..|t + s| - 1] == t + s[..|s| - 1];
    }
  }

  /** Unicode's White_Space by number, and the ASCII letters and digits. */
  lemma CharactersAre(c: char)
    ensures IsWhitespace(c) <==>
              c as int in {9, 10, 11, 12, 13, 32, 0x85, 0xA0, 0x1680, 0x2000, 0x2001, 0x2002, 0x2003, 0x2004, 0x2005,
                           0x2006, 0x2007, 0x2008, 0x2009, 0x200A, 0x2028, 0x2029, 0x202F, 0x205F, 0x3000}
    ensures IsDigit(c) <==> 48 <= c as int <= 57
    ensures IsUpper(c) <==> 65 <= c as int <= 90
    ensures IsLower(c) <==> 97 <= c as int <= 122
    ensures IsAlpha(c) <==> 65 <= c as int <= 90 || 97 <= c as int <= 122
    ensures Upper(c) as int == if 97 <= c as int <= 122 then c as int - 32 else c as int
  {}

  predicate AllBlank(s: string) {
    forall i :: 0 <= i < |s| ==> IsWhitespace(s[i])
  }

  lemma {:induction false} TrimBlank(s: string)
    requires AllBlank(s)
    ensures Trim(s) == ""
  {
    if s != "" {
      TrimBlank(s[1..]);
    }
  }

  lemma {:induction false} TrimEndBlank(t: string, b: string)
    requires AllBlank(b) && t != "" && !IsWhitespace(t[|t| - 1])
    ensures TrimEnd(t + b) == t
  {
    if b == "" {
      assert t + b == t;
    } else {
      assert (t + b)[..|t + b| - 1] == t + b[..|b| - 1];
      TrimEndBlank(t, b[..|b| - 1]);
    }
  }

  lemma {:induction false} TrimStartBlank(a: string, t: string)
    requires AllBlank(a) && t != "" && !IsWhitespace(t[0])
    ensures TrimStart(a + t) == t
  {
    if a == "" {
      assert a + t == t;
    } else {
      assert (a + t)[1..] == a[1..] + t;
      TrimStartBlank(a[1..], t);
    }
  }

  /** No blanks at either end. */
  predicate IsTrimmed(t: string) {
    t != "" ==> !IsWhitespace(t[0]) && !IsWhitespace(t[|t| - 1])
  }

  /** Trimming takes exactly the blanks around a text. */
  lemma TrimTakesBlanks(a: string, t: string, b: string)
    requires AllBlank(a) && AllBlank(b) && IsTrimmed(t)
    ensures Trim(a + (t + b)) == t
  {
    if t == "" {
      assert AllBlank(a + (t + b));
      TrimBlank(a + (t + b));
    } else {
      TrimStartBlank(a, t + b);
      TrimEndBlank(t, b);
    }
  }

  /// ## Decimal numbers

  predicate AllDigits(s: string) {
    forall i :: 0 <= i < |s| ==> IsDigit(s[i])
  }

  function DigitOf(c: char): nat
    requires IsDigit(c)
  {
    c as int - '0' as int
  }

  function Decimal(n: nat): (s: string)
    ensures AllDigits(s) && |s| >= 1 && (n > 0 ==> s[0] != '0') && (n == 0 ==> s == "0")
  {
    var last := [('0' as int + n % 10) as char];
    if n < 10 then last else Decimal(n / 10) + last
  }

  function DecimalValue(s: string): nat
    requires AllDigits(s)
  {
    if s == "" then 0 else 10 * DecimalValue(s[..|s| - 1]) + DigitOf(s[|s| - 1])
  }

  lemma {:induction false} DecimalRoundTrip(n: nat)
    ensures DecimalValue(Decimal(n)) == n
  {
    var s := Decimal(n);
    if n < 10 {
      assert s[..0] == "";
    } else {
      DecimalRoundTrip(n / 10);
      assert s[..|s| - 1] == Decimal(n / 10);
    }
  }

  lemma {:induction false} LeadingZeros(zeros: string, n: nat)
    requires forall i :: 0 <= i < |zeros| ==> zeros[i] == '0'
    ensures AllDigits(zeros + Decimal(n)) && DecimalValue(zeros + Decimal(n)) == n
  {
    var s := zeros + Decimal(n);
    if n >= 10 {
      LeadingZeros(zeros, n / 10);
      assert s[..|s| - 1] == zeros + Decimal(n / 10);
    } else {
      ZerosAreZero(zeros);
      assert s[..|s| - 1] == zeros;
    }
  }

  lemma {:induction false} ZerosAreZero(zeros: string)
    requires forall i :: 0 <= i < |zeros| ==> zeros[i] == '0'
    ensures DecimalValue(zeros) == 0
  {
    if zeros != "" {
      ZerosAreZero(zeros[..|zeros| - 1]);
    }
  }

  /** Digits are always zeros and the number they stand for. */
  lemma {:induction false} DigitsAre(s: string) returns (zeros: string)
    requires s != "" && AllDigits(s)
    ensures forall i :: 0 <= i < |zeros| ==> zeros[i] == '0'
    ensures s == zeros + Decimal(DecimalValue(s))
  {
    var front, last := s[..|s| - 1], s[|s| - 1];
    assert DecimalValue(s) == 10 * DecimalValue(front) + DigitOf(last);
    assert s == front + [last];
    if front == "" {
      zeros := "";
    } else {
      zeros := DigitsAre(front);
      if DecimalValue(front) == 0 {
        zeros := front;
      }
    }
  }

  /** An unsigned integer below `bound`, if `s` is one in decimal. */
  function ParseBelow(s: string, bound: nat): Option<nat> {
    if s != "" && AllDigits(s) && DecimalValue(s) < bound then Some(DecimalValue(s)) else None
  }

  /** Accepted is what stands for a number below the bound, with any leading zeros. */
  lemma ParseBelowIs(s: string, bound: nat, n: nat)
    ensures ParseBelow(s, bound) == Some(n) <==> n < bound && exists zeros: string :: IsPadded(s, zeros, n)
  {
    if ParseBelow(s, bound) == Some(n) {
      var zeros := DigitsAre(s);
      assert IsPadded(s, zeros, n);
    }
    if exists zeros: string :: IsPadded(s, zeros, n) {
      var zeros: string :| IsPadded(s, zeros, n);
      LeadingZeros(zeros, n);
    }
  }

  predicate IsPadded(s: string, zeros: string, n: nat) {
    s == zeros + Decimal(n) && forall i :: 0 <= i < |zeros| ==> zeros[i] == '0'
  }
}
