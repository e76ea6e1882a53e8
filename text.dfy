/** The behaviour of the Go library calls that the core builds its text with:
    fmt's %d verb, strconv.Atoi, strings.ToUpper/ToLower, strings.Join, the
    byte length len(s) and the ordering `<` of Go strings. */
module Text {
  import opened Wrappers

  const MinInt64: int := -0x8000_0000_0000_0000
  const MaxInt64: int := 0x7fff_ffff_ffff_ffff

  predicate IsDigit(c: char) { '0' <= c <= '9' }

  predicate AllDigits(s: string) { forall i :: 0 <= i < |s| ==> IsDigit(s[i]) }

  function DigitChar(d: nat): (c: char)
    requires d < 10
    ensures IsDigit(c) && c as int - '0' as int == d
  {
    ('0' as int + d) as char
  }

  /** The decimal digits of n, most significant first, without leading zeros. */
  function NatToString(n: nat): string
    decreases n
  {
    if n < 10 then [DigitChar(n)] else NatToString(n / 10) + [DigitChar(n % 10)]
  }

  /** fmt.Sprintf("%d", i). */
  function FromInt(i: int): string
  {
    if i < 0 then "-" + NatToString(-i) else NatToString(i)
  }

  /** The number that a non-empty run of decimal digits denotes. */
  function DigitsValue(s: string): nat
    requires AllDigits(s)
  {
    if s == [] then 0 else DigitsValue(s[..|s| - 1]) * 10 + (s[|s| - 1] as int - '0' as int)
  }

  /** The syntax strconv.Atoi accepts: an optional sign and one or more
      decimal digits, nothing else; the value without the int64 range check. */
  function ParseDecimal(s: string): Option<int>
  {
    if |s| > 0 && (s[0] == '+' || s[0] == '-') then
      if |s| > 1 && AllDigits(s[1..]) then
        Some(if s[0] == '-' then 0 - DigitsValue(s[1..]) else DigitsValue(s[1..]))
      else None
    else if |s| > 0 && AllDigits(s) then Some(DigitsValue(s))
    else None
  }

  const MaxUint64: int := 0xffff_ffff_ffff_ffff

  /** What strconv reads after an optional leading sign. */
  function Magnitude(s: string): (u: string)
    ensures u == s || (|s| > 0 && (s[0] == '+' || s[0] == '-') && u == s[1..])
  {
    if |s| > 0 && (s[0] == '+' || s[0] == '-') then s[1..] else s
  }

  /** strconv.ParseUint's digit loop: reading the digits of s after the value
      acc read so far, it stops with a range error as soon as the value no
      longer fits 64 bits, before it looks at what follows. */
  predicate OverflowsFrom(s: string, acc: nat)
    decreases |s|
  {
    acc > MaxUint64 || (|s| > 0 && IsDigit(s[0]) && OverflowsFrom(s[1..], acc * 10 + (s[0] as int - '0' as int)))
  }

  /** The digit run after the sign overflows 64 bits, even when a non-digit
      comes after it. */
  predicate Overflows(s: string)
  {
    OverflowsFrom(Magnitude(s), 0)
  }

  /** strconv.Atoi(s) as the pair (value, err == nil). A digit run that
      overflows 64 bits gives the int64 bound of the sign with an error, even
      with text after it; otherwise a syntax error gives 0, and a well-formed
      value outside int64 gives the nearest bound with an error. */
  function Atoi(s: string): (r: (int, bool))
    ensures r.1 <==> ParseDecimal(s).Some? && MinInt64 <= ParseDecimal(s).value <= MaxInt64
    ensures r.1 ==> r.0 == ParseDecimal(s).value
    ensures MinInt64 <= r.0 <= MaxInt64
  {
    if Overflows(s) then
      OverflowOutOfRange(s);
      (if |s| > 0 && s[0] == '-' then MinInt64 else MaxInt64, false)
    else
      match ParseDecimal(s)
      case None => (0, false)
      case Some(v) =>
        if v > MaxInt64 then (MaxInt64, false)
        else if v < MinInt64 then (MinInt64, false)
        else (v, true)
  }

  /** The value Atoi gives with an error: the bound of the sign for a digit run
      that overflows 64 bits, 0 for any other syntax error, and the nearest
      bound for a well-formed decimal outside int64. */
  lemma AtoiErrorValue(s: string)
    ensures Overflows(s) ==> !Atoi(s).1 && Atoi(s).0 == (if |s| > 0 && s[0] == '-' then MinInt64 else MaxInt64)
    ensures ParseDecimal(s).None? && !Overflows(s) ==> Atoi(s).0 == 0
    ensures ParseDecimal(s).Some? && !Atoi(s).1 ==> Atoi(s).0 == (if ParseDecimal(s).value < 0 then MinInt64 else MaxInt64)
  {
  }

  /** An overflowing digit run is at least 20 digits long, so a line shorter
      than that never reads as an int64 bound unless it spells one. */
  lemma OverflowIsLong(s: string)
    requires Overflows(s)
    ensures |s| >= 20
  {
    OverflowNeedsDigits(Magnitude(s), 0, 0);
  }

  /** From a value below 10^k, the loop needs 20 - k more digits to overflow. */
  lemma {:induction false} OverflowNeedsDigits(s: string, acc: nat, k: nat)
    requires acc < Pow10(k) && OverflowsFrom(s, acc)
    ensures k + |s| >= 20
    decreases |s|
  {
    if acc > MaxUint64 {
      if k < 20 {
        Pow10Monotone(k, 19);
        Pow10Nineteen();
      }
    } else {
      var d := s[0] as int - '0' as int;
      assert acc * 10 + d < Pow10(k + 1);
      OverflowNeedsDigits(s[1..], acc * 10 + d, k + 1);
    }
  }

  lemma Pow10Nineteen()
    ensures Pow10(19) == 10_000_000_000_000_000_000
  {
    assert Pow10(4) == 10_000;
    assert Pow10(8) == 100_000_000;
    assert Pow10(12) == 1_000_000_000_000;
    assert Pow10(16) == 10_000_000_000_000_000;
  }

  /** A well-formed decimal whose digit run overflows 64 bits is outside int64
      as well. */
  lemma OverflowOutOfRange(s: string)
    requires Overflows(s)
    ensures ParseDecimal(s).Some? ==> ParseDecimal(s).value < MinInt64 || MaxInt64 < ParseDecimal(s).value
  {
    if ParseDecimal(s).Some? {
      OverflowValue(Magnitude(s), 0);
    }
  }

  /** What the loop overflows on is the value of all the digits read. */
  lemma {:induction false} OverflowValue(s: string, acc: nat)
    requires AllDigits(s) && OverflowsFrom(s, acc)
    ensures acc * Pow10(|s|) + DigitsValue(s) > MaxUint64
    decreases |s|
  {
    var p := Pow10(|s|);
    if acc > MaxUint64 {
      Scale(acc, 0, p);
    } else {
      var d := s[0] as int - '0' as int;
      OverflowValue(s[1..], acc * 10 + d);
      DigitsValueFront(s);
      Scale(acc, d, Pow10(|s| - 1));
    }
  }

  lemma Scale(a: nat, d: nat, p: nat)
    requires p >= 1
    ensures (a * 10 + d) * p == a * (10 * p) + d * p
    ensures a * p >= a
  {
  }

  /** The value of a digit run, read from the front. */
  lemma {:induction false} DigitsValueFront(s: string)
    requires |s| > 0 && AllDigits(s)
    ensures DigitsValue(s) == (s[0] as int - '0' as int) * Pow10(|s| - 1) + DigitsValue(s[1..])
    decreases |s|
  {
    var n := |s|;
    if n > 1 {
      var init := s[..n - 1];
      DigitsValueFront(init);
      assert init[1..] == s[1..n - 1] == s[1..][..n - 2];
      var d := s[0] as int - '0' as int;
      assert d * Pow10(n - 1) == d * Pow10(n - 2) * 10;
    }
  }

  function Pow10(n: nat): (p: nat)
    ensures p >= 1
  {
    if n == 0 then 1 else 10 * Pow10(n - 1)
  }

  lemma {:induction false} Pow10Monotone(m: nat, n: nat)
    requires m <= n
    ensures Pow10(m) <= Pow10(n)
    decreases n - m
  {
    if m < n {
      Pow10Monotone(m + 1, n);
    }
  }

  lemma {:induction false} NatToStringDigits(n: nat)
    ensures |NatToString(n)| > 0 && AllDigits(NatToString(n))
    ensures DigitsValue(NatToString(n)) == n
    decreases n
  {
    if n >= 10 {
      NatToStringDigits(n / 10);
      var s := NatToString(n / 10) + [DigitChar(n % 10)];
      assert s[..|s| - 1] == NatToString(n / 10);
    }
  }

  /** Atoi reads back what %d writes: the rendering is a faithful code. */
  lemma ParseFromInt(i: int)
    ensures ParseDecimal(FromInt(i)) == Some(i)
    ensures forall k :: 0 <= k < |FromInt(i)| ==> FromInt(i)[k] == '-' || IsDigit(FromInt(i)[k])
  {
    NatToStringDigits(if i < 0 then -i else i);
    if i < 0 {
      assert FromInt(i)[1..] == NatToString(-i);
    }
  }

  /** Distinct numbers render as distinct text. */
  lemma FromIntInjective(a: int, b: int)
    requires FromInt(a) == FromInt(b)
    ensures a == b
  {
    ParseFromInt(a);
    ParseFromInt(b);
  }

  lemma AtoiFromInt(i: int)
    requires MinInt64 <= i <= MaxInt64
    ensures Atoi(FromInt(i)) == (i, true)
  {
    ParseFromInt(i);
  }

  function UpperChar(c: char): char
  {
    if 'a' <= c <= 'z' then (c as int - 32) as char else c
  }

  function LowerChar(c: char): char
  {
    if 'A' <= c <= 'Z' then (c as int + 32) as char else c
  }

  /** strings.ToUpper on the ASCII letters; every other character is left as
      it is, where Go would also map non-ASCII letters through
      unicode.ToUpper. */
  function ToUpper(s: string): (r: string)
    ensures |r| == |s| && forall i :: 0 <= i < |s| ==> r[i] == UpperChar(s[i])
  {
    seq(|s|, i requires 0 <= i < |s| => UpperChar(s[i]))
  }

  /** strings.ToLower on the ASCII letters; every other character is left as
      it is, where Go would also map non-ASCII letters through
      unicode.ToLower. */
  function ToLower(s: string): (r: string)
    ensures |r| == |s| && forall i :: 0 <= i < |s| ==> r[i] == LowerChar(s[i])
  {
    seq(|s|, i requires 0 <= i < |s| => LowerChar(s[i]))
  }

  /** Go's `a < b` on strings. Go compares the UTF-8 bytes; for Unicode
      scalar values that order is the order of the code points. */
  predicate LexLess(a: string, b: string)
    decreases |a|
  {
    if |a| == 0 then |b| > 0
    else if |b| == 0 then false
    else if a[0] != b[0] then a[0] < b[0]
    else LexLess(a[1..], b[1..])
  }

  lemma {:induction false} LexLessAsymmetric(a: string, b: string)
    ensures LexLess(a, b) ==> !LexLess(b, a)
    decreases |a|
  {
    if |a| > 0 && |b| > 0 && a[0] == b[0] {
      LexLessAsymmetric(a[1..], b[1..]);
    }
  }

  lemma {:induction false} LexTrichotomy(a: string, b: string)
    ensures a == b || LexLess(a, b) || LexLess(b, a)
    decreases |a|
  {
    if |a| > 0 && |b| > 0 && a[0] == b[0] {
      LexTrichotomy(a[1..], b[1..]);
      if a[1..] == b[1..] {
        assert a == [a[0]] + a[1..] && b == [b[0]] + b[1..];
      }
    }
  }

  lemma {:induction false} LexLessTransitive(a: string, b: string, c: string)
    requires LexLess(a, b) && LexLess(b, c)
    ensures LexLess(a, c)
    decreases |a|
  {
    if |a| > 0 && a[0] == b[0] && b[0] == c[0] {
      LexLessTransitive(a[1..], b[1..], c[1..]);
    }
  }

  /** "Not after" is transitive: the ordering sort.Slice needs of its less. */
  lemma LexNotAfterTransitive(a: string, b: string, c: string)
    requires !LexLess(b, a) && !LexLess(c, b)
    ensures !LexLess(c, a)
  {
    LexTrichotomy(a, b);
    LexTrichotomy(b, c);
    if LexLess(a, b) && LexLess(b, c) {
      LexLessTransitive(a, b, c);
    }
    LexLessAsymmetric(a, c);
  }

  /** The number of bytes of c in UTF-8. */
  function RuneLen(c: char): nat
  {
    if c as int < 0x80 then 1 else if c as int < 0x800 then 2 else if c as int < 0x10000 then 3 else 4
  }

  /** Go's len(s): the length of s in UTF-8 bytes. */
  function Utf8Len(s: string): nat
  {
    if s == [] then 0 else Utf8Len(s[..|s| - 1]) + RuneLen(s[|s| - 1])
  }

  /** A string counts at least one byte per character, and exactly one for ASCII. */
  lemma {:induction false} Utf8LenBounds(s: string)
    ensures |s| <= Utf8Len(s) <= 4 * |s|
    ensures (forall i :: 0 <= i < |s| ==> s[i] as int < 0x80) ==> Utf8Len(s) == |s|
  {
    if s != [] {
      Utf8LenBounds(s[..|s| - 1]);
    }
  }

  /** strings.Join. */
  function Join(parts: seq<string>, sep: string): string
  {
    if |parts| == 0 then ""
    else if |parts| == 1 then parts[0]
    else Join(parts[..|parts| - 1], sep) + sep + parts[|parts| - 1]
  }

  /** The pieces of s between the occurrences of sep (strings.Split). */
  function Split(s: string, sep: char): (r: seq<string>)
    ensures |r| > 0
    decreases |s|
  {
    if sep !in s then [s]
    else
      var i := FirstIndex(s, sep);
      [s[..i]] + Split(s[i + 1..], sep)
  }

  function FirstIndex(s: string, c: char): (i: nat)
    requires c in s
    ensures i < |s| && s[i] == c && c !in s[..i]
  {
    if s[0] == c then 0 else 1 + FirstIndex(s[1..], c)
  }

  /** Splitting at a separator that the head does not contain. */
  lemma SplitAfter(head: string, sep: char, rest: string)
    requires sep !in head
    ensures Split(head + [sep] + rest, sep) == [head] + Split(rest, sep)
  {
    var s := head + [sep] + rest;
    assert s[|head|] == sep;
    assert s[..|head|] == head;
    var i := FirstIndex(s, sep);
    assert i == |head|;
    assert s[..i] == head && s[i + 1..] == rest;
  }

  /** Each token followed by the separator. */
  function Terminated(tokens: seq<string>, sep: char): string
  {
    if tokens == [] then "" else tokens[0] + [sep] + Terminated(tokens[1..], sep)
  }

  /** Splitting separator-terminated tokens gives back the tokens, then the
      empty text after the last separator. */
  lemma {:induction false} SplitTerminated(tokens: seq<string>, sep: char)
    requires forall k :: 0 <= k < |tokens| ==> sep !in tokens[k]
    ensures Split(Terminated(tokens, sep), sep) == tokens + [""]
    decreases |tokens|
  {
    if tokens == [] {
      assert sep !in "";
    } else {
      SplitTerminated(tokens[1..], sep);
      SplitStep(Terminated(tokens, sep), tokens[0], Terminated(tokens[1..], sep), sep, tokens[1..]);
      assert [tokens[0]] + tokens[1..] == tokens;
    }
  }

  lemma SplitStep(s: string, head: string, rest: string, sep: char, later: seq<string>)
    requires sep !in head && s == head + [sep] + rest
    requires Split(rest, sep) == later + [""]
    ensures Split(s, sep) == [head] + later + [""]
  {
    SplitAfter(head, sep, rest);
  }
}
