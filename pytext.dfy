/**
 * The Python string built-ins the teletext code relies on, with the
 * semantics of CPython restricted to ASCII digits:
 * `str.isdigit`, `int(s)`, `str(n)`, `s.split(' ')`, `s.strip(chars)`,
 * `sub in s`, and the digit filter `''.join(c for c in s if c.isdigit())`.
 */
module PyText {
  import opened Wrappers

  predicate IsDigitChar(c: char) {
    '0' <= c <= '9'
  }

  /** All characters are digits (the empty string included). */
  predicate AllDigits(s: string) {
    forall i :: 0 <= i < |s| ==> IsDigitChar(s[i])
  }

  /** `s.isdigit()`: non-empty and every character a digit. */
  predicate IsDigits(s: string) {
    |s| > 0 && AllDigits(s)
  }

  function DigitValue(c: char): (d: nat)
    requires IsDigitChar(c)
    ensures d < 10
  {
    (c as int) - ('0' as int)
  }

  function DigitChar(d: nat): (c: char)
    requires d < 10
    ensures IsDigitChar(c) && DigitValue(c) == d
  {
    (('0' as int) + d) as char
  }

  /** The number a digit string denotes in decimal; leading zeros are allowed, as in `int('0100')`. */
  function DecValue(s: string): nat
    requires AllDigits(s)
  {
    if s == [] then 0 else DecValue(s[..|s| - 1]) * 10 + DigitValue(s[|s| - 1])
  }

  /** `str(n)` for a non-negative integer: digits without leading zeros. */
  function NatToStr(n: nat): (s: string)
    ensures IsDigits(s)
    ensures DecValue(s) == n
    ensures |s| > 1 ==> s[0] != '0'
  {
    if n < 10 then [DigitChar(n)]
    else
      var p := NatToStr(n / 10);
      var s := p + [DigitChar(n % 10)];
      assert s[..|s| - 1] == p;
      s
  }

  /** A digit string without leading zeros: the form `str` produces. */
  predicate Canonical(s: string) {
    IsDigits(s) && (|s| > 1 ==> s[0] != '0')
  }

  /** `str` inverts `int` on canonical digit strings. */
  lemma {:induction false} CanonicalRoundTrip(s: string)
    requires Canonical(s)
    ensures NatToStr(DecValue(s)) == s
  {
    if |s| > 1 {
      var p := s[..|s| - 1];
      assert Canonical(p) by {
        assert p[0] == s[0];
        assert forall i :: 0 <= i < |p| ==> p[i] == s[i];
      }
      CanonicalRoundTrip(p);
      var n := DecValue(s);
      assert n == DecValue(p) * 10 + DigitValue(s[|s| - 1]);
      assert DecValue(p) > 0 by {
        if DecValue(p) == 0 { LeadingDigitZero(p); }
      }
      assert n / 10 == DecValue(p) && n % 10 == DigitValue(s[|s| - 1]);
      assert s == p + [s[|s| - 1]];
    }
  }

  /** A non-empty digit string denoting 0 starts with '0'. */
  lemma {:induction false} LeadingDigitZero(s: string)
    requires IsDigits(s) && DecValue(s) == 0
    ensures s[0] == '0'
  {
    if |s| > 1 {
      var p := s[..|s| - 1];
      LeadingDigitZero(p);
    }
  }

  /** `int(s)` for the forms the code produces: optional '-' followed by ASCII digits. */
  function PyInt(s: string): (r: Option<int>)
    ensures IsDigits(s) ==> r == Some(DecValue(s) as int)
    ensures r.Some? ==> IsDigits(s) || (|s| > 1 && s[0] == '-' && IsDigits(s[1..]))
  {
    if IsDigits(s) then Some(DecValue(s))
    else if |s| > 1 && s[0] == '-' && IsDigits(s[1..]) then Some(0 - DecValue(s[1..]) as int)
    else None
  }

  /** `str(n)` for any integer. */
  function IntToStr(n: int): string {
    if n >= 0 then NatToStr(n) else "-" + NatToStr(-n)
  }

  /** `int(str(n)) == n` for every integer. */
  lemma IntStrRoundTrip(n: int)
    ensures PyInt(IntToStr(n)) == Some(n)
  {
    if n < 0 {
      var s := IntToStr(n);
      assert s[1..] == NatToStr(-n);
      assert !IsDigits(s) by { assert s[0] == '-'; }
    }
  }

  // ---------------------------------------------------------------------
  // s.split(sep) with an explicit one-character separator

  function Split(s: string, sep: char): (parts: seq<string>)
    ensures |parts| >= 1
    ensures forall i :: 0 <= i < |parts| ==> sep !in parts[i]
  {
    if s == [] then [""]
    else
      var rest := Split(s[1..], sep);
      if s[0] == sep then [""] + rest
      else [[s[0]] + rest[0]] + rest[1..]
  }

  /** `sep.join(parts)`. */
  function Join(parts: seq<string>, sep: char): string
    requires |parts| >= 1
  {
    if |parts| == 1 then parts[0] else parts[0] + [sep] + Join(parts[1..], sep)
  }

  /** Joining the pieces of a split gives back the original string. */
  lemma {:induction false} JoinSplit(s: string, sep: char)
    ensures Join(Split(s, sep), sep) == s
  {
    if s != [] {
      var rest := Split(s[1..], sep);
      JoinSplit(s[1..], sep);
      if s[0] == sep {
        assert Split(s, sep)[1..] == rest;
      } else {
        var parts := Split(s, sep);
        if |rest| == 1 {
          assert parts == [[s[0]] + rest[0]];
        } else {
          assert parts[1..] == rest[1..];
          assert Join(rest, sep) == rest[0] + [sep] + Join(rest[1..], sep);
        }
      }
    }
  }

  /** Splitting a join of separator-free pieces gives back the pieces. */
  lemma {:induction false} SplitJoin(parts: seq<string>, sep: char)
    requires |parts| >= 1
    requires forall i :: 0 <= i < |parts| ==> sep !in parts[i]
    ensures Split(Join(parts, sep), sep) == parts
  {
    if |parts| == 1 {
      SplitWord(parts[0], sep);
    } else {
      SplitJoin(parts[1..], sep);
      SplitPrefix(parts[0], Join(parts[1..], sep), sep);
      assert parts == [parts[0]] + parts[1..];
    }
  }

  /** A separator-free word splits into itself. */
  lemma {:induction false} SplitWord(w: string, sep: char)
    requires sep !in w
    ensures Split(w, sep) == [w]
  {
    if w != [] {
      SplitWord(w[1..], sep);
      assert [w[0]] + w[1..] == w;
    }
  }

  /** Splitting `w + [sep] + t`, with a separator-free `w`, starts with `w`. */
  lemma {:induction false} SplitPrefix(w: string, t: string, sep: char)
    requires sep !in w
    ensures Split(w + [sep] + t, sep) == [w] + Split(t, sep)
  {
    var s := w + [sep] + t;
    if w == [] {
      assert s[1..] == t;
    } else {
      assert s[1..] == w[1..] + [sep] + t;
      SplitPrefix(w[1..], t, sep);
      assert [w[0]] + w[1..] == w;
    }
  }

  // ---------------------------------------------------------------------
  // s.strip(chars): removes every leading and trailing character in the set

  function LStrip(s: string, cs: set<char>): string {
    if s != [] && s[0] in cs then LStrip(s[1..], cs) else s
  }

  function RStrip(s: string, cs: set<char>): string {
    if s != [] && s[|s| - 1] in cs then RStrip(s[..|s| - 1], cs) else s
  }

  function Strip(s: string, cs: set<char>): string {
    RStrip(LStrip(s, cs), cs)
  }

  /**
   * `s.strip(cs)` is the middle slice of `s` left once every leading and
   * trailing character in `cs` is gone: the removed ends consist only of
   * characters in `cs`, and the result neither starts nor ends with one.
   */
  lemma StripIsTrimmedSlice(s: string, cs: set<char>)
    ensures var r := Strip(s, cs);
      exists i, j :: 0 <= i <= j <= |s| && r == s[i..j]
        && (forall k :: 0 <= k < i ==> s[k] in cs)
        && (forall k :: j <= k < |s| ==> s[k] in cs)
        && (r == [] || (r[0] !in cs && r[|r| - 1] !in cs))
  {
    var i := LStripSlice(s, cs);
    var l := s[i..];
    var j := RStripSlice(l, cs);
    assert Strip(s, cs) == s[i..i + j];
    forall k | i + j <= k < |s| ensures s[k] in cs {
      assert s[k] == l[k - i];
    }
  }

  lemma {:induction false} LStripSlice(s: string, cs: set<char>) returns (i: nat)
    ensures i <= |s| && LStrip(s, cs) == s[i..]
    ensures forall k :: 0 <= k < i ==> s[k] in cs
    ensures i < |s| ==> s[i] !in cs
  {
    if s != [] && s[0] in cs {
      var i' := LStripSlice(s[1..], cs);
      i := i' + 1;
      assert s[1..][i'..] == s[i..];
    } else {
      i := 0;
    }
  }

  lemma {:induction false} RStripSlice(s: string, cs: set<char>) returns (j: nat)
    ensures j <= |s| && RStrip(s, cs) == s[..j]
    ensures forall k :: j <= k < |s| ==> s[k] in cs
    ensures j > 0 ==> s[j - 1] !in cs
  {
    if s != [] && s[|s| - 1] in cs {
      j := RStripSlice(s[..|s| - 1], cs);
      assert s[..|s| - 1][..j] == s[..j];
    } else {
      j := |s|;
    }
  }

  // ---------------------------------------------------------------------
  // `sub in s` and the digit filter

  /** `sub in s`: `sub` occurs in `s` as a contiguous slice. */
  predicate Contains(s: string, sub: string) {
    sub <= s || (s != [] && Contains(s[1..], sub))
  }

  /** An occurrence is never longer than the string it occurs in. */
  lemma {:induction false} ContainsLength(s: string, sub: string)
    requires Contains(s, sub)
    ensures |sub| <= |s|
  {
    if !(sub <= s) {
      ContainsLength(s[1..], sub);
    }
  }

  /** `sub` occurs in `s` starting at index `i`. */
  predicate OccursAt(s: string, sub: string, i: int) {
    0 <= i <= |s| - |sub| && s[i..i + |sub|] == sub
  }

  /** `sub in s` holds exactly when some slice of `s` equals `sub`. */
  lemma {:induction false} ContainsIsSlice(s: string, sub: string)
    ensures Contains(s, sub) <==> exists i :: OccursAt(s, sub, i)
  {
    if Contains(s, sub) {
      if sub <= s {
        assert OccursAt(s, sub, 0);
      } else {
        ContainsIsSlice(s[1..], sub);
        var i :| OccursAt(s[1..], sub, i);
        assert s[i + 1..i + 1 + |sub|] == s[1..][i..i + |sub|];
        assert OccursAt(s, sub, i + 1);
      }
    }
    if exists i :: OccursAt(s, sub, i) {
      var i :| OccursAt(s, sub, i);
      if i == 0 {
        assert sub <= s;
      } else {
        assert s[1..][i - 1..i - 1 + |sub|] == s[i..i + |sub|];
        assert OccursAt(s[1..], sub, i - 1);
        ContainsIsSlice(s[1..], sub);
      }
    }
  }

  /** `''.join([c for c in s if c.isdigit()])`: the digits of `s`, in order. */
  function DigitsOf(s: string): (r: string)
    ensures AllDigits(r) && |r| <= |s|
    ensures forall c :: IsDigitChar(c) ==> multiset(r)[c] == multiset(s)[c]
  {
    if s == [] then ""
    else
      var rest := DigitsOf(s[1..]);
      assert s == [s[0]] + s[1..];
      if IsDigitChar(s[0]) then [s[0]] + rest else rest
  }

  /** A digit string is its own digit filter. */
  lemma {:induction false} DigitsOfDigits(s: string)
    requires AllDigits(s)
    ensures DigitsOf(s) == s
  {
    if s != [] {
      DigitsOfDigits(s[1..]);
      assert [s[0]] + s[1..] == s;
    }
  }

  /** A single character passes the digit filter exactly when it is a digit. */
  lemma DigitsOfChar(c: char)
    ensures IsDigitChar(c) ==> DigitsOf([c]) == [c]
    ensures !IsDigitChar(c) ==> DigitsOf([c]) == []
  {
    assert [c][1..] == [];
  }

  /** The digit filter keeps the digits in order: filtering a concatenation concatenates the filtered parts. */
  lemma {:induction false} DigitsOfConcat(a: string, b: string)
    ensures DigitsOf(a + b) == DigitsOf(a) + DigitsOf(b)
  {
    if a == [] {
      assert a + b == b;
    } else {
      var x := a[1..];
      var ab := a + b;
      assert ab[1..] == x + b;
      DigitsOfFirst(a);
      DigitsOfFirst(ab);
      DigitsOfConcat(x, b);
      SeqAssoc(if IsDigitChar(a[0]) then [a[0]] else [], DigitsOf(x), DigitsOf(b));
    }
  }

  /** Concatenation is associative. */
  lemma SeqAssoc(h: string, p: string, q: string)
    ensures h + (p + q) == (h + p) + q
  {
  }

  /** One step of the digit filter. */
  lemma DigitsOfFirst(s: string)
    requires s != []
    ensures DigitsOf(s) == (if IsDigitChar(s[0]) then [s[0]] else []) + DigitsOf(s[1..])
  {
  }
}
