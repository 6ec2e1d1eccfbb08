/** String primitives the application relies on, stated over `seq<char>`:
    JavaScript whitespace, `trim`, `split` on one character, global removal of
    a literal pattern, upper-casing, and decimal integers (`String(n)` and
    `parseInt`). */
module Text {
  import opened Wrappers

  // ---------------------------------------------------------------------------
  // Whitespace

  /** The characters JavaScript's `trim` and the regular-expression class `\s`
      treat as whitespace: the ECMAScript WhiteSpace set (tab, vertical tab,
      form feed, no-break space, byte order mark and every Zs space) together
      with the LineTerminator set (line feed, carriage return, U+2028, U+2029). */
  predicate IsSpace(c: char) {
    || c == '\t' || c == '\n' || c == '\U{000B}' || c == '\U{000C}' || c == '\r'
    || c == ' ' || c == '\U{00A0}' || c == '\U{1680}'
    || ('\U{2000}' <= c <= '\U{200A}')
    || c == '\U{2028}' || c == '\U{2029}' || c == '\U{202F}' || c == '\U{205F}'
    || c == '\U{3000}' || c == '\U{FEFF}'
  }

  predicate AllSpace(s: string) {
    forall i | 0 <= i < |s| :: IsSpace(s[i])
  }

  predicate NoSpace(s: string) {
    forall i | 0 <= i < |s| :: !IsSpace(s[i])
  }

  /** Neither end of `s` is whitespace: what `trim` leaves. */
  predicate Trimmed(s: string) {
    s == [] || (!IsSpace(s[0]) && !IsSpace(s[|s| - 1]))
  }

  /** The length of the whitespace run at the front of `s`. */
  function LeadingSpaces(s: string): (n: nat)
    ensures n <= |s|
    decreases |s|
  {
    if |s| > 0 && IsSpace(s[0]) then LeadingSpaces(s[1..]) + 1 else 0
  }

  /** The leading run is whitespace, and it stops at the first character that
      is not. */
  lemma {:induction false} LeadingRun(s: string)
    ensures AllSpace(s[..LeadingSpaces(s)])
    ensures LeadingSpaces(s) == |s| || !IsSpace(s[LeadingSpaces(s)])
    decreases |s|
  {
    if |s| > 0 && IsSpace(s[0]) {
      var m := LeadingSpaces(s[1..]);
      LeadingRun(s[1..]);
      forall k | 0 <= k < m + 1 ensures IsSpace(s[k]) {
        if k > 0 { assert s[k] == s[1..][..m][k - 1]; }
      }
      if m + 1 < |s| {
        assert s[m + 1] == s[1..][m];
      }
    }
  }

  /** The length of the whitespace run at the back of `s`. */
  function TrailingSpaces(s: string): (n: nat)
    ensures n <= |s|
    decreases |s|
  {
    if |s| > 0 && IsSpace(s[|s| - 1]) then TrailingSpaces(s[..|s| - 1]) + 1 else 0
  }

  /** The trailing run is whitespace, and it stops at the last character
      that is not. */
  lemma {:induction false} TrailingRun(s: string)
    ensures AllSpace(s[|s| - TrailingSpaces(s)..])
    ensures TrailingSpaces(s) == |s| || !IsSpace(s[|s| - TrailingSpaces(s) - 1])
    decreases |s|
  {
    if |s| > 0 && IsSpace(s[|s| - 1]) {
      var u := s[..|s| - 1];
      var m := TrailingSpaces(u);
      TrailingRun(u);
      forall k | |s| - (m + 1) <= k < |s| ensures IsSpace(s[k]) {
        if k < |s| - 1 { assert s[k] == u[|u| - m..][k - (|u| - m)]; }
      }
      if m + 1 < |s| {
        assert s[|s| - (m + 1) - 1] == u[|u| - m - 1];
      }
    }
  }

  /** `trimStart`: the suffix left once the leading run is cut away. */
  function TrimStart(s: string): (r: string) {
    s[LeadingSpaces(s)..]
  }

  /** Where `trim` cuts `s`: after the leading run, and before the trailing
      run of what is left. */
  function TrimEndIndex(s: string): (j: nat)
    ensures LeadingSpaces(s) <= j <= |s|
  {
    |s| - TrailingSpaces(s[LeadingSpaces(s)..])
  }

  /** `String.prototype.trim`: the middle slice `s[i..j]` that is left once
      the whitespace on both sides is cut away. */
  function Trim(s: string): (r: string)
    ensures Trimmed(r)
    ensures exists i, j | 0 <= i <= j <= |s| :: r == s[i..j] && AllSpace(s[..i]) && AllSpace(s[j..])
    ensures r == [] <==> AllSpace(s)
    ensures Trimmed(s) ==> r == s
  {
    var i, j := LeadingSpaces(s), TrimEndIndex(s);
    TrimCutsAtSpace(s);
    TrimmedResult(s);
    TrimEmptyIffAllSpace(s);
    TrimKeepsTrimmed(s);
    s[i..j]
  }

  /** Everything `trim` cuts off is whitespace. */
  lemma TrimCutsAtSpace(s: string)
    ensures AllSpace(s[..LeadingSpaces(s)]) && AllSpace(s[TrimEndIndex(s)..])
  {
    var i := LeadingSpaces(s);
    var t := s[i..];
    var n := TrailingSpaces(t);
    LeadingRun(s);
    TrailingRun(t);
    assert s[TrimEndIndex(s)..] == t[|t| - n..];
  }

  /** What `trim` keeps neither starts nor ends with whitespace. */
  lemma TrimmedResult(s: string)
    ensures Trimmed(s[LeadingSpaces(s)..TrimEndIndex(s)])
  {
    var i, j := LeadingSpaces(s), TrimEndIndex(s);
    var t := s[i..];
    var n := TrailingSpaces(t);
    if i < j {
      assert !IsSpace(s[i..j][0]) by {
        LeadingRun(s);
        assert s[i..j][0] == s[i];
      }
      assert !IsSpace(s[i..j][j - i - 1]) by {
        TrailingRun(t);
        assert s[i..j][j - i - 1] == t[|t| - n - 1];
      }
    }
  }

  /** `trim` gives the empty string exactly for all-whitespace input. */
  lemma TrimEmptyIffAllSpace(s: string)
    ensures s[LeadingSpaces(s)..TrimEndIndex(s)] == [] <==> AllSpace(s)
  {
    var i, j := LeadingSpaces(s), TrimEndIndex(s);
    if i == j {
      TrimCutsAtSpace(s);
      AllSpaceJoin(s, i);
    }
    LeadingRun(s);
  }

  /** A string with no whitespace at either end is its own trim. */
  lemma TrimKeepsTrimmed(s: string)
    ensures Trimmed(s) ==> s[LeadingSpaces(s)..TrimEndIndex(s)] == s
  {
    if Trimmed(s) && s != [] {
      assert LeadingSpaces(s) == 0;
      var n := TrailingSpaces(s);
      assert n == 0;
    }
  }

  lemma AllSpaceJoin(s: string, i: int)
    requires 0 <= i <= |s| && AllSpace(s[..i]) && AllSpace(s[i..])
    ensures AllSpace(s)
  {
    forall k | 0 <= k < |s| ensures IsSpace(s[k]) {
      if k < i { assert s[k] == s[..i][k]; } else { assert s[k] == s[i..][k - i]; }
    }
  }

  // ---------------------------------------------------------------------------
  // Upper-casing

  /** Upper-casing of one character, on the ASCII letters. */
  function UpperChar(c: char): (u: char)
    ensures 'a' <= c <= 'z' ==> 'A' <= u <= 'Z' && u as int == c as int - 32
    ensures !('a' <= c <= 'z') ==> u == c
  {
    if 'a' <= c <= 'z' then (c as int - 32) as char else c
  }

  /** `String.prototype.toUpperCase` on the ASCII letters: character by
      character, so the length is kept. */
  function Upper(s: string): (r: string)
    ensures |r| == |s|
    ensures forall i | 0 <= i < |s| :: r[i] == UpperChar(s[i])
  {
    seq(|s|, i requires 0 <= i < |s| => UpperChar(s[i]))
  }

  // ---------------------------------------------------------------------------
  // Occurrences of a literal pattern and their global removal

  predicate HasPrefix(s: string, p: string) {
    |p| <= |s| && s[..|p|] == p
  }

  /** `p` occurs somewhere in `s`. */
  predicate Occurs(p: string, s: string) {
    exists i | 0 <= i <= |s| :: HasPrefix(s[i..], p)
  }

  /** `s.replace(/p/g, '')` for a literal pattern `p`: scanning left to right,
      each match is deleted and scanning resumes after it. */
  function RemoveAll(s: string, p: string): (r: string)
    requires |p| > 0
    ensures |r| <= |s|
    ensures (forall i | 0 <= i < |s| :: s[i] != p[0]) ==> r == s
    decreases |s|
  {
    if |s| == 0 then []
    else if HasPrefix(s, p) then RemoveAll(s[|p|..], p)
    else [s[0]] + RemoveAll(s[1..], p)
  }

  /** An occurrence in `[c] + t` is at the front or inside `t`. */
  lemma OccursCons(p: string, c: char, t: string)
    requires Occurs(p, [c] + t)
    ensures HasPrefix([c] + t, p) || Occurs(p, t)
  {
    var s := [c] + t;
    var i :| 0 <= i <= |s| && HasPrefix(s[i..], p);
    if i > 0 {
      assert s[i..] == t[i - 1..];
    }
  }

  /** No occurrence in `t` and none at the front means none in `[c] + t`. */
  lemma NotOccursCons(p: string, c: char, t: string)
    requires !Occurs(p, t) && !HasPrefix([c] + t, p)
    ensures !Occurs(p, [c] + t)
  {
    if Occurs(p, [c] + t) {
      OccursCons(p, c, t);
    }
  }

  /** Removal is the identity on a string the pattern does not occur in. */
  lemma {:induction false} RemoveAllAbsent(s: string, p: string)
    requires |p| > 0 && !Occurs(p, s)
    ensures RemoveAll(s, p) == s
    decreases |s|
  {
    if |s| > 0 {
      assert s[0..] == s;
      assert !HasPrefix(s, p);
      forall i | 0 <= i <= |s[1..]| ensures !HasPrefix(s[1..][i..], p) {
        assert s[1..][i..] == s[i + 1..];
      }
      RemoveAllAbsent(s[1..], p);
    }
  }

  /** A string shorter than the pattern is left as it is. */
  lemma {:induction false} RemoveAllShort(s: string, p: string)
    requires 0 < |p| && |s| < |p|
    ensures RemoveAll(s, p) == s
    decreases |s|
  {
    if |s| > 0 {
      RemoveAllShort(s[1..], p);
    }
  }

  /** A first character that cannot start the pattern is kept. */
  lemma RemoveAllKeepsFree(c: char, t: string, p: string)
    requires |p| > 0 && c != p[0]
    ensures RemoveAll([c] + t, p) == [c] + RemoveAll(t, p)
  {
    assert ([c] + t)[0] == c;
    assert ([c] + t)[1..] == t;
  }

  /** Re-association: a whole that is `h` then `p + q` is `h + p` then `q`. */
  lemma Reassociate<T>(whole: seq<T>, rest: seq<T>, front: seq<T>, h: seq<T>, p: seq<T>, q: seq<T>)
    requires whole == h + rest && rest == p + q && front == h + p
    ensures whole == front + q
  {
  }

  /** A prefix of a prefix is a prefix. */
  lemma PrefixOfPrefix<T>(a: seq<T>, b: seq<T>, c: seq<T>)
    requires |c| <= |b| <= |a| && a[..|b|] == b && b[..|c|] == c
    ensures a[..|c|] == c
  {
    assert a[..|c|] == a[..|b|][..|c|];
  }

  /** The step of `RemoveAllFreePrefix`: one more free character in front. */
  lemma FreePrefixStep(c: char, rest: string, t: string, p: string)
    requires |p| > 0 && c != p[0]
    requires RemoveAll(rest + t, p) == rest + RemoveAll(t, p)
    ensures RemoveAll([c] + rest + t, p) == [c] + rest + RemoveAll(t, p)
  {
    assert [c] + rest + t == [c] + (rest + t);
    RemoveAllKeepsFree(c, rest + t, p);
    Reassociate(RemoveAll([c] + rest + t, p), RemoveAll(rest + t, p), [c] + rest, [c], rest, RemoveAll(t, p));
  }

  /** A leading part free of the pattern's first character passes through
      untouched, whatever follows it. */
  lemma {:induction false} RemoveAllFreePrefix(a: string, t: string, p: string)
    requires |p| > 0
    requires p[0] !in a
    ensures RemoveAll(a + t, p) == a + RemoveAll(t, p)
    decreases |a|
  {
    if |a| > 0 {
      var rest := a[1..];
      assert a[0] in a;
      RemoveAllFreePrefix(rest, t, p);
      FreePrefixStep(a[0], rest, t, p);
      assert a == [a[0]] + rest;
    } else {
      assert a + t == t;
    }
  }

  // ---------------------------------------------------------------------------
  // Splitting on one separator character, and its inverse

  /** The parts put back together with `sep` between them (`Array.join`). */
  function Join(parts: seq<string>, sep: char): string
    requires |parts| > 0
  {
    if |parts| == 1 then parts[0] else parts[0] + [sep] + Join(parts[1..], sep)
  }

  /** `s.split(sep)` for a one-character separator: at least one part, no part
      contains the separator, and joining the parts gives `s` back. */
  function Split(s: string, sep: char): (parts: seq<string>)
    ensures |parts| > 0
    ensures forall k | 0 <= k < |parts| :: sep !in parts[k]
    ensures Join(parts, sep) == s
    decreases |s|
  {
    if |s| == 0 then [[]]
    else if s[0] == sep then
      var rest := Split(s[1..], sep);
      assert s == [] + [sep] + s[1..];
      [[]] + rest
    else
      var rest := Split(s[1..], sep);
      JoinExtendsHead(s[0], rest, sep);
      assert s == [s[0]] + s[1..];
      [[s[0]] + rest[0]] + rest[1..]
  }

  /** Putting a character in front of the first part puts it in front of
      the joined text. */
  lemma JoinExtendsHead(c: char, parts: seq<string>, sep: char)
    requires |parts| > 0
    ensures Join([[c] + parts[0]] + parts[1..], sep) == [c] + Join(parts, sep)
  {
    var r := [[c] + parts[0]] + parts[1..];
    if |parts| > 1 {
      assert r[1..] == parts[1..];
    }
  }

  /** A string without the separator splits into itself alone. */
  lemma {:induction false} SplitNoSeparator(a: string, sep: char)
    requires sep !in a
    ensures Split(a, sep) == [a]
    decreases |a|
  {
    if |a| > 0 {
      SplitNoSeparator(a[1..], sep);
      assert a == [a[0]] + a[1..];
    }
  }

  /** The first separator ends the first part. */
  lemma {:induction false} SplitAtFirst(a: string, b: string, sep: char)
    requires sep !in a
    ensures Split(a + [sep] + b, sep) == [a] + Split(b, sep)
    decreases |a|
  {
    var s := a + [sep] + b;
    if |a| == 0 {
      assert s[1..] == b;
    } else {
      assert s[1..] == a[1..] + [sep] + b;
      SplitAtFirst(a[1..], b, sep);
      assert a == [a[0]] + a[1..];
    }
  }

  /** `Split` inverts `Join` on parts that do not contain the separator; with
      the `Join(Split(s)) == s` half in `Split`'s contract, the two are
      mutually inverse. */
  lemma {:induction false} SplitJoin(parts: seq<string>, sep: char)
    requires |parts| > 0
    requires forall k | 0 <= k < |parts| :: sep !in parts[k]
    ensures Split(Join(parts, sep), sep) == parts
    decreases |parts|
  {
    if |parts| == 1 {
      SplitNoSeparator(parts[0], sep);
    } else {
      SplitJoin(parts[1..], sep);
      SplitAtFirst(parts[0], Join(parts[1..], sep), sep);
      assert parts == [parts[0]] + parts[1..];
    }
  }

  // ---------------------------------------------------------------------------
  // Decimal integers

  predicate IsDigit(c: char) {
    '0' <= c <= '9'
  }

  predicate AllDigits(s: string) {
    forall i | 0 <= i < |s| :: IsDigit(s[i])
  }

  function DigitChar(d: nat): (c: char)
    requires d < 10
    ensures IsDigit(c) && c as int - '0' as int == d
  {
    (d + '0' as int) as char
  }

  function DigitValue(c: char): nat
    requires IsDigit(c)
  {
    c as int - '0' as int
  }

  /** The number a run of decimal digits denotes. */
  function DigitsValue(ds: string): nat
    requires AllDigits(ds)
    decreases |ds|
  {
    if |ds| == 0 then 0 else DigitsValue(ds[..|ds| - 1]) * 10 + DigitValue(ds[|ds| - 1])
  }

  /** The shortest decimal numeral of `n`, with no leading zero. */
  function NatToDecimal(n: nat): (r: string)
    ensures |r| > 0 && AllDigits(r)
    ensures r[0] == '0' ==> n == 0
    decreases n
  {
    if n < 10 then [DigitChar(n)] else NatToDecimal(n / 10) + [DigitChar(n % 10)]
  }

  /** `String(n)` for an integer-valued JavaScript number below 10^21 in
      magnitude, where it is the plain decimal numeral; numbers are modelled
      as unbounded integers, so the exponent form JavaScript switches to at
      10^21 is not produced. */
  function IntToDecimal(n: int): (r: string)
    ensures |r| > 0 && (IsDigit(r[0]) || r[0] == '-')
  {
    if n < 0 then "-" + NatToDecimal(-n) else NatToDecimal(n)
  }

  /** The longest run of decimal digits at the front of `s`. */
  function LeadingDigits(s: string): (ds: string)
    ensures |ds| <= |s| && ds == s[..|ds|] && AllDigits(ds)
    ensures |ds| == |s| || !IsDigit(s[|ds|])
    decreases |s|
  {
    if |s| > 0 && IsDigit(s[0]) then [s[0]] + LeadingDigits(s[1..]) else []
  }

  /** `parseInt(s)` with the default radix on decimal input: leading
      whitespace is skipped, one optional sign is read, then the longest run
      of digits; `None` stands for `NaN` (no digit where one is needed). */
  function ParseLeadingInt(s: string): (r: Option<int>)
    ensures var t := TrimStart(s);
      var signed := |t| > 0 && (t[0] == '-' || t[0] == '+');
      var u := if signed then t[1..] else t;
      && (r.None? <==> u == [] || !IsDigit(u[0]))
      && (r.Some? && |t| > 0 && t[0] == '-' ==> r.value <= 0)
      && (r.Some? && !(|t| > 0 && t[0] == '-') ==> r.value >= 0)
  {
    var t := TrimStart(s);
    if |t| > 0 && t[0] == '-' then Negate(ReadDigits(t[1..]))
    else if |t| > 0 && t[0] == '+' then ReadDigits(t[1..])
    else ReadDigits(t)
  }

  /** The value of the digits at the front of `s`, `None` when there are
      none. */
  function ReadDigits(s: string): (r: Option<int>)
    ensures r.None? <==> s == [] || !IsDigit(s[0])
    ensures r.Some? ==> r.value >= 0
  {
    var ds := LeadingDigits(s);
    if ds == [] then None else Some(DigitsValue(ds))
  }

  function Negate(v: Option<int>): (r: Option<int>)
    ensures r.None? <==> v.None?
    ensures r.Some? ==> r.value == -v.value
  {
    match v
    case None => None
    case Some(x) => Some(-x)
  }

  lemma {:induction false} DigitsValueOfDecimal(n: nat)
    ensures DigitsValue(NatToDecimal(n)) == n
    decreases n
  {
    if n >= 10 {
      DigitsValueOfDecimal(n / 10);
      var r := NatToDecimal(n);
      assert r[..|r| - 1] == NatToDecimal(n / 10);
    }
  }

  lemma {:induction false} LeadingDigitsOf(ds: string, rest: string)
    requires AllDigits(ds)
    requires rest == [] || !IsDigit(rest[0])
    ensures LeadingDigits(ds + rest) == ds
    decreases |ds|
  {
    if |ds| > 0 {
      assert (ds + rest)[1..] == ds[1..] + rest;
      LeadingDigitsOf(ds[1..], rest);
      assert ds == [ds[0]] + ds[1..];
    } else {
      assert ds + rest == rest;
    }
  }

  /** `parseInt` reads back the decimal numeral of `n`, whatever non-digit
      text follows it. */
  lemma DecimalRoundTrip(n: int, rest: string)
    requires rest == [] || !IsDigit(rest[0])
    ensures ParseLeadingInt(IntToDecimal(n) + rest) == Some(n)
  {
    if n < 0 {
      assert IntToDecimal(n) + rest == "-" + NatToDecimal(-n) + rest;
      NegativeRoundTrip(-n, rest);
    } else {
      assert IntToDecimal(n) == NatToDecimal(n);
      NatRoundTrip(n, rest);
    }
  }

  lemma NatRoundTrip(n: nat, rest: string)
    requires rest == [] || !IsDigit(rest[0])
    ensures ParseLeadingInt(NatToDecimal(n) + rest) == Some(n)
  {
    var d := NatToDecimal(n);
    assert IsDigit((d + rest)[0]) by {
      assert (d + rest)[0] == d[0];
    }
    ParseAfterDigit(d + rest);
    ReadDecimal(n, rest);
  }

  /** Text that starts with a digit is read as the digits at its front. */
  lemma ParseAfterDigit(u: string)
    requires |u| > 0 && IsDigit(u[0])
    ensures ParseLeadingInt(u) == ReadDigits(u)
  {
    assert TrimStart(u) == u by {
      assert u[0..] == u;
    }
  }

  lemma NegativeRoundTrip(n: nat, rest: string)
    requires n > 0
    requires rest == [] || !IsDigit(rest[0])
    ensures ParseLeadingInt("-" + NatToDecimal(n) + rest) == Some(-(n as int))
  {
    var d := NatToDecimal(n);
    assert "-" + d + rest == "-" + (d + rest);
    ParseAfterMinus(d + rest);
    ReadDecimal(n, rest);
  }

  /** A leading minus sign negates whatever digits follow it. */
  lemma ParseAfterMinus(u: string)
    ensures ParseLeadingInt("-" + u) == Negate(ReadDigits(u))
  {
    var s := "-" + u;
    assert s[0] == '-';
    assert TrimStart(s) == s by {
      assert s[0..] == s;
    }
    assert s[1..] == u;
  }

  /** The digits of `n`'s numeral, followed by a non-digit, read back as
      `n`. */
  lemma ReadDecimal(n: nat, rest: string)
    requires rest == [] || !IsDigit(rest[0])
    ensures ReadDigits(NatToDecimal(n) + rest) == Some(n)
  {
    LeadingDigitsOf(NatToDecimal(n), rest);
    DigitsValueOfDecimal(n);
  }
}
