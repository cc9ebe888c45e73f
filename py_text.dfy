/**
 * The Python built-ins on strings and integers that the question generator and
 * the exporter rely on: `str(n)` for integers, `int(s)` on decimal text,
 * `s.split(sep)`, `sep.join(parts)`, `s * n`, and `os.path.join` on POSIX.
 * Strings are sequences of Unicode scalar values, as Python's `str` is.
 */
module PyText {
  import opened Wrappers

  // ---------------------------------------------------------------------------
  // str(n): decimal rendering of an integer

  predicate IsDigit(c: char) {
    '0' <= c <= '9'
  }

  predicate AllDigits(s: string) {
    forall i :: 0 <= i < |s| ==> IsDigit(s[i])
  }

  function DigitChar(d: nat): (c: char)
    requires d < 10
    ensures IsDigit(c) && c as int - '0' as int == d
  {
    ('0' as int + d) as char
  }

  function DigitValue(c: char): nat
    requires IsDigit(c)
  {
    c as int - '0' as int
  }

  /** `str(n)` for n >= 0: no leading zero except for 0 itself. */
  function NatToString(n: nat): (s: string)
    ensures |s| >= 1 && AllDigits(s)
    ensures s[0] == '0' ==> n == 0
  {
    if n < 10 then [DigitChar(n)] else NatToString(n / 10) + [DigitChar(n % 10)]
  }

  /** `str(i)` for any Python int: a minus sign, then the digits of |i|. */
  function IntToString(i: int): (s: string)
    ensures |s| >= 1
    ensures i >= 0 ==> AllDigits(s)
    ensures i < 0 ==> s[0] == '-' && AllDigits(s[1..])
  {
    if i < 0 then "-" + NatToString(-i) else NatToString(i)
  }

  /** `list(map(str, xs))` */
  function StrAll(xs: seq<int>): (r: seq<string>)
    ensures |r| == |xs|
    ensures forall i :: 0 <= i < |xs| ==> r[i] == IntToString(xs[i])
  {
    seq(|xs|, i requires 0 <= i < |xs| => IntToString(xs[i]))
  }

  /** A character that is neither a digit nor a minus sign never occurs in `str(n)`. */
  lemma NotInNumber(n: int, c: char)
    requires !IsDigit(c) && c != '-'
    ensures c !in IntToString(n)
  {
    var s := IntToString(n);
    forall i | 0 <= i < |s|
      ensures s[i] != c
    {
      if n < 0 && i > 0 {
        assert s[i] == s[1..][i - 1];
      }
    }
  }

  // ---------------------------------------------------------------------------
  // int(s): base-10 parsing after str.strip()

  /** The ASCII whitespace the model strips (`str.strip()` also removes \x1c-\x1f and non-ASCII spaces). */
  predicate IsSpace(c: char) {
    c == ' ' || c == '\t' || c == '\n' || c == '\r' || c == '\U{000B}' || c == '\U{000C}'
  }

  predicate AllSpace(s: string) {
    forall i :: 0 <= i < |s| ==> IsSpace(s[i])
  }

  function LStrip(s: string): (r: string)
    ensures |r| <= |s| && r == s[|s| - |r|..]
    ensures |r| > 0 ==> !IsSpace(r[0])
  {
    if |s| > 0 && IsSpace(s[0]) then LStrip(s[1..]) else s
  }

  function RStrip(s: string): (r: string)
    ensures |r| <= |s| && r == s[..|r|]
    ensures |r| > 0 ==> !IsSpace(r[|r| - 1])
  {
    if |s| > 0 && IsSpace(s[|s| - 1]) then RStrip(s[..|s| - 1]) else s
  }

  function Strip(s: string): string {
    RStrip(LStrip(s))
  }

  /** The value of a run of decimal digits, most significant first. */
  function DigitsValue(s: string): nat
    requires AllDigits(s)
  {
    if |s| == 0 then 0 else DigitsValue(s[..|s| - 1]) * 10 + DigitValue(s[|s| - 1])
  }

  /**
   * `int(s)`: surrounding whitespace is ignored, then an optional sign and at
   * least one digit; anything else raises ValueError, modelled as None.
   */
  function ParseInt(s: string): (r: Option<int>)
    ensures r.Some? ==> |Strip(s)| > 0
  {
    var t := Strip(s);
    if |t| > 0 && (t[0] == '-' || t[0] == '+') then
      var body := t[1..];
      if |body| > 0 && AllDigits(body) then
        var v: int := DigitsValue(body);
        Some(if t[0] == '-' then -v else v)
      else None
    else if |t| > 0 && AllDigits(t) then Some(DigitsValue(t))
    else None
  }

  lemma {:induction false} DigitsOfNat(n: nat)
    ensures DigitsValue(NatToString(n)) == n
  {
    var s := NatToString(n);
    if n >= 10 {
      DigitsOfNat(n / 10);
      assert s[..|s| - 1] == NatToString(n / 10);
    }
  }

  lemma {:induction false} LStripSpaces(pre: string, x: string)
    requires AllSpace(pre)
    requires |x| > 0 ==> !IsSpace(x[0])
    ensures LStrip(pre + x) == x
  {
    if |pre| > 0 {
      assert (pre + x)[1..] == pre[1..] + x;
      LStripSpaces(pre[1..], x);
    } else {
      assert pre + x == x;
    }
  }

  lemma {:induction false} RStripSpaces(x: string, post: string)
    requires AllSpace(post)
    requires |x| > 0 ==> !IsSpace(x[|x| - 1])
    ensures RStrip(x + post) == x
  {
    if |post| > 0 {
      assert (x + post)[..|x + post| - 1] == x + post[..|post| - 1];
      RStripSpaces(x, post[..|post| - 1]);
    } else {
      assert x + post == x;
    }
  }

  /** Whitespace around a text that neither starts nor ends with whitespace is stripped. */
  lemma StripPadded(pre: string, x: string, post: string)
    requires AllSpace(pre) && AllSpace(post)
    requires |x| > 0 && !IsSpace(x[0]) && !IsSpace(x[|x| - 1])
    ensures Strip(pre + x + post) == x
  {
    var rest := x + post;
    assert rest[0] == x[0];
    LStripSpaces(pre, rest);
    assert pre + x + post == pre + rest;
    RStripSpaces(x, post);
  }

  /** `int` reads back what `str` wrote. */
  lemma ParseIntCanonical(s: string, n: int)
    requires Strip(s) == IntToString(n)
    ensures ParseInt(s) == Some(n)
  {
    var t := Strip(s);
    if n < 0 {
      ParseNegative(t, n);
    } else {
      DigitsOfNat(n);
      assert t == NatToString(n) && |t| > 0 && AllDigits(t) && !(t[0] == '-' || t[0] == '+');
    }
  }

  lemma ParseNegative(t: string, n: int)
    requires n < 0 && t == IntToString(n)
    ensures |t| > 1 && t[0] == '-' && AllDigits(t[1..]) && DigitsValue(t[1..]) == -n
  {
    assert t == "-" + NatToString(-n);
    assert t[1..] == NatToString(-n);
    DigitsOfNat(-n);
  }

  /** `int(pre + str(n) + post) == n` whenever `pre` and `post` are whitespace. */
  lemma ParseIntOfString(pre: string, n: int, post: string)
    requires AllSpace(pre) && AllSpace(post)
    ensures ParseInt(pre + IntToString(n) + post) == Some(n)
  {
    var x := IntToString(n);
    assert !IsSpace(x[0]) && !IsSpace(x[|x| - 1]);
    StripPadded(pre, x, post);
    ParseIntCanonical(pre + x + post, n);
  }

  /** The same, for a text already known to be `pre + str(n) + post`. */
  lemma ParsePadded(n: int, pre: string, post: string, s: string)
    requires AllSpace(pre) && AllSpace(post)
    requires s == pre + IntToString(n) + post
    ensures ParseInt(s) == Some(n)
  {
    ParseIntOfString(pre, n, post);
  }

  /** `str` is injective on integers: distinct numbers never render alike. */
  lemma IntToStringInjective(a: int, b: int)
    ensures IntToString(a) == IntToString(b) <==> a == b
  {
    if IntToString(a) == IntToString(b) {
      var x := IntToString(a);
      assert !IsSpace(x[0]) && !IsSpace(x[|x| - 1]);
      assert LStrip(x) == x;
      assert Strip(x) == x;
      ParseIntCanonical(x, a);
      ParseIntCanonical(x, b);
    }
  }

  // ---------------------------------------------------------------------------
  // sep.join(parts), s.split(sep), s * n

  /** `sep.join(parts)`. */
  function Join(sep: string, parts: seq<string>): string {
    if |parts| == 0 then ""
    else if |parts| == 1 then parts[0]
    else parts[0] + sep + Join(sep, parts[1..])
  }

  /** `s.split(sep)` for a one-character separator: always at least one part. */
  function Split(s: string, sep: char): (parts: seq<string>)
    ensures |parts| >= 1
  {
    if |s| == 0 then [""]
    else
      var rest := Split(s[1..], sep);
      if s[0] == sep then [""] + rest else [[s[0]] + rest[0]] + rest[1..]
  }

  /** Splitting and joining with the same separator gives back the string. */
  lemma {:induction false} JoinSplit(s: string, sep: char)
    ensures Join([sep], Split(s, sep)) == s
    ensures forall k :: 0 <= k < |Split(s, sep)| ==> sep !in Split(s, sep)[k]
  {
    if |s| > 0 {
      var rest := Split(s[1..], sep);
      JoinSplit(s[1..], sep);
      if s[0] == sep {
        assert Split(s, sep) == [""] + rest;
        assert s == "" + [sep] + s[1..];
      } else if |rest| == 1 {
        assert Split(s, sep) == [[s[0]] + rest[0]];
        assert s == [s[0]] + s[1..];
      } else {
        var parts := Split(s, sep);
        assert parts == [[s[0]] + rest[0]] + rest[1..];
        assert parts[1..] == rest[1..];
        assert Join([sep], rest) == rest[0] + [sep] + Join([sep], rest[1..]);
        assert s == [s[0]] + s[1..];
      }
    }
  }

  /** A text free of the separator is one part. */
  lemma {:induction false} SplitWithoutSep(a: string, sep: char)
    requires sep !in a
    ensures Split(a, sep) == [a]
  {
    if |a| > 0 {
      SplitWithoutSep(a[1..], sep);
      assert [a[0]] + a[1..] == a;
    }
  }

  /** Splitting `a + sep + b`, with `a` free of the separator, cuts right after `a`. */
  lemma {:induction false} SplitAtFirstSep(a: string, b: string, sep: char)
    requires sep !in a
    ensures Split(a + [sep] + b, sep) == [a] + Split(b, sep)
  {
    if |a| == 0 {
      assert a + [sep] + b == [sep] + b;
      assert ([sep] + b)[1..] == b;
    } else {
      var s := a + [sep] + b;
      assert s[1..] == a[1..] + [sep] + b;
      SplitAtFirstSep(a[1..], b, sep);
      assert [a[0]] + a[1..] == a;
    }
  }

  /** Splitting undoes joining when no part contains the separator. */
  lemma {:induction false} SplitJoin(parts: seq<string>, sep: char)
    requires |parts| >= 1
    requires forall k :: 0 <= k < |parts| ==> sep !in parts[k]
    ensures Split(Join([sep], parts), sep) == parts
  {
    if |parts| == 1 {
      SplitWithoutSep(parts[0], sep);
    } else {
      SplitJoin(parts[1..], sep);
      SplitAtFirstSep(parts[0], Join([sep], parts[1..]), sep);
      assert [parts[0]] + parts[1..] == parts;
    }
  }

  /** The text of writing each line followed by a newline, in order. */
  function Unlines(lines: seq<string>): string {
    if |lines| == 0 then "" else Unlines(lines[..|lines| - 1]) + lines[|lines| - 1] + "\n"
  }

  /** `s * n`: n copies of s, none when n <= 0. */
  function Repeat(s: string, n: int): (r: string)
    ensures |r| == if n <= 0 then 0 else |s| * n
  {
    if n <= 0 then "" else s + Repeat(s, n - 1)
  }

  // ---------------------------------------------------------------------------
  // Prefixes

  predicate StartsWith(s: string, prefix: string) {
    |prefix| <= |s| && s[..|prefix|] == prefix
  }

  // ---------------------------------------------------------------------------
  // os.path.join(dir, name) with POSIX separators

  function PathJoin(dir: string, name: string): (p: string)
    ensures |name| > 0 && name[0] != '/' ==> |p| >= |name| && p[|p| - |name|..] == name
  {
    if |name| > 0 && name[0] == '/' then name
    else if |dir| == 0 || dir[|dir| - 1] == '/' then dir + name
    else dir + "/" + name
  }

  /** In one directory, distinct relative names give distinct paths. */
  lemma PathJoinInjective(dir: string, x: string, y: string)
    requires |x| > 0 && x[0] != '/' && |y| > 0 && y[0] != '/'
    ensures PathJoin(dir, x) == PathJoin(dir, y) <==> x == y
  {
    if PathJoin(dir, x) == PathJoin(dir, y) {
      var p := if |dir| == 0 || dir[|dir| - 1] == '/' then dir else dir + "/";
      assert PathJoin(dir, x) == p + x && PathJoin(dir, y) == p + y;
      assert x == (p + x)[|p|..];
      assert y == (p + y)[|p|..];
    }
  }

  /** The text of the small numbers the shipped contexts print. */
  lemma SmallIntStrings()
    ensures IntToString(2) == "2" && IntToString(3) == "3" && IntToString(4) == "4"
    ensures IntToString(5) == "5" && IntToString(6) == "6" && IntToString(8) == "8" && IntToString(9) == "9"
    ensures IntToString(11) == "11" && IntToString(12) == "12" && IntToString(26) == "26"
    ensures IntToString(27) == "27" && IntToString(28) == "28" && IntToString(54) == "54"
  {
    assert DigitChar(1) == '1' && DigitChar(2) == '2' && DigitChar(3) == '3' && DigitChar(4) == '4';
    assert DigitChar(5) == '5' && DigitChar(6) == '6' && DigitChar(7) == '7' && DigitChar(8) == '8';
    assert DigitChar(9) == '9';
    assert NatToString(2) == "2" && NatToString(5) == "5";
  }
}
