/**
 * The JavaScript string built-ins the source relies on, over `seq<char>`:
 * `trim`, `split` on a single character, `join`, `filter(Boolean)`,
 * `parseInt(_, 10)` and `padEnd`.  Lengths are counted in characters, not in
 * UTF-16 code units.
 */
module JsText {
  import opened Base

  /** The characters `String.prototype.trim` removes: ECMAScript WhiteSpace and LineTerminator. */
  predicate IsWhitespace(c: char) {
    || c == ' ' || c == '\t' || c == '\n' || c == '\r'
    || c == '\U{000B}' || c == '\U{000C}' || c == '\U{00A0}' || c == '\U{FEFF}'
    || c == '\U{1680}' || ('\U{2000}' <= c <= '\U{200A}') || c == '\U{2028}'
    || c == '\U{2029}' || c == '\U{202F}' || c == '\U{205F}' || c == '\U{3000}'
  }

  predicate AllWhitespace(s: string) {
    forall i :: 0 <= i < |s| ==> IsWhitespace(s[i])
  }

  /** Neither begins nor ends with whitespace: what `trim` returns, and what it leaves alone. */
  predicate IsTrimmed(s: string) {
    s == [] || (!IsWhitespace(s[0]) && !IsWhitespace(s[|s| - 1]))
  }

  /** `trimStart`: the longest suffix that does not begin with whitespace. */
  function TrimStart(s: string): (r: string)
    ensures |r| <= |s| && r == s[|s| - |r|..]
    ensures r == [] || !IsWhitespace(r[0])
    ensures forall i :: 0 <= i < |s| - |r| ==> IsWhitespace(s[i])
  {
    if s != [] && IsWhitespace(s[0]) then TrimStart(s[1..]) else s
  }

  /** `trimEnd`: the longest prefix that does not end with whitespace. */
  function TrimEnd(s: string): (r: string)
    ensures |r| <= |s| && r == s[..|r|]
    ensures r == [] || !IsWhitespace(r[|r| - 1])
    ensures forall i :: |r| <= i < |s| ==> IsWhitespace(s[i])
  {
    if s != [] && IsWhitespace(s[|s| - 1]) then TrimEnd(s[..|s| - 1]) else s
  }

  /** `r` is the slice of `s` that starts at `i`, and `s` holds only whitespace before and after it. */
  predicate WhitespaceAround(s: string, i: int, r: string) {
    && 0 <= i && i + |r| <= |s| && r == s[i..i + |r|]
    && AllWhitespace(s[..i]) && AllWhitespace(s[i + |r|..])
  }

  /**
   * `trim`: the input with its leading and trailing whitespace removed
   * (`TrimSlice` shows it is the slice of `s` between that whitespace).
   */
  function Trim(s: string): (r: string)
    ensures IsTrimmed(r)
    ensures |r| <= |s|
    ensures forall c :: c in r ==> c in s
  {
    TrimEnd(TrimStart(s))
  }

  /** `trim` keeps the slice of its input that starts where `trimStart` stops, with only whitespace outside it. */
  lemma TrimSlice(s: string)
    ensures WhitespaceAround(s, |s| - |TrimStart(s)|, TrimEnd(TrimStart(s)))
  {
    var t := TrimStart(s);
    BetweenWhitespace(s, t, TrimEnd(t));
  }

  /** A prefix `r` of a suffix `t` of `s`, with whitespace before `t` and after `r`, is a slice with whitespace around it. */
  lemma BetweenWhitespace(s: string, t: string, r: string)
    requires |t| <= |s| && t == s[|s| - |t|..]
    requires |r| <= |t| && r == t[..|r|]
    requires forall k :: 0 <= k < |s| - |t| ==> IsWhitespace(s[k])
    requires forall k :: |r| <= k < |t| ==> IsWhitespace(t[k])
    ensures WhitespaceAround(s, |s| - |t|, r)
  {
    PrefixOfSuffix(s, t, r);
    WhitespacePrefix(s, |s| - |t|);
    WhitespaceSuffix(t, |r|);
  }

  lemma WhitespacePrefix(s: string, n: nat)
    requires n <= |s| && forall k :: 0 <= k < n ==> IsWhitespace(s[k])
    ensures AllWhitespace(s[..n])
  {
    forall k | 0 <= k < n
      ensures IsWhitespace(s[..n][k])
    {
      assert s[..n][k] == s[k];
    }
  }

  lemma WhitespaceSuffix(s: string, n: nat)
    requires n <= |s| && forall k :: n <= k < |s| ==> IsWhitespace(s[k])
    ensures AllWhitespace(s[n..])
  {
    forall k | 0 <= k < |s| - n
      ensures IsWhitespace(s[n..][k])
    {
      assert s[n..][k] == s[n + k];
    }
  }

  /** A prefix `r` of a suffix `t` of `s` is the slice of `s` that starts where `t` does. */
  lemma PrefixOfSuffix(s: string, t: string, r: string)
    requires |t| <= |s| && t == s[|s| - |t|..]
    requires |r| <= |t| && r == t[..|r|]
    ensures var i := |s| - |t|; r == s[i..i + |r|] && s[i + |r|..] == t[|r|..]
  {
  }

  lemma {:induction false} TrimStartPadded(pre: string, x: string)
    requires AllWhitespace(pre)
    requires x == [] || !IsWhitespace(x[0])
    ensures TrimStart(pre + x) == x
  {
    if pre != [] {
      assert (pre + x)[1..] == pre[1..] + x;
      TrimStartPadded(pre[1..], x);
    } else {
      assert pre + x == x;
    }
  }

  lemma {:induction false} TrimEndPadded(x: string, post: string)
    requires AllWhitespace(post)
    requires x == [] || !IsWhitespace(x[|x| - 1])
    ensures TrimEnd(x + post) == x
  {
    if post != [] {
      assert (x + post)[..|x + post| - 1] == x + post[..|post| - 1];
      TrimEndPadded(x, post[..|post| - 1]);
    } else {
      assert x + post == x;
    }
  }

  /**
   * `trimEnd` stops inside `y` when something of `y` survives it, or at the
   * end of `x` when `x` ends in a non-whitespace character: either way `x`
   * is kept whole.
   */
  lemma {:induction false} TrimEndWithin(x: string, y: string)
    requires TrimEnd(y) != [] || (x != [] && !IsWhitespace(x[|x| - 1]))
    ensures TrimEnd(x + y) == x + TrimEnd(y)
  {
    if y == [] {
      assert x + y == x;
    } else if IsWhitespace(y[|y| - 1]) {
      var shorter := y[..|y| - 1];
      assert (x + y)[..|x + y| - 1] == x + shorter;
      TrimEndWithin(x, shorter);
    } else {
      assert (x + y)[|x + y| - 1] == y[|y| - 1];
    }
  }

  /** `trim` removes exactly whitespace padding from either side of a trimmed string. */
  lemma TrimPadded(pre: string, s: string, post: string)
    requires AllWhitespace(pre) && AllWhitespace(post)
    requires IsTrimmed(s)
    ensures Trim(pre + s + post) == s
  {
    if s == [] {
      assert pre + s + post == pre + post;
      TrimStartPadded(pre + post, []);
      assert pre + post + [] == pre + post;
    } else {
      assert pre + s + post == pre + (s + post);
      TrimStartPadded(pre, s + post);
      TrimEndPadded(s, post);
    }
  }

  lemma TrimOfTrimmed(s: string)
    requires IsTrimmed(s)
    ensures Trim(s) == s
  {
    TrimPadded([], s, []);
    assert [] + s + [] == s;
  }

  /** `parts.join(sep)` for a one-character separator. */
  function Join(parts: seq<string>, sep: char): string {
    if |parts| == 0 then []
    else if |parts| == 1 then parts[0]
    else parts[0] + [sep] + Join(parts[1..], sep)
  }

  /** Joining a first part onto one or more others puts the separator between them. */
  lemma JoinCons(p: string, parts: seq<string>, sep: char)
    requires parts != []
    ensures Join([p] + parts, sep) == p + [sep] + Join(parts, sep)
  {
    assert ([p] + parts)[1..] == parts;
  }

  /**
   * What `join` puts at the ends of its result: the first part, followed by
   * the separator when there is a second, and the last part at the end.
   */
  lemma {:induction false} JoinEnds(parts: seq<string>, sep: char)
    requires |parts| >= 1
    ensures var r, first, last := Join(parts, sep), parts[0], parts[|parts| - 1];
      && |first| <= |r| && r[..|first|] == first
      && (|parts| >= 2 ==> |first| < |r| && r[|first|] == sep)
      && |last| <= |r| && r[|r| - |last|..] == last
  {
    if |parts| >= 2 {
      JoinEnds(parts[1..], sep);
    }
  }

  /**
   * `s.split(sep)`: the pieces between separators, in order.  It is never
   * empty (`"".split("\n")` is `[""]`), no piece holds the separator, and
   * joining the pieces gives back `s`.
   */
  function Split(s: string, sep: char): (parts: seq<string>)
    ensures |parts| >= 1
    ensures forall i :: 0 <= i < |parts| ==> sep !in parts[i]
    ensures Join(parts, sep) == s
  {
    if s == [] then [[]]
    else
      var rest := Split(s[1..], sep);
      if s[0] == sep then [[]] + rest
      else
        assert [s[0]] + rest[0] + [sep] == [s[0]] + (rest[0] + [sep]);
        [[s[0]] + rest[0]] + rest[1..]
  }

  /** A string without the separator is a single piece. */
  lemma {:induction false} SplitNoSeparator(a: string, sep: char)
    requires sep !in a
    ensures Split(a, sep) == [a]
  {
    if a != [] {
      SplitNoSeparator(a[1..], sep);
      assert a == [a[0]] + a[1..];
    }
  }

  /** Splitting at a first separator: the piece before it comes first. */
  lemma {:induction false} SplitAtFirst(a: string, sep: char, b: string)
    requires sep !in a
    ensures Split(a + [sep] + b, sep) == [a] + Split(b, sep)
  {
    var s := a + [sep] + b;
    if a == [] {
      assert s[0] == sep && s[1..] == b;
    } else {
      assert s[0] == a[0] && s[1..] == a[1..] + [sep] + b;
      SplitAtFirst(a[1..], sep, b);
      assert [a[0]] + a[1..] == a;
    }
  }

  /** `split` undoes `join` whenever no piece holds the separator. */
  lemma {:induction false} SplitJoin(parts: seq<string>, sep: char)
    requires |parts| >= 1
    requires forall i :: 0 <= i < |parts| ==> sep !in parts[i]
    ensures Split(Join(parts, sep), sep) == parts
  {
    if |parts| == 1 {
      SplitNoSeparator(parts[0], sep);
    } else {
      SplitAtFirst(parts[0], sep, Join(parts[1..], sep));
      SplitJoin(parts[1..], sep);
      assert parts == [parts[0]] + parts[1..];
    }
  }

  /** `filter(Boolean)` on a list of strings: drops the empty strings, keeps the order. */
  function RemoveEmpty(parts: seq<string>): (r: seq<string>)
    ensures |r| <= |parts|
    ensures forall x :: x in r <==> x in parts && x != []
  {
    if parts == [] then []
    else if parts[0] == [] then RemoveEmpty(parts[1..])
    else [parts[0]] + RemoveEmpty(parts[1..])
  }

  lemma {:induction false} RemoveEmptyKeepsNonEmpty(parts: seq<string>)
    requires forall i :: 0 <= i < |parts| ==> parts[i] != []
    ensures RemoveEmpty(parts) == parts
  {
    if parts != [] {
      RemoveEmptyKeepsNonEmpty(parts[1..]);
    }
  }

  lemma {:induction false} RemoveEmptyAppend(p: seq<string>, q: seq<string>)
    ensures RemoveEmpty(p + q) == RemoveEmpty(p) + RemoveEmpty(q)
  {
    if p == [] {
      assert p + q == q;
    } else {
      assert (p + q)[1..] == p[1..] + q;
      RemoveEmptyAppend(p[1..], q);
    }
  }

  /** JavaScript truthiness of an optional string: present and not empty. */
  predicate Truthy(s: Option<string>) {
    s.Some? && s.value != []
  }

  /** `a` occurs in `b` starting at index `i`. */
  predicate OccursAt(a: string, b: string, i: int) {
    0 <= i <= |b| - |a| && b[i..i + |a|] == a
  }

  predicate IsDigit(c: char) {
    '0' <= c <= '9'
  }

  predicate AllDigits(s: string) {
    forall i :: 0 <= i < |s| ==> IsDigit(s[i])
  }

  /** The longest prefix made of decimal digits. */
  function DigitRun(s: string): (d: string)
    ensures |d| <= |s| && d == s[..|d|]
    ensures AllDigits(d)
    ensures |d| == |s| || !IsDigit(s[|d|])
  {
    if s != [] && IsDigit(s[0]) then [s[0]] + DigitRun(s[1..]) else []
  }

  /** The number a run of decimal digits denotes. */
  function DigitsValue(d: string): nat
    requires AllDigits(d)
  {
    if d == [] then 0
    else DigitsValue(d[..|d| - 1]) * 10 + (d[|d| - 1] as int - '0' as int)
  }

  /**
   * `parseInt(s, 10)`: skip leading whitespace, read an optional sign and
   * the longest run of digits after it; `None` stands for `NaN`, which is
   * what JavaScript gives when no digit follows.
   */
  function ParseInt(s: string): (r: Option<int>)
    ensures s == [] ==> r == None
    ensures s != [] && IsDigit(s[0]) ==> r == Some(DigitsValue(DigitRun(s)))
    ensures s != [] && !IsDigit(s[0]) && !IsWhitespace(s[0]) && s[0] != '+' && s[0] != '-' ==> r == None
  {
    assert (s == [] || !IsWhitespace(s[0])) ==> TrimStart(s) == s;
    var t := TrimStart(s);
    var signed := t != [] && (t[0] == '+' || t[0] == '-');
    var u := if signed then t[1..] else t;
    var d := DigitRun(u);
    var v: int := if d == [] then 0 else DigitsValue(d);
    if d == [] then None
    else if signed && t[0] == '-' then Some(-v)
    else Some(v)
  }

  /** The decimal numeral of a natural number, as git prints counts. */
  function Decimal(n: nat): (s: string)
    ensures s != [] && AllDigits(s)
  {
    if n < 10 then ['0' + n as char]
    else Decimal(n / 10) + ['0' + (n % 10) as char]
  }

  lemma {:induction false} DecimalValue(n: nat)
    ensures DigitsValue(Decimal(n)) == n
  {
    if n >= 10 {
      var s := Decimal(n);
      assert s[..|s| - 1] == Decimal(n / 10);
      DecimalValue(n / 10);
    }
  }

  lemma {:induction false} DigitRunOfDigits(d: string, rest: string)
    requires AllDigits(d)
    requires rest == [] || !IsDigit(rest[0])
    ensures DigitRun(d + rest) == d
  {
    if d != [] {
      assert (d + rest)[1..] == d[1..] + rest;
      DigitRunOfDigits(d[1..], rest);
      assert d == [d[0]] + d[1..];
    } else {
      assert d + rest == rest;
    }
  }

  /** A string that does not begin with whitespace is its own `trimStart`. */
  lemma TrimStartKeeps(s: string)
    requires s == [] || !IsWhitespace(s[0])
    ensures TrimStart(s) == s
  {
  }

  /** A first line without a break, a break and the rest: the first piece of the split, and what follows it. */
  lemma FirstLineAndRest(first: string, rest: string)
    requires '\n' !in first
    ensures var s := first + "\n" + rest;
      && Split(s, '\n')[0] == first
      && s[|first|..] == "\n" + rest
      && '\n' in s
  {
    var s, tail := first + "\n" + rest, "\n" + rest;
    assert Split(s, '\n')[0] == first by {
      SplitAtFirst(first, '\n', rest);
    }
    assert s == first + tail;
    assert s[|first|] == tail[0];
  }

  /** Two line breaks before a trimmed string are all that `trim` removes. */
  lemma TrimLeadingBreaks(s: string)
    requires IsTrimmed(s)
    ensures Trim("\n" + ("\n" + s)) == s
  {
    var once := ['\n'] + s;
    TrimStartSkips('\n', once);
    TrimStartSkips('\n', s);
    TrimStartKeeps(s);
    TrimEndKeeps(s);
  }

  /** A trailing carriage return is all `trim` removes from a trimmed string. */
  lemma TrimCarriageReturn(t: string)
    requires IsTrimmed(t)
    ensures Trim(t + "\r") == t
  {
    TrimPadded([], t, "\r");
    assert [] + t + "\r" == t + "\r";
  }

  /** A leading carriage return and line feed are all `trim` removes from a trimmed string. */
  lemma TrimCrlfPrefix(t: string)
    requires IsTrimmed(t)
    ensures Trim("\r\n" + t) == t
  {
    TrimPadded("\r\n", t, []);
    assert "\r\n" + t + [] == "\r\n" + t;
  }

  /** `trimStart` passes over a leading whitespace character. */
  lemma TrimStartSkips(c: char, s: string)
    requires IsWhitespace(c)
    ensures TrimStart([c] + s) == TrimStart(s)
  {
    assert ([c] + s)[1..] == s;
  }

  /** A string that does not end with whitespace is its own `trimEnd`. */
  lemma TrimEndKeeps(s: string)
    requires s == [] || !IsWhitespace(s[|s| - 1])
    ensures TrimEnd(s) == s
  {
  }

  /** A minus sign not followed by a digit is not a number to `parseInt`. */
  lemma ParseIntOfBareSign(rest: string)
    requires rest == [] || !IsDigit(rest[0])
    ensures ParseInt("-" + rest) == None
  {
    var s := "-" + rest;
    TrimStartKeeps(s);
    assert s[0] == '-' && s[1..] == rest;
    assert DigitRun(rest) == [];
  }

  /** `parseInt` reads back a decimal numeral followed by anything but a digit. */
  lemma ParseIntDecimal(n: nat, rest: string)
    requires rest == [] || !IsDigit(rest[0])
    ensures ParseInt(Decimal(n) + rest) == Some(n)
  {
    var s := Decimal(n) + rest;
    assert s[0] == Decimal(n)[0];
    DigitRunOfDigits(Decimal(n), rest);
    DecimalValue(n);
  }

  /** `s.padEnd(n)`: `s` followed by as many spaces as bring it to length `n`. */
  function PadEnd(s: string, n: nat): (r: string)
    ensures |r| == if |s| >= n then |s| else n
    ensures r[..|s|] == s
    ensures forall i :: |s| <= i < |r| ==> r[i] == ' '
  {
    if |s| >= n then s else s + seq(n - |s|, _ => ' ')
  }
}
