/** String helpers with the semantics of the Python string operations the
    tools rely on: `str.split()` (whitespace tokens), `str.split(c)`,
    `str.join`, `str.splitlines()`, the `in` operator on strings and `str(int)`. */
module Text {
  import opened Wrappers

  /** The characters Python's `str.split()` treats as whitespace (those for which
      `str.isspace` holds): the ASCII controls `\t` to `\r` and `\x1c` to `\x1f`, the space,
      and the Unicode separators. */
  predicate IsSpace(c: char) {
    c == ' ' || ('\t' <= c <= '\r') || ('\U{001C}' <= c <= '\U{001F}')
    || c == '\U{0085}' || c == '\U{00A0}' || c == '\U{1680}' || ('\U{2000}' <= c <= '\U{200A}')
    || c == '\U{2028}' || c == '\U{2029}' || c == '\U{202F}' || c == '\U{205F}' || c == '\U{3000}'
  }

  predicate NoSpace(s: string) {
    forall i :: 0 <= i < |s| ==> !IsSpace(s[i])
  }

  /** The longest prefix of `s` without whitespace. */
  function Word(s: string): (w: string)
    ensures |w| <= |s| && w == s[..|w|] && NoSpace(w)
    ensures |w| < |s| ==> IsSpace(s[|w|])
  {
    if s == [] || IsSpace(s[0]) then [] else [s[0]] + Word(s[1..])
  }

  /** Python's `s.split()`: the maximal runs of non-whitespace characters. */
  function Tokens(s: string): (ts: seq<string>)
    decreases |s|
  {
    if s == [] then []
    else if IsSpace(s[0]) then Tokens(s[1..])
    else
      var w := Word(s);
      [w] + Tokens(s[|w|..])
  }

  lemma {:induction false} WordBeforeSpace(x: string, c: char, y: string)
    requires IsSpace(c)
    ensures Word(x + [c] + y) == Word(x)
  {
    if x == [] {
    } else if IsSpace(x[0]) {
    } else {
      assert (x + [c] + y)[1..] == x[1..] + [c] + y;
      WordBeforeSpace(x[1..], c, y);
    }
  }

  lemma {:induction false} WordOfNoSpace(w: string)
    requires NoSpace(w)
    ensures Word(w) == w
  {
    if w != [] {
      WordOfNoSpace(w[1..]);
    }
  }

  /** A whitespace character separates the tokens on its two sides. */
  lemma {:induction false} TokensSplitAtSpace(x: string, c: char, y: string)
    requires IsSpace(c)
    ensures Tokens(x + [c] + y) == Tokens(x) + Tokens(y)
    decreases |x|
  {
    var s := x + [c] + y;
    if x == [] {
      assert s[1..] == y;
    } else if IsSpace(x[0]) {
      assert s[1..] == x[1..] + [c] + y;
      TokensSplitAtSpace(x[1..], c, y);
    } else {
      WordBeforeSpace(x, c, y);
      var w := Word(x);
      assert s[|w|..] == x[|w|..] + [c] + y;
      TokensSplitAtSpace(x[|w|..], c, y);
    }
  }

  /** A non-empty word without whitespace is a single token. */
  lemma TokensOfWord(w: string)
    requires w != [] && NoSpace(w)
    ensures Tokens(w) == [w]
  {
    WordOfNoSpace(w);
    assert w[|w|..] == [];
  }

  /** Every token is non-empty and holds no whitespace. */
  lemma {:induction false} TokensAreWords(s: string)
    ensures forall t :: t in Tokens(s) ==> t != [] && NoSpace(t)
    decreases |s|
  {
    if s == [] {
    } else if IsSpace(s[0]) {
      TokensAreWords(s[1..]);
    } else {
      TokensAreWords(s[|Word(s)|..]);
    }
  }

  predicate IsPrefix(p: string, s: string) {
    |p| <= |s| && s[..|p|] == p
  }

  /** Python's `p in s` for strings. */
  predicate IsSubstring(p: string, s: string)
    decreases |s|
  {
    IsPrefix(p, s) || (s != [] && IsSubstring(p, s[1..]))
  }

  lemma {:induction false} SubstringOfConcat(p: string, a: string, b: string)
    requires IsSubstring(p, b)
    ensures IsSubstring(p, a + b)
    decreases |a|
  {
    if a == [] {
      assert a + b == b;
    } else {
      assert (a + b)[1..] == a[1..] + b;
      SubstringOfConcat(p, a[1..], b);
    }
  }

  lemma {:induction false} SubstringOfPrefix(p: string, a: string, b: string)
    requires IsSubstring(p, a)
    ensures IsSubstring(p, a + b)
    decreases |a|
  {
    if IsPrefix(p, a) {
      assert (a + b)[..|p|] == a[..|p|];
    } else {
      assert (a + b)[1..] == a[1..] + b;
      SubstringOfPrefix(p, a[1..], b);
    }
  }

  /** The text `p` occurs in any string that contains it verbatim. */
  lemma SubstringInside(p: string, a: string, b: string)
    ensures IsSubstring(p, a + p + b)
  {
    assert IsPrefix(p, p + b);
    SubstringOfConcat(p, a, p + b);
    assert a + p + b == a + (p + b);
  }

  /** Python's `s.split(c)` for a one-character separator. */
  function Split(s: string, c: char): (r: seq<string>)
    ensures |r| >= 1
  {
    if s == [] then [[]]
    else
      var rest := Split(s[1..], c);
      if s[0] == c then [[]] + rest else [[s[0]] + rest[0]] + rest[1..]
  }

  /** Python's `sep.join(parts)`. */
  function Join(sep: string, parts: seq<string>): string {
    if parts == [] then []
    else if |parts| == 1 then parts[0]
    else parts[0] + sep + Join(sep, parts[1..])
  }

  /** A string without the separator splits into itself. */
  lemma {:induction false} SplitWithout(s: string, c: char)
    requires c !in s
    ensures Split(s, c) == [s]
  {
    if s != [] {
      assert c !in s[1..];
      SplitWithout(s[1..], c);
      assert [s[0]] + s[1..] == s;
    }
  }

  /** Splitting `a + [c] + b` at `c` when `a` holds no `c`. */
  lemma {:induction false} SplitAtFirst(a: string, c: char, b: string)
    requires c !in a
    ensures Split(a + [c] + b, c) == [a] + Split(b, c)
    decreases |a|
  {
    var s := a + [c] + b;
    if a == [] {
      assert s[1..] == b;
    } else {
      assert s[1..] == a[1..] + [c] + b;
      assert c !in a[1..];
      SplitAtFirst(a[1..], c, b);
      assert [a[0]] + a[1..] == a;
    }
  }

  /** A separator between two texts splits them independently. */
  lemma {:induction false} SplitConcat(a: string, c: char, b: string)
    ensures Split(a + [c] + b, c) == Split(a, c) + Split(b, c)
    decreases |a|
  {
    var s := a + [c] + b;
    if a == [] {
      assert s[1..] == b;
    } else {
      assert s[1..] == a[1..] + [c] + b;
      SplitConcat(a[1..], c, b);
    }
  }

  /** Splitting at `c` and joining with `c` gives back the string, and no part holds `c`. */
  lemma {:induction false} SplitJoin(s: string, c: char)
    ensures Join([c], Split(s, c)) == s
    ensures forall p :: p in Split(s, c) ==> c !in p
  {
    if s != [] {
      SplitJoin(s[1..], c);
      var rest := Split(s[1..], c);
      if s[0] != c {
        if |rest| > 1 {
          assert Join([c], rest) == rest[0] + [c] + Join([c], rest[1..]);
          assert ([[s[0]] + rest[0]] + rest[1..])[1..] == rest[1..];
        }
      }
    }
  }

  /** The line boundaries of Python's `str.splitlines()`; `\r\n` is one boundary. */
  predicate IsLineBreak(c: char) {
    ('\n' <= c <= '\r') || ('\U{001C}' <= c <= '\U{001E}') || c == '\U{0085}' || c == '\U{2028}' || c == '\U{2029}'
  }

  predicate NoBreak(s: string) {
    forall i :: 0 <= i < |s| ==> !IsLineBreak(s[i])
  }

  /** Every line boundary is whitespace, so text without whitespace has no line boundary. */
  lemma NoSpaceNoBreak(s: string)
    requires NoSpace(s)
    ensures NoBreak(s)
  {
  }

  /** The longest prefix of `s` without a line boundary. */
  function LineOf(s: string): (l: string)
    ensures |l| <= |s| && l == s[..|l|] && NoBreak(l)
    ensures |l| < |s| ==> IsLineBreak(s[|l|])
  {
    if s == [] || IsLineBreak(s[0]) then [] else [s[0]] + LineOf(s[1..])
  }

  /** Python's `s.splitlines()`: the text between line boundaries, where `\r\n` counts as one
      boundary and a final boundary does not open an empty last line. */
  function Lines(s: string): (ls: seq<string>)
    decreases |s|
  {
    if s == [] then []
    else
      var l := LineOf(s);
      if |l| == |s| then [s]
      else
        var n := if s[|l|] == '\r' && |l| + 1 < |s| && s[|l| + 1] == '\n' then |l| + 2 else |l| + 1;
        [l] + Lines(s[n..])
  }

  lemma {:induction false} LineOfBefore(x: string, c: char, y: string)
    requires NoBreak(x) && IsLineBreak(c)
    ensures LineOf(x + [c] + y) == x
  {
    if x != [] {
      assert (x + [c] + y)[1..] == x[1..] + [c] + y;
      LineOfBefore(x[1..], c, y);
    }
  }

  /** A line without a boundary, then `\n`: the line comes first and the rest is split on its
      own. */
  lemma LinesAtNewline(x: string, y: string)
    requires NoBreak(x)
    ensures Lines(x + "\n" + y) == [x] + Lines(y)
  {
    var s := x + "\n" + y;
    assert s == x + ['\n'] + y;
    LineOfBefore(x, '\n', y);
    assert s[|x|] == '\n';
    assert s[|x| + 1..] == y;
  }

  lemma {:induction false} LineOfNoBreak(y: string)
    requires NoBreak(y)
    ensures LineOf(y) == y
  {
    if y != [] {
      LineOfNoBreak(y[1..]);
    }
  }

  lemma LinesOfLine(y: string)
    requires y != [] && NoBreak(y)
    ensures Lines(y) == [y]
  {
    LineOfNoBreak(y);
  }

  /** `\r\n` is one line boundary, not two. */
  lemma CrLf(x: string, y: string)
    requires NoBreak(x) && y != [] && NoBreak(y)
    ensures Lines(x + "\r\n" + y) == [x, y]
  {
    var s := x + "\r\n" + y;
    assert s == x + ['\r'] + (['\n'] + y);
    LineOfBefore(x, '\r', ['\n'] + y);
    assert s[|x|] == '\r' && s[|x| + 1] == '\n' && s[|x| + 2..] == y;
    LinesOfLine(y);
  }

  /** Any single boundary character, a lone `\r` included, separates two lines. */
  lemma OneBreak(x: string, c: char, y: string)
    requires IsLineBreak(c) && NoBreak(x) && y != [] && NoBreak(y)
    ensures Lines(x + [c] + y) == [x, y]
  {
    var s := x + [c] + y;
    LineOfBefore(x, c, y);
    assert s[|x|] == c && s[|x| + 1..] == y;
    LinesOfLine(y);
  }

  /** Python's `str.upper()` on one ASCII character. */
  function Upper(c: char): char {
    if 'a' <= c <= 'z' then (c as int - 32) as char else c
  }

  function DigitChar(d: int): char
    requires 0 <= d < 10
  {
    ('0' as int + d) as char
  }

  function NatToString(n: nat): (s: string)
    ensures |s| >= 1
    ensures forall i :: 0 <= i < |s| ==> '0' <= s[i] <= '9'
  {
    if n < 10 then [DigitChar(n)] else NatToString(n / 10) + [DigitChar(n % 10)]
  }

  /** Python's `str(i)` for an integer: decimal digits, with `-` when negative. */
  function IntToString(i: int): (s: string)
    ensures s != [] && NoSpace(s)
    ensures s[0] == '-' <==> i < 0
  {
    if i < 0 then "-" + NatToString(-i) else NatToString(i)
  }

  predicate IsDigits(s: string) {
    s != [] && forall i :: 0 <= i < |s| ==> '0' <= s[i] <= '9'
  }

  /** The number a string of decimal digits denotes. */
  function DecimalValue(s: string): nat
    requires forall i :: 0 <= i < |s| ==> '0' <= s[i] <= '9'
  {
    if s == [] then 0 else DecimalValue(s[..|s| - 1]) * 10 + (s[|s| - 1] as int - '0' as int)
  }

  /** Reads a decimal numeral, optionally preceded by `-`. */
  function ParseInt(s: string): Option<int> {
    if s != [] && s[0] == '-' then (if IsDigits(s[1..]) then Some(0 - DecimalValue(s[1..])) else None)
    else if IsDigits(s) then Some(DecimalValue(s)) else None
  }

  /** The digits of a natural number denote it, without a leading zero. */
  lemma {:induction false} NatToStringValue(n: nat)
    ensures DecimalValue(NatToString(n)) == n
    ensures n > 0 ==> NatToString(n)[0] != '0'
  {
    var s := NatToString(n);
    if n < 10 {
      assert s[..0] == [];
    } else {
      NatToStringValue(n / 10);
      assert s[..|s| - 1] == NatToString(n / 10);
      assert s[|s| - 1] == DigitChar(n % 10);
      assert s[0] == NatToString(n / 10)[0];
    }
  }

  lemma ParseNegative(t: string)
    requires IsDigits(t)
    ensures ParseInt("-" + t) == Some(0 - DecimalValue(t))
  {
    assert ("-" + t)[1..] == t;
  }

  lemma ParseNatural(t: string)
    requires IsDigits(t)
    ensures ParseInt(t) == Some(DecimalValue(t) as int)
  {
  }

  lemma NegativeNumeral(n: nat)
    requires n > 0
    ensures ParseInt("-" + NatToString(n)) == Some(0 - n)
    ensures IsDigits(NatToString(n)) && NatToString(n)[0] != '0'
  {
    NatToStringValue(n);
    ParseNegative(NatToString(n));
  }

  lemma DropSign(t: string)
    ensures ("-" + t)[1..] == t
  {
  }

  lemma NegativeRoundTrip(i: int)
    requires i < 0
    ensures ParseInt(IntToString(i)) == Some(i)
    ensures IsDigits(IntToString(i)[1..]) && IntToString(i)[1..][0] != '0'
  {
    var t := NatToString(-i);
    NegativeNumeral(-i);
    DropSign(t);
    assert IntToString(i) == "-" + t;
  }

  lemma NaturalRoundTrip(n: nat)
    ensures ParseInt(IntToString(n)) == Some(n)
    ensures IsDigits(IntToString(n)) && (IntToString(n)[0] == '0' <==> n == 0)
  {
    var t := NatToString(n);
    NatToStringValue(n);
    ParseNatural(t);
    assert IntToString(n) == t;
    if n == 0 {
      assert t == ['0'];
    }
  }

  /** `str(i)` is the decimal numeral of `i`: it reads back as `i`, and its digits have no
      leading zero unless `i` is 0. */
  lemma IntToStringRoundTrip(i: int)
    ensures ParseInt(IntToString(i)) == Some(i)
    ensures var d := if i < 0 then IntToString(i)[1..] else IntToString(i);
      IsDigits(d) && (d[0] == '0' <==> i == 0)
  {
    if i < 0 {
      NegativeRoundTrip(i);
    } else {
      NaturalRoundTrip(i);
    }
  }
}
