/** The few Python string and path operations the pilot relies on, over
    `seq<char>`: `str.split(sep)` with a one-character separator, its inverse
    `sep.join(parts)`, ASCII `str.lower()`, substring `in`,
    `os.path.join(a, b)` and `str(n)` for a natural number. */
module PyStr {

  /** `sep.join(parts)`; Python's `split` never yields an empty list, so
      neither is one joined here. */
  function Join(parts: seq<string>, sep: char): string
    requires |parts| >= 1
    decreases |parts|
  {
    if |parts| == 1 then parts[0] else parts[0] + [sep] + Join(parts[1..], sep)
  }

  /** `s.split(sep)`: the pieces between separators, empty pieces included. */
  function Split(s: string, sep: char): (parts: seq<string>)
    ensures |parts| >= 1
    ensures forall i :: 0 <= i < |parts| ==> sep !in parts[i]
    ensures Join(parts, sep) == s
    decreases |s|
  {
    if s == [] then [""]
    else
      var rest := Split(s[1..], sep);
      if s[0] == sep then
        [""] + rest
      else
        assert Join([[s[0]] + rest[0]] + rest[1..], sep) == [s[0]] + Join(rest, sep);
        [[s[0]] + rest[0]] + rest[1..]
  }

  /** A piece free of the separator splits to itself. */
  lemma {:induction false} SplitPlain(x: string, sep: char)
    requires sep !in x
    ensures Split(x, sep) == [x]
    decreases |x|
  {
    if x != [] {
      SplitPlain(x[1..], sep);
    }
  }

  /** Splitting `x + sep + s` peels off `x` when `x` holds no separator. */
  lemma {:induction false} SplitCons(x: string, sep: char, s: string)
    requires sep !in x
    ensures Split(x + [sep] + s, sep) == [x] + Split(s, sep)
    decreases |x|
  {
    if x == [] {
      assert x + [sep] + s == [sep] + s;
      assert ([sep] + s)[1..] == s;
    } else {
      var w := x + [sep] + s;
      assert w[0] == x[0] && w[1..] == x[1..] + [sep] + s;
      SplitCons(x[1..], sep, s);
      assert [x[0]] + x[1..] == x;
    }
  }

  /** `split` inverts `join` when no part contains the separator. */
  lemma {:induction false} SplitJoin(parts: seq<string>, sep: char)
    requires |parts| >= 1
    requires forall i :: 0 <= i < |parts| ==> sep !in parts[i]
    ensures Split(Join(parts, sep), sep) == parts
    decreases |parts|
  {
    if |parts| == 1 {
      SplitPlain(parts[0], sep);
    } else {
      SplitJoin(parts[1..], sep);
      SplitCons(parts[0], sep, Join(parts[1..], sep));
      assert [parts[0]] + parts[1..] == parts;
    }
  }

  /** ASCII lower-casing of one character. */
  function LowerChar(c: char): char
  {
    if 'A' <= c <= 'Z' then (c as int - 'A' as int + 'a' as int) as char else c
  }

  /** `s.lower()` restricted to ASCII letters. */
  function Lower(s: string): (r: string)
    ensures |r| == |s|
    ensures forall i :: 0 <= i < |s| ==> r[i] == LowerChar(s[i])
  {
    seq(|s|, i requires 0 <= i < |s| => LowerChar(s[i]))
  }

  /** Python's `sub in s` for strings. */
  predicate Contains(s: string, sub: string)
    decreases |s|
  {
    if |s| < |sub| then false
    else if s[..|sub|] == sub then true
    else Contains(s[1..], sub)
  }

  /** An occurrence at any offset makes `Contains` true. */
  lemma {:induction false} ContainsAt(s: string, sub: string, i: nat)
    requires i + |sub| <= |s| && s[i..i + |sub|] == sub
    ensures Contains(s, sub)
    decreases i
  {
    if i > 0 && s[..|sub|] != sub {
      assert s[1..][i - 1..i - 1 + |sub|] == s[i..i + |sub|];
      ContainsAt(s[1..], sub, i - 1);
    }
  }

  /** A string contains whatever was concatenated into it. */
  lemma ContainsInfix(s: string, a: string, sub: string, b: string)
    requires s == a + sub + b
    ensures Contains(s, sub)
  {
    assert s[|a|..|a| + |sub|] == sub;
    ContainsAt(s, sub, |a|);
  }

  /** `os.path.join(a, b)` for two components (POSIX rules). */
  function PathJoin(a: string, b: string): string
  {
    if |b| > 0 && b[0] == '/' then b
    else if a == [] || a[|a| - 1] == '/' then a + b
    else a + "/" + b
  }

  /** Joining a fixed directory with relative names is injective. */
  lemma PathJoinInjective(a: string, b1: string, b2: string)
    requires |b1| > 0 && b1[0] != '/' && |b2| > 0 && b2[0] != '/'
    requires PathJoin(a, b1) == PathJoin(a, b2)
    ensures b1 == b2
  {
    var p := if a == [] || a[|a| - 1] == '/' then a else a + "/";
    assert PathJoin(a, b1) == p + b1 && PathJoin(a, b2) == p + b2;
    assert b1 == (p + b1)[|p|..] && b2 == (p + b2)[|p|..];
  }

  function DigitChar(d: nat): char
    requires d < 10
  {
    ('0' as int + d) as char
  }

  /** `str(n)` for a natural number: its decimal digits. */
  function NatToString(n: nat): (s: string)
    ensures |s| >= 1
    ensures forall i :: 0 <= i < |s| ==> '0' <= s[i] <= '9'
  {
    if n < 10 then [DigitChar(n)] else NatToString(n / 10) + [DigitChar(n % 10)]
  }
}
