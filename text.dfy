/** Python string helpers the engine relies on: `str.strip()`, `str.split(sep)`
    and `int(str)` on configuration values. */
module Text {
  import opened Wrappers

  /** The characters Python's `str.isspace()` accepts, which `str.strip()` removes. */
  predicate IsSpace(c: char) {
    || c == ' ' || c == '\t' || c == '\n' || c == '\r' || c == '\U{B}' || c == '\U{C}'
    || ('\U{1C}' <= c <= '\U{1F}') || c == '\U{85}' || c == '\U{A0}' || c == '\U{1680}'
    || ('\U{2000}' <= c <= '\U{200A}') || c == '\U{2028}' || c == '\U{2029}'
    || c == '\U{202F}' || c == '\U{205F}' || c == '\U{3000}'
  }

  /** Every character of `s` is white space (vacuously so for `""`). */
  predicate AllSpace(s: string) {
    forall k :: 0 <= k < |s| ==> IsSpace(s[k])
  }

  /** `str.lstrip()`: what is left does not start with white space;
      `TrimLeftSpec` says which part of the input it is. */
  function TrimLeft(s: string): (r: string)
    ensures r != [] ==> !IsSpace(r[0])
  {
    if s != [] && IsSpace(s[0]) then TrimLeft(s[1..]) else s
  }

  /** `str.lstrip()` keeps a suffix of its input and drops only white space. */
  lemma {:induction false} TrimLeftSpec(s: string)
    ensures |TrimLeft(s)| <= |s| && TrimLeft(s) == s[|s| - |TrimLeft(s)|..]
    ensures AllSpace(s[..|s| - |TrimLeft(s)|])
  {
    if s != [] && IsSpace(s[0]) {
      TrimLeftSpec(s[1..]);
      var r := TrimLeft(s[1..]);
      assert s[..|s| - |r|] == [s[0]] + s[1..][..|s[1..]| - |r|];
    }
  }

  /** `str.rstrip()`: a prefix of the input that does not end with white
      space; `TrimRightSpec` shows that what it drops is all white space. */
  function TrimRight(s: string): (r: string)
    ensures |r| <= |s| && r == s[..|r|]
    ensures r != [] ==> !IsSpace(r[|r| - 1])
  {
    if s != [] && IsSpace(s[|s| - 1]) then TrimRight(s[..|s| - 1]) else s
  }

  lemma {:induction false} TrimRightSpec(s: string)
    ensures AllSpace(s[|TrimRight(s)|..])
  {
    if s != [] && IsSpace(s[|s| - 1]) {
      TrimRightSpec(s[..|s| - 1]);
      var r := TrimRight(s[..|s| - 1]);
      assert s[|r|..] == s[..|s| - 1][|r|..] + [s[|s| - 1]];
    }
  }

  /** A statement as `split_sql_statements` keeps it: non-empty, with no white
      space at either end. */
  predicate Trimmed(s: string) {
    s != [] && !IsSpace(s[0]) && !IsSpace(s[|s| - 1])
  }

  /** How many blanks `str.lstrip()` drops from the front of `s`. */
  function Indent(s: string): nat {
    TrimLeftSpec(s);
    |s| - |TrimLeft(s)|
  }

  /** Python's `str.strip()`: empty, or a string with no white space at either
      end; `StripSpec` says which part of the input it is. */
  function Strip(s: string): (r: string)
    ensures r == [] || Trimmed(r)
  {
    var l := TrimLeft(s);
    var r := TrimRight(l);
    assert r != [] ==> r[0] == l[0];
    r
  }

  /** What `str.strip()` keeps: the input without its `Indent(s)` leading
      blanks and its trailing blanks, and nothing at all exactly when the input
      is all white space. */
  lemma StripSpec(s: string)
    ensures Strip(s) == [] <==> AllSpace(s)
    ensures Indent(s) + |Strip(s)| <= |s| && Strip(s) == s[Indent(s)..Indent(s) + |Strip(s)|]
    ensures AllSpace(s[..Indent(s)]) && AllSpace(s[Indent(s) + |Strip(s)|..])
  {
    TrimLeftSpec(s);
    TrimRightSpec(TrimLeft(s));
    StripShape(s, TrimLeft(s), Strip(s), Indent(s));
  }

  /** The facts `StripSpec` states, from what the two trims promise: `l` is
      `s` without its `i` leading blanks, and `r` is `l` without its trailing
      blanks. */
  lemma StripShape(s: string, l: string, r: string, i: int)
    requires 0 <= i && i + |l| == |s| && l == s[i..] && AllSpace(s[..i])
    requires l != [] ==> !IsSpace(l[0])
    requires |r| <= |l| && r == l[..|r|] && AllSpace(l[|r|..])
    ensures r == [] <==> AllSpace(s)
    ensures i + |r| <= |s| && r == s[i..i + |r|]
    ensures AllSpace(s[i + |r|..])
  {
    TakeOfDrop(s, i, |r|);
    DropOfDrop(s, i, |r|);
    if r == [] {
      assert l[|r|..] == l;
      assert s[..i] + s[i..] == s;
    } else {
      assert r[0] == l[0] == s[i];
    }
  }

  lemma TakeOfDrop(s: string, i: int, n: int)
    requires 0 <= i && 0 <= n && i + n <= |s|
    ensures s[i..][..n] == s[i..i + n]
  {
  }

  lemma DropOfDrop(s: string, i: int, n: int)
    requires 0 <= i && 0 <= n && i + n <= |s|
    ensures s[i..][n..] == s[i + n..]
  {
  }

  /** Stripping a string with no white space at either end changes nothing. */
  lemma StripTrimmed(s: string)
    requires Trimmed(s)
    ensures Strip(s) == s
  {
    assert TrimLeft(s) == s;
    assert TrimRight(s) == s;
  }

  /** `s.startswith(p)`, and SQL's `LIKE 'p%'`. */
  predicate StartsWith(s: string, p: string) {
    |p| <= |s| && s[..|p|] == p
  }

  /** `s.endswith(p)`. */
  predicate EndsWith(s: string, p: string) {
    |p| <= |s| && s[|s| - |p|..] == p
  }

  function LowerChar(c: char): char {
    if 'A' <= c <= 'Z' then (c as int + 32) as char else c
  }

  function UpperChar(c: char): char {
    if 'a' <= c <= 'z' then (c as int - 32) as char else c
  }

  /** `s.lower()` (and the case folding of `ILIKE`) on ASCII letters. */
  function Lower(s: string): (t: string)
    ensures |t| == |s| && forall i :: 0 <= i < |s| ==> t[i] == LowerChar(s[i])
  {
    seq(|s|, i requires 0 <= i < |s| => LowerChar(s[i]))
  }

  /** `s.upper()` on ASCII letters. */
  function Upper(s: string): (t: string)
    ensures |t| == |s| && forall i :: 0 <= i < |s| ==> t[i] == UpperChar(s[i])
  {
    seq(|s|, i requires 0 <= i < |s| => UpperChar(s[i]))
  }

  /** `p` occurs in `s` at position `i`. */
  predicate OccursAt(s: string, p: string, i: int) {
    0 <= i <= |s| - |p| && s[i..i + |p|] == p
  }

  /** SQL's `LIKE '%p%'`. */
  predicate Contains(s: string, p: string) {
    exists i :: 0 <= i <= |s| - |p| && OccursAt(s, p, i)
  }

  /** Python's `s.split(sep)` for a one-character separator: the pieces between
      separators, always at least one (`"".split(":") == [""]`). */
  function Split(s: string, sep: char): (parts: seq<string>)
    ensures |parts| >= 1
    ensures forall k :: 0 <= k < |parts| ==> sep !in parts[k]
  {
    if s == [] then [""]
    else
      var rest := Split(s[1..], sep);
      if s[0] == sep then [""] + rest else [[s[0]] + rest[0]] + rest[1..]
  }

  /** `sep.join(parts)`, the inverse of `Split`. */
  function Join(parts: seq<string>, sep: char): string
    requires |parts| >= 1
  {
    if |parts| == 1 then parts[0] else parts[0] + [sep] + Join(parts[1..], sep)
  }

  /** A string without the separator splits into itself. */
  lemma {:induction false} SplitNoSep(s: string, sep: char)
    requires sep !in s
    ensures Split(s, sep) == [s]
  {
    if s != [] {
      SplitNoSep(s[1..], sep);
      assert s[0] in s;
      assert [s[0]] + s[1..] == s;
    }
  }

  /** Splitting peels off the text before the first separator. */
  lemma {:induction false} SplitAt(a: string, b: string, sep: char)
    requires sep !in a
    ensures Split(a + [sep] + b, sep) == [a] + Split(b, sep)
  {
    if a == [] {
      assert (a + [sep] + b)[1..] == b;
    } else {
      var x := a + [sep] + b;
      assert x[1..] == a[1..] + [sep] + b;
      SplitAt(a[1..], b, sep);
      assert x[0] == a[0] && a[0] in a;
      assert [a[0]] + a[1..] == a;
      assert Split(x, sep) == [[a[0]] + a[1..]] + Split(b, sep);
    }
  }

  lemma {:induction false} JoinSplit(s: string, sep: char)
    ensures Join(Split(s, sep), sep) == s
  {
    if s != [] {
      var rest := Split(s[1..], sep);
      JoinSplit(s[1..], sep);
      if s[0] != sep {
        var parts := Split(s, sep);
        assert parts[0] == [s[0]] + rest[0] && parts[1..] == rest[1..];
        if |rest| == 1 {
          assert Join(parts, sep) == [s[0]] + rest[0];
        } else {
          assert Join(rest, sep) == rest[0] + [sep] + Join(rest[1..], sep);
          assert Join(parts, sep) == [s[0]] + rest[0] + [sep] + Join(rest[1..], sep);
        }
      } else {
        assert Split(s, sep)[1..] == rest;
      }
    }
  }

  predicate IsDigit(c: char) { '0' <= c <= '9' }

  /** Every character of `d` is a decimal digit. */
  predicate AllDigits(d: string) {
    forall k :: 0 <= k < |d| ==> IsDigit(d[k])
  }

  /** The value of a string of decimal digits, most significant first. */
  function DigitsValue(d: string): (n: nat)
    requires AllDigits(d)
  {
    if d == [] then 0
    else
      assert IsDigit(d[|d| - 1]);
      DigitsValue(d[..|d| - 1]) * 10 + (d[|d| - 1] as int - '0' as int)
  }

  function ParseDigits(d: string): (r: Option<int>)
    ensures r.Some? <==> d != [] && AllDigits(d)
    ensures r.Some? ==> r.value == DigitsValue(d) && r.value >= 0
  {
    if d != [] && AllDigits(d) then Some(DigitsValue(d)) else None
  }

  /** An integer literal as `int()` reads it once the white space around it is
      gone: an optional `+` or `-`, then at least one decimal digit. */
  predicate IntLiteral(t: string) {
    Unsigned(t) != [] && AllDigits(Unsigned(t))
  }

  /** A literal without its sign. */
  function Unsigned(t: string): string {
    if t != [] && (t[0] == '+' || t[0] == '-') then t[1..] else t
  }

  /** Python's `int(s)`: optional white space around an optionally signed run of
      decimal digits; anything else raises `ValueError` (here `None`). */
  function ParseInt(s: string): (r: Option<int>)
    ensures r.Some? <==> IntLiteral(Strip(s))
    ensures r.Some? && Strip(s)[0] == '-' ==> r.value == -(DigitsValue(Unsigned(Strip(s))) as int)
    ensures r.Some? && Strip(s)[0] != '-' ==> r.value == DigitsValue(Unsigned(Strip(s)))
  {
    var t := Strip(s);
    match ParseDigits(Unsigned(t))
    case None => None
    case Some(n) => if t[0] == '-' then Some(-n) else Some(n)
  }

  /** `str(n)` for a natural number. */
  function ShowNat(n: nat): (s: string)
    ensures s != [] && AllDigits(s)
  {
    if n < 10 then [('0' as int + n) as char]
    else ShowNat(n / 10) + [('0' as int + n % 10) as char]
  }

  lemma {:induction false} DigitsValueShowNat(n: nat)
    ensures DigitsValue(ShowNat(n)) == n
  {
    var s := ShowNat(n);
    if n >= 10 {
      DigitsValueShowNat(n / 10);
      assert s[..|s| - 1] == ShowNat(n / 10);
    }
  }

  /** `int` reads a bare run of digits as its decimal value. */
  lemma ParseIntDigits(d: string, v: int)
    requires d != [] && AllDigits(d) && v == DigitsValue(d)
    ensures ParseInt(d) == Some(v)
  {
    assert IsDigit(d[0]) && IsDigit(d[|d| - 1]);
    StripTrimmed(d);
    assert Unsigned(d) == d;
  }

  /** `int` reads a minus sign followed by digits as the negated value. */
  lemma ParseIntNegDigits(d: string, v: int)
    requires d != [] && AllDigits(d) && v == DigitsValue(d)
    ensures ParseInt(['-'] + d) == Some(-v)
  {
    var s := ['-'] + d;
    assert s[1..] == d && s[|s| - 1] == d[|d| - 1] && IsDigit(d[|d| - 1]);
    StripTrimmed(s);
    assert Unsigned(s) == d;
  }

  /** `int(str(n)) == n`: the parser reads back what `str` writes. */
  lemma ParseIntShowNat(n: nat)
    ensures ParseInt(ShowNat(n)) == Some(n)
  {
    DigitsValueShowNat(n);
    ParseIntDigits(ShowNat(n), n);
  }

  /** `int("-" + str(n)) == -n`: a minus sign negates the digits after it. */
  lemma ParseIntNegShowNat(n: nat)
    ensures ParseInt(['-'] + ShowNat(n)) == Some(-(n as int))
  {
    DigitsValueShowNat(n);
    ParseIntNegDigits(ShowNat(n), n);
  }
}
