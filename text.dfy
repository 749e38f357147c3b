/**
 * The pieces of Rust's `str` API that the modelled code relies on: `split`,
 * `trim`, `to_lowercase`/`to_uppercase`, `replace`, `trim_end_matches`, the
 * decimal and `{:02X}` formatting of integers, ordering and table lookup.
 * Strings are sequences of Unicode scalar values, as Rust's `char`s are.
 */
module Text {
  import opened Wrappers

  /** Rust's `char::is_whitespace`: the Unicode White_Space property, in full. */
  predicate IsWhitespace(c: char) {
    ('\t' <= c <= '\r') || c == ' ' || c == '\U{0085}' || c == '\U{00A0}' || c == '\U{1680}'
    || ('\U{2000}' <= c <= '\U{200A}') || c == '\U{2028}' || c == '\U{2029}' || c == '\U{202F}'
    || c == '\U{205F}' || c == '\U{3000}'
  }

  predicate AllWhitespace(s: string) {
    forall i :: 0 <= i < |s| ==> IsWhitespace(s[i])
  }

  /** `str::trim_start`. */
  function TrimStart(s: string): (r: string)
    ensures |r| <= |s| && r == s[|s| - |r|..]
    ensures AllWhitespace(s[..|s| - |r|])
    ensures r != [] ==> !IsWhitespace(r[0])
  {
    if s != [] && IsWhitespace(s[0]) then
      var r := TrimStart(s[1..]);
      assert s[..|s| - |r|] == [s[0]] + s[1..][..|s| - 1 - |r|];
      r
    else s
  }

  /** `str::trim_end`. */
  function TrimEnd(s: string): (r: string)
    ensures |r| <= |s| && r == s[..|r|]
    ensures AllWhitespace(s[|r|..])
    ensures r != [] ==> !IsWhitespace(r[|r| - 1])
  {
    if s != [] && IsWhitespace(s[|s| - 1]) then
      var r := TrimEnd(s[..|s| - 1]);
      assert s[|r|..] == s[..|s| - 1][|r|..] + [s[|s| - 1]];
      r
    else s
  }

  /** `str::trim`: the string without its leading and trailing white space. */
  function Trim(s: string): (r: string)
    ensures r != [] ==> !IsWhitespace(r[0]) && !IsWhitespace(r[|r| - 1])
  {
    TrimEnd(TrimStart(s))
  }

  /** `s.trim().is_empty()`, the "blank" test the source applies to user input. */
  predicate IsBlank(s: string) {
    Trim(s) == []
  }

  lemma {:induction false} BlankIffAllWhitespace(s: string)
    ensures IsBlank(s) <==> AllWhitespace(s)
  {
    var t := TrimStart(s);
    if t == [] {
      assert s[..|s|] == s;
    } else {
      assert t[0] == s[|s| - |t|];
      assert TrimEnd(t) != [] by { assert t[..1] == TrimEnd(t)[..1] || |TrimEnd(t)| >= 1; }
    }
  }

  /** Trimming a string that has no surrounding white space changes nothing. */
  lemma TrimNoSurroundingSpace(s: string)
    requires s != [] ==> !IsWhitespace(s[0]) && !IsWhitespace(s[|s| - 1])
    ensures Trim(s) == s
  {
  }

  /** `char::to_lowercase` as far as the modelled code can observe it: ASCII
      letters and the Kelvin sign, the one non-ASCII character whose lower case
      is an ASCII letter. Other characters are kept. */
  function LowerChar(c: char): char {
    if 'A' <= c <= 'Z' then (c as int + 32) as char
    else if c == '\U{212A}' then 'k'
    else c
  }

  /** `str::to_lowercase`, character by character. */
  function Lower(s: string): (r: string)
    ensures |r| == |s| && forall i :: 0 <= i < |s| ==> r[i] == LowerChar(s[i])
  {
    if s == [] then [] else [LowerChar(s[0])] + Lower(s[1..])
  }

  /** `char::to_uppercase` restricted to ASCII letters. */
  function UpperChar(c: char): char {
    if 'a' <= c <= 'z' then (c as int - 32) as char else c
  }

  /** `str::to_uppercase`, character by character. */
  function Upper(s: string): (r: string)
    ensures |r| == |s| && forall i :: 0 <= i < |s| ==> r[i] == UpperChar(s[i])
  {
    if s == [] then [] else [UpperChar(s[0])] + Upper(s[1..])
  }

  lemma LowerIdempotent(s: string)
    ensures Lower(Lower(s)) == Lower(s)
  {
  }

  lemma LowerConcat(a: string, b: string)
    ensures Lower(a + b) == Lower(a) + Lower(b)
  {
  }

  /** Lowering keeps white space where it was, so it commutes with trimming. */
  lemma {:induction false} TrimLower(s: string)
    ensures Trim(Lower(s)) == Lower(Trim(s))
  {
    TrimStartLower(s);
    TrimEndLower(TrimStart(s));
  }

  lemma LowerCharWhitespace(c: char)
    ensures IsWhitespace(LowerChar(c)) <==> IsWhitespace(c)
  {
  }

  lemma {:induction false} TrimStartLower(s: string)
    ensures TrimStart(Lower(s)) == Lower(TrimStart(s))
  {
    if s != [] {
      assert Lower(s)[1..] == Lower(s[1..]);
      LowerCharWhitespace(s[0]);
      if IsWhitespace(s[0]) {
        TrimStartLower(s[1..]);
      }
    }
  }

  lemma {:induction false} TrimEndLower(s: string)
    ensures TrimEnd(Lower(s)) == Lower(TrimEnd(s))
  {
    if s != [] {
      var n := |s| - 1;
      assert Lower(s)[..n] == Lower(s[..n]);
      LowerCharWhitespace(s[n]);
      if IsWhitespace(s[n]) {
        TrimEndLower(s[..n]);
      }
    }
  }

  /** `str::split(d)` for a single-character separator: the pieces between the
      separators, always at least one. */
  function Split(s: string, d: char): (r: seq<string>)
    ensures |r| >= 1
    ensures forall k :: 0 <= k < |r| ==> d !in r[k]
  {
    if s == [] then [[]]
    else if s[0] == d then [[]] + Split(s[1..], d)
    else var rest := Split(s[1..], d); [[s[0]] + rest[0]] + rest[1..]
  }

  /** `join`: the inverse of `Split`. */
  function Join(parts: seq<string>, d: char): string
    requires |parts| >= 1
  {
    if |parts| == 1 then parts[0] else parts[0] + [d] + Join(parts[1..], d)
  }

  lemma {:induction false} JoinSplit(s: string, d: char)
    ensures Join(Split(s, d), d) == s
  {
    if s != [] {
      JoinSplit(s[1..], d);
      if s[0] != d {
        var rest := Split(s[1..], d);
        if |rest| > 1 {
          assert ([[s[0]] + rest[0]] + rest[1..])[1..] == rest[1..];
        }
      }
    }
  }

  /** A piece without the separator splits off whole. */
  lemma {:induction false} SplitNoSeparator(a: string, d: char)
    requires d !in a
    ensures Split(a, d) == [a]
  {
    if a != [] {
      SplitNoSeparator(a[1..], d);
      assert [a[0]] + a[1..] == a;
    }
  }

  lemma {:induction false} SplitCons(a: string, b: string, d: char)
    requires d !in a
    ensures Split(a + [d] + b, d) == [a] + Split(b, d)
  {
    if a == [] {
      assert a + [d] + b == [d] + b;
      assert ([d] + b)[1..] == b;
    } else {
      assert (a + [d] + b)[1..] == a[1..] + [d] + b;
      SplitCons(a[1..], b, d);
      assert [a[0]] + a[1..] == a;
    }
  }

  /** Splitting a join of separator-free pieces gives the pieces back. */
  lemma {:induction false} SplitJoin(parts: seq<string>, d: char)
    requires |parts| >= 1 && forall k :: 0 <= k < |parts| ==> d !in parts[k]
    ensures Split(Join(parts, d), d) == parts
  {
    if |parts| == 1 {
      SplitNoSeparator(parts[0], d);
    } else {
      SplitJoin(parts[1..], d);
      SplitCons(parts[0], Join(parts[1..], d), d);
      assert [parts[0]] + parts[1..] == parts;
    }
  }

  /** Every piece lower-cased. */
  function LowerAll(parts: seq<string>): (r: seq<string>)
    ensures |r| == |parts| && forall k :: 0 <= k < |r| ==> r[k] == Lower(parts[k])
  {
    seq(|parts|, k requires 0 <= k < |parts| => Lower(parts[k]))
  }

  /** Lower-casing neither makes nor removes a separator that is not a letter, so it
      commutes with splitting. */
  lemma {:induction false} SplitLower(s: string, d: char)
    requires LowerChar(d) == d && forall c :: LowerChar(c) == d ==> c == d
    ensures Split(Lower(s), d) == LowerAll(Split(s, d))
  {
    if s != [] {
      var ls := Lower(s);
      assert ls[0] == LowerChar(s[0]) && ls[1..] == Lower(s[1..]);
      SplitLower(s[1..], d);
      var rest := Split(s[1..], d);
      if s[0] == d {
        LowerAllCons([], rest);
      } else {
        SplitLowerLetter(s, d, rest);
      }
    }
  }

  lemma LowerAllCons(a: string, r: seq<string>)
    ensures LowerAll([a] + r) == [Lower(a)] + LowerAll(r)
  {
  }

  lemma LowerAllSplit(r: seq<string>)
    requires |r| >= 1
    ensures LowerAll(r) == [Lower(r[0])] + LowerAll(r[1..])
  {
    LowerAllCons(r[0], r[1..]);
    assert [r[0]] + r[1..] == r;
  }

  /** The step of `SplitLower` for a first character that is not the separator. */
  lemma SplitLowerLetter(s: string, d: char, rest: seq<string>)
    requires s != [] && s[0] != d && rest == Split(s[1..], d)
    requires forall c :: LowerChar(c) == d ==> c == d
    requires Split(Lower(s[1..]), d) == LowerAll(rest)
    ensures Split(Lower(s), d) == LowerAll(Split(s, d))
  {
    var ls := Lower(s);
    assert ls[0] == LowerChar(s[0]) && ls[1..] == Lower(s[1..]);
    assert ls[0] != d;
    var lr := LowerAll(rest);
    assert Split(ls, d) == [[ls[0]] + lr[0]] + lr[1..];
    LowerAllSplit(rest);
    LowerConcat([s[0]], rest[0]);
    assert Lower([s[0]]) == [ls[0]];
    LowerAllCons([s[0]] + rest[0], rest[1..]);
  }

  /** Whether `p` occurs in `s` at position `i`. */
  predicate OccursAt(s: string, p: string, i: int) {
    0 <= i && i + |p| <= |s| && s[i..i + |p|] == p
  }

  /** `str::contains` for a string pattern. */
  predicate Contains(s: string, p: string) {
    exists i :: 0 <= i <= |s| && OccursAt(s, p, i)
  }

  /** `str::replace(p, r)`: every non-overlapping occurrence of `p`, scanning
      left to right, replaced by `r`. */
  function Replace(s: string, p: string, r: string): string
    requires p != []
    decreases |s|
  {
    if |s| < |p| then s
    else if s[..|p|] == p then r + Replace(s[|p|..], p, r)
    else [s[0]] + Replace(s[1..], p, r)
  }

  /** A string without the pattern comes back unchanged. */
  lemma {:induction false} ReplaceAbsent(s: string, p: string, r: string)
    requires p != [] && !Contains(s, p)
    ensures Replace(s, p, r) == s
  {
    if |s| >= |p| {
      assert !OccursAt(s, p, 0);
      assert !Contains(s[1..], p) by {
        forall i | OccursAt(s[1..], p, i) ensures false {
          assert s[1..][i..i + |p|] == s[i + 1..i + 1 + |p|];
          assert OccursAt(s, p, i + 1);
        }
      }
      ReplaceAbsent(s[1..], p, r);
      assert [s[0]] + s[1..] == s;
    }
  }

  /** Replacing a pattern by itself is the identity. */
  lemma {:induction false} ReplaceSelf(s: string, p: string)
    requires p != []
    ensures Replace(s, p, p) == s
    decreases |s|
  {
    if |s| >= |p| {
      if s[..|p|] == p {
        ReplaceSelf(s[|p|..], p);
        assert s[..|p|] + s[|p|..] == s;
      } else {
        ReplaceSelf(s[1..], p);
        assert [s[0]] + s[1..] == s;
      }
    }
  }

  /** A string that is exactly the pattern becomes exactly the replacement. */
  lemma ReplaceWhole(p: string, r: string)
    requires p != []
    ensures Replace(p, p, r) == r
  {
    assert p[..|p|] == p;
    assert p[|p|..] == [];
  }

  /** `c` does not occur in `s`. */
  predicate Lacks(s: string, c: char) {
    forall i :: 0 <= i < |s| ==> s[i] != c
  }

  lemma LacksConcat(a: string, b: string, c: char)
    ensures Lacks(a + b, c) <==> Lacks(a, c) && Lacks(b, c)
  {
    if Lacks(a, c) && Lacks(b, c) {
      forall i | 0 <= i < |a + b|
        ensures (a + b)[i] != c
      {
        if i >= |a| {
          assert (a + b)[i] == b[i - |a|];
        }
      }
    }
    if Lacks(a + b, c) {
      assert forall i :: 0 <= i < |a| ==> (a + b)[i] == a[i];
      assert forall i :: 0 <= i < |b| ==> (a + b)[|a| + i] == b[i];
    }
  }

  /** Text without the pattern's first character passes through `replace` untouched. */
  lemma {:induction false} ReplaceSkip(a: string, b: string, p: string, r: string)
    requires p != [] && Lacks(a, p[0])
    ensures Replace(a + b, p, r) == a + Replace(b, p, r)
    decreases |a|
  {
    var s := a + b;
    if a == [] {
      assert s == b;
    } else if |s| < |p| {
      assert |b| < |p|;
    } else {
      assert s[..|p|][0] == a[0] != p[0];
      assert Replace(s, p, r) == [a[0]] + Replace(s[1..], p, r);
      assert s[1..] == a[1..] + b;
      ReplaceSkip(a[1..], b, p, r);
      assert a == [a[0]] + a[1..];
    }
  }

  /** Text shorter than the pattern is left alone. */
  lemma ReplaceShort(s: string, p: string, r: string)
    requires p != [] && |s| < |p|
    ensures Replace(s, p, r) == s
  {
  }

  /** A text as long as the pattern but different from it is left alone. */
  lemma ReplaceSameLength(s: string, p: string, r: string)
    requires p != [] && |s| == |p| && s != p
    ensures Replace(s, p, r) == s
  {
    assert s[..|p|] == s;
    assert s == [s[0]] + s[1..];
  }

  /** Text whose start does not match the pattern keeps its first character. */
  lemma ReplaceNoMatchHere(s: string, p: string, r: string)
    requires p != [] && |s| >= |p| && s[..|p|] != p
    ensures Replace(s, p, r) == [s[0]] + Replace(s[1..], p, r)
  {
  }

  /** An occurrence at the front is replaced, and replacing goes on after it. */
  lemma ReplaceFront(p: string, b: string, r: string)
    requires p != []
    ensures Replace(p + b, p, r) == r + Replace(b, p, r)
  {
    var s := p + b;
    assert s[..|p|] == p && s[|p|..] == b;
  }

  /** `str::trim_end_matches(c)`: all trailing copies of `c` removed. */
  function TrimEndMatches(s: string, c: char): (r: string)
    ensures |r| <= |s| && r == s[..|r|]
    ensures r == [] || r[|r| - 1] != c
    ensures forall i :: |r| <= i < |s| ==> s[i] == c
  {
    if s != [] && s[|s| - 1] == c then TrimEndMatches(s[..|s| - 1], c) else s
  }

  // Decimal formatting (`format!("{}", n)` for an unsigned integer)

  function DigitChar(d: nat): char
    requires d < 10
  {
    ('0' as int + d) as char
  }

  predicate IsDigit(c: char) {
    '0' <= c <= '9'
  }

  function DigitValue(c: char): nat
    requires IsDigit(c)
  {
    c as int - '0' as int
  }

  /** The decimal digits of `n`, most significant first, without leading zeros. */
  function NatToString(n: nat): (r: string)
    ensures |r| >= 1 && forall i :: 0 <= i < |r| ==> IsDigit(r[i])
  {
    if n < 10 then [DigitChar(n)] else NatToString(n / 10) + [DigitChar(n % 10)]
  }

  /** The value of a string of decimal digits. */
  function ParseDecimal(s: string): nat
    requires forall i :: 0 <= i < |s| ==> IsDigit(s[i])
  {
    if s == [] then 0 else 10 * ParseDecimal(s[..|s| - 1]) + DigitValue(s[|s| - 1])
  }

  lemma {:induction false} ParseNatToString(n: nat)
    ensures ParseDecimal(NatToString(n)) == n
  {
    var s := NatToString(n);
    if n >= 10 {
      assert s[..|s| - 1] == NatToString(n / 10);
      ParseNatToString(n / 10);
    }
  }

  /** Distinct numbers print differently. */
  lemma NatToStringInjective(m: nat, n: nat)
    requires NatToString(m) == NatToString(n)
    ensures m == n
  {
    ParseNatToString(m);
    ParseNatToString(n);
  }

  // Hexadecimal formatting (`format!("{:02X}", n)`)

  function HexDigitChar(d: nat): char
    requires d < 16
  {
    if d < 10 then ('0' as int + d) as char else ('A' as int + d - 10) as char
  }

  predicate IsUpperHexDigit(c: char) {
    ('0' <= c <= '9') || ('A' <= c <= 'F')
  }

  function HexDigitValue(c: char): nat
    requires IsUpperHexDigit(c)
  {
    if c <= '9' then c as int - '0' as int else c as int - 'A' as int + 10
  }

  /** The upper-case hexadecimal digits of `n`, without padding. */
  function Hex(n: nat): (r: string)
    ensures |r| >= 1 && forall i :: 0 <= i < |r| ==> IsUpperHexDigit(r[i])
  {
    if n < 16 then [HexDigitChar(n)] else Hex(n / 16) + [HexDigitChar(n % 16)]
  }

  /** `{:02X}`: upper-case hexadecimal, zero-padded to at least two digits. */
  function Hex2(n: nat): (r: string)
    ensures |r| >= 2 && forall i :: 0 <= i < |r| ==> IsUpperHexDigit(r[i])
  {
    if n < 16 then ['0', HexDigitChar(n)] else Hex(n)
  }

  /** The value of a string of upper-case hexadecimal digits. */
  function ParseHex(s: string): nat
    requires forall i :: 0 <= i < |s| ==> IsUpperHexDigit(s[i])
  {
    if s == [] then 0 else 16 * ParseHex(s[..|s| - 1]) + HexDigitValue(s[|s| - 1])
  }

  lemma {:induction false} ParseHexOfHex(n: nat)
    ensures ParseHex(Hex(n)) == n
  {
    var s := Hex(n);
    if n >= 16 {
      assert s[..|s| - 1] == Hex(n / 16);
      ParseHexOfHex(n / 16);
    }
  }

  /** The padded form reads back as the number it was made from. */
  lemma ParseHex2(n: nat)
    ensures ParseHex(Hex2(n)) == n
  {
    if n < 16 {
      var s := Hex2(n);
      assert s[..|s| - 1] == ['0'];
      assert ParseHex(['0']) == 16 * ParseHex([]) + HexDigitValue('0') == 0 by {
        assert ['0'][..0] == [];
      }
      assert HexDigitValue(s[1]) == n;
    } else {
      ParseHexOfHex(n);
    }
  }

  // ---------------------------------------------------------------------
  // Tables

  /** The first entry of an association table whose name is `t`. */
  function Lookup<T>(t: string, table: seq<(string, T)>): Option<T> {
    if table == [] then None
    else if table[0].0 == t then Some(table[0].1)
    else Lookup(t, table[1..])
  }

  /** A name is missing from a table exactly when no entry carries it. */
  lemma {:induction false} LookupMissing<T>(t: string, table: seq<(string, T)>)
    ensures Lookup(t, table).None? <==> forall i :: 0 <= i < |table| ==> table[i].0 != t
  {
    if table != [] {
      LookupMissing(t, table[1..]);
      assert forall i :: 1 <= i < |table| ==> table[i] == table[1..][i - 1];
    }
  }

  // ---------------------------------------------------------------------
  // Ordering

  /** `Ord` on `String`: character by character, a proper prefix first. */
  predicate LexLess(a: string, b: string)
    decreases |a|
  {
    b != [] && (a == [] || a[0] < b[0] || (a[0] == b[0] && LexLess(a[1..], b[1..])))
  }

  lemma {:induction false} LexLessIrreflexive(a: string)
    ensures !LexLess(a, a)
    decreases |a|
  {
    if a != [] {
      LexLessIrreflexive(a[1..]);
    }
  }

  lemma {:induction false} LexLessTransitive(a: string, b: string, c: string)
    requires LexLess(a, b) && LexLess(b, c)
    ensures LexLess(a, c)
    decreases |a|
  {
    if a != [] && a[0] == b[0] && b[0] == c[0] {
      LexLessTransitive(a[1..], b[1..], c[1..]);
    }
  }

  /** Two different strings are always ordered one way round. */
  lemma {:induction false} LexLessTotal(a: string, b: string)
    requires a != b
    ensures LexLess(a, b) || LexLess(b, a)
    decreases |a|
  {
    if a != [] && b != [] && a[0] == b[0] {
      assert a == [a[0]] + a[1..] && b == [b[0]] + b[1..];
      LexLessTotal(a[1..], b[1..]);
    }
  }

  /** Every non-empty finite set of strings has a least element. */
  lemma {:induction false} LeastString(s: set<string>) returns (m: string)
    requires s != {}
    ensures m in s && forall x :: x in s && x != m ==> LexLess(m, x)
    decreases s
  {
    var x :| x in s;
    if s == {x} {
      m := x;
    } else {
      var rest := LeastString(s - {x});
      if LexLess(x, rest) {
        m := x;
        forall y | y in s && y != m
          ensures LexLess(m, y)
        {
          if y != rest {
            LexLessTransitive(x, rest, y);
          }
        }
      } else {
        LexLessTotal(x, rest);
        m := rest;
      }
    }
  }
}
