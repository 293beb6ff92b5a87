/** The handful of Python `str` operations the repository relies on, with the
    exact semantics of CPython for the inputs the model admits. Case mapping
    (`upper`, `title`) is modelled for ASCII letters only. */
module Text {

  /** `s.startswith(p)`. */
  predicate StartsWith(s: string, p: string) {
    |p| <= |s| && s[..|p|] == p
  }

  /** `p in s`: `p` occurs in `s` starting at some offset (the empty string occurs everywhere). */
  predicate Contains(s: string, p: string)
    decreases |s|
  {
    StartsWith(s, p) || (|s| > 0 && Contains(s[1..], p))
  }

  /** Reference definition of an occurrence, by explicit offset. */
  ghost predicate OccursAt(s: string, p: string, i: int) {
    0 <= i && i + |p| <= |s| && s[i..i + |p|] == p
  }

  /** `Contains` is exactly "occurs at some offset". */
  lemma {:induction false} ContainsIffOccurs(s: string, p: string)
    ensures Contains(s, p) <==> exists i :: OccursAt(s, p, i)
    decreases |s|
  {
    if StartsWith(s, p) {
      assert OccursAt(s, p, 0);
    } else if |s| > 0 {
      ContainsIffOccurs(s[1..], p);
      if Contains(s[1..], p) {
        var i :| OccursAt(s[1..], p, i);
        assert s[1..][i..i + |p|] == s[i + 1..i + 1 + |p|];
        assert OccursAt(s, p, i + 1);
      }
      forall i | OccursAt(s, p, i) && i > 0
        ensures OccursAt(s[1..], p, i - 1)
      {
        assert s[1..][i - 1..i - 1 + |p|] == s[i..i + |p|];
      }
      forall i | OccursAt(s, p, i)
        ensures i > 0
      {
        assert s[..|p|] == s[0..|p|];
      }
    }
  }

  /** An occurrence in a suffix is an occurrence in the whole string. */
  lemma {:induction false} ContainsInSuffix(a: string, b: string, p: string)
    requires Contains(b, p)
    ensures Contains(a + b, p)
    decreases |a|
  {
    if |a| > 0 {
      assert (a + b)[1..] == a[1..] + b;
      ContainsInSuffix(a[1..], b, p);
    } else {
      assert a + b == b;
    }
  }

  /** Every character of an occurring pattern is a character of the string. */
  lemma {:induction false} ContainedCharsOccur(s: string, p: string, k: int)
    requires Contains(s, p) && 0 <= k < |p|
    ensures p[k] in s
    decreases |s|
  {
    if StartsWith(s, p) {
      assert s[k] == p[k];
    } else {
      ContainedCharsOccur(s[1..], p, k);
    }
  }

  /** The characters for which `str.isspace()` holds, i.e. what `str.strip()` removes. */
  predicate IsSpace(c: char) {
    var n := c as int;
    (9 <= n <= 13) || (28 <= n <= 32) || n == 0x85 || n == 0xA0 || n == 0x1680
    || (0x2000 <= n <= 0x200A) || n == 0x2028 || n == 0x2029 || n == 0x202F
    || n == 0x205F || n == 0x3000
  }

  /** `s.lstrip()`: the longest suffix of `s` that does not start with whitespace. */
  function TrimStart(s: string): (r: string)
    ensures |r| <= |s| && r == s[|s| - |r|..]
    ensures forall i :: 0 <= i < |s| - |r| ==> IsSpace(s[i])
    ensures |r| > 0 ==> !IsSpace(r[0])
    decreases |s|
  {
    if |s| > 0 && IsSpace(s[0]) then TrimStart(s[1..]) else s
  }

  /** `s.rstrip()`: the longest prefix of `s` that does not end with whitespace. */
  function TrimEnd(s: string): (r: string)
    ensures |r| <= |s| && r == s[..|r|]
    ensures forall i :: |r| <= i < |s| ==> IsSpace(s[i])
    ensures |r| > 0 ==> !IsSpace(r[|r| - 1])
    decreases |s|
  {
    if |s| > 0 && IsSpace(s[|s| - 1]) then TrimEnd(s[..|s| - 1]) else s
  }

  /** `s.strip()`. */
  function Strip(s: string): (r: string)
    ensures |r| > 0 ==> !IsSpace(r[0]) && !IsSpace(r[|r| - 1])
    ensures Contains(s, r)
  {
    var t := TrimStart(s);
    var r := TrimEnd(t);
    assert OccursAt(s, r, |s| - |t|) by {
      assert s[|s| - |t|..][..|r|] == s[|s| - |t|..|s| - |t| + |r|];
    }
    ContainsIffOccurs(s, r);
    r
  }

  predicate IsLower(c: char) { 'a' <= c <= 'z' }

  predicate IsUpper(c: char) { 'A' <= c <= 'Z' }

  predicate IsLetter(c: char) { IsLower(c) || IsUpper(c) }

  function UpperChar(c: char): char {
    if IsLower(c) then (c as int - 32) as char else c
  }

  function LowerChar(c: char): char {
    if IsUpper(c) then (c as int + 32) as char else c
  }

  /** `s.upper()` on ASCII letters; other characters are kept. */
  function Upper(s: string): (r: string)
    ensures |r| == |s|
    ensures forall i :: 0 <= i < |s| ==> r[i] == UpperChar(s[i])
  {
    seq(|s|, i requires 0 <= i < |s| => UpperChar(s[i]))
  }

  /** `s.lower()` on ASCII letters; other characters are kept. */
  function Lower(s: string): (r: string)
    ensures |r| == |s|
    ensures forall i :: 0 <= i < |s| ==> r[i] == LowerChar(s[i])
  {
    seq(|s|, i requires 0 <= i < |s| => LowerChar(s[i]))
  }

  /** How `str.title()` cases one character, given whether the character before it is a letter. */
  function TitleChar(c: char, afterLetter: bool): char {
    if !IsLetter(c) then c else if afterLetter then LowerChar(c) else UpperChar(c)
  }

  /** `s.title()` on the rest of a string whose previous character was (`prevCased`) or was not a letter. */
  function TitleAfter(s: string, prevCased: bool): (r: string)
    ensures |r| == |s|
    decreases |s|
  {
    if |s| == 0 then ""
    else [TitleChar(s[0], prevCased)] + TitleAfter(s[1..], IsLetter(s[0]))
  }

  /** Title-casing works character by character: a letter is upper-cased when it
      starts a run of letters and lower-cased inside one; other characters are kept. */
  lemma {:induction false} TitleAfterCharwise(s: string, prevCased: bool)
    ensures forall i :: 0 <= i < |s| ==>
      TitleAfter(s, prevCased)[i] == TitleChar(s[i], if i == 0 then prevCased else IsLetter(s[i - 1]))
    decreases |s|
  {
    if |s| > 0 {
      TitleAfterCharwise(s[1..], IsLetter(s[0]));
      var r := TitleAfter(s, prevCased);
      forall i | 1 <= i < |s|
        ensures r[i] == TitleChar(s[i], IsLetter(s[i - 1]))
      {
        assert r[i] == TitleAfter(s[1..], IsLetter(s[0]))[i - 1];
        assert s[1..][i - 1] == s[i];
        if i > 1 {
          assert s[1..][i - 2] == s[i - 1];
        }
      }
    }
  }

  function Title(s: string): string {
    TitleAfter(s, false)
  }

  /** `s.replace(a, b)` for single characters. */
  function ReplaceChar(s: string, a: char, b: char): (r: string)
    ensures |r| == |s|
    ensures forall i :: 0 <= i < |s| ==> r[i] == (if s[i] == a then b else s[i])
  {
    seq(|s|, i requires 0 <= i < |s| => if s[i] == a then b else s[i])
  }

  /** `sep.join(parts)`. */
  function Join(parts: seq<string>, sep: string): string
    decreases |parts|
  {
    if |parts| == 0 then ""
    else if |parts| == 1 then parts[0]
    else parts[0] + sep + Join(parts[1..], sep)
  }

  /** `s.split(sep)` for a one-character separator: the maximal runs between separators. */
  function Split(s: string, sep: char): (parts: seq<string>)
    ensures |parts| >= 1
    decreases |s|
  {
    if |s| == 0 then [""]
    else if s[0] == sep then [""] + Split(s[1..], sep)
    else
      var rest := Split(s[1..], sep);
      [[s[0]] + rest[0]] + rest[1..]
  }

  /** Splitting and joining again with the same separator gives back the string,
      and no part contains the separator. */
  lemma {:induction false} SplitJoin(s: string, sep: char)
    ensures Join(Split(s, sep), [sep]) == s
    ensures forall k :: 0 <= k < |Split(s, sep)| ==> sep !in Split(s, sep)[k]
    decreases |s|
  {
    if |s| > 0 {
      SplitJoin(s[1..], sep);
      var rest := Split(s[1..], sep);
      if s[0] == sep {
        assert Split(s, sep)[1..] == rest;
        assert s == [sep] + s[1..];
      } else {
        var parts := Split(s, sep);
        assert parts[1..] == rest[1..];
        if |rest| == 1 {
          assert s == [s[0]] + rest[0];
        } else {
          assert Join(rest, [sep]) == rest[0] + [sep] + Join(rest[1..], [sep]);
          assert s == [s[0]] + s[1..];
        }
      }
    }
  }

  /** The first part of a split is everything before the first separator. */
  lemma {:induction false} SplitHead(s: string, sep: char)
    ensures |Split(s, sep)[0]| <= |s|
    ensures Split(s, sep)[0] == s[..|Split(s, sep)[0]|]
    ensures |Split(s, sep)[0]| < |s| ==> s[|Split(s, sep)[0]|] == sep
    ensures sep !in Split(s, sep)[0]
    decreases |s|
  {
    SplitJoin(s, sep);
    if |s| > 0 && s[0] != sep {
      SplitHead(s[1..], sep);
    }
  }

  /** Splitting at a first separator: the part before it, then the split of the rest. */
  lemma {:induction false} SplitAtFirst(a: string, c: string, sep: char)
    requires sep !in a
    ensures Split(a + [sep] + c, sep) == [a] + Split(c, sep)
    decreases |a|
  {
    if |a| == 0 {
      assert a + [sep] + c == [sep] + c;
      assert ([sep] + c)[1..] == c;
    } else {
      SplitAtFirst(a[1..], c, sep);
      assert (a + [sep] + c)[1..] == a[1..] + [sep] + c;
      assert [a[0]] + a[1..] == a;
    }
  }

  /** A string without the separator splits into itself alone. */
  lemma {:induction false} SplitWithoutSeparator(s: string, sep: char)
    requires sep !in s
    ensures Split(s, sep) == [s]
    decreases |s|
  {
    if |s| > 0 {
      assert s[1..] == s[1..];
      assert sep !in s[1..];
      SplitWithoutSeparator(s[1..], sep);
      assert [s[0]] + s[1..] == s;
    }
  }

  /** The part between the first and the second separator. */
  lemma SecondOfSplit(a: string, b: string, c: string, sep: char)
    requires sep !in a && sep !in b
    ensures var parts := Split(a + [sep] + b + [sep] + c, sep); |parts| >= 2 && parts[1] == b
  {
    SplitAtFirst(b, c, sep);
    assert a + [sep] + b + [sep] + c == a + [sep] + (b + [sep] + c);
    SplitAtFirst(a, b + [sep] + c, sep);
  }

  /** A split has a second part exactly when the separator occurs. */
  lemma {:induction false} SplitHasSecondPart(s: string, sep: char)
    ensures |Split(s, sep)| >= 2 <==> sep in s
    decreases |s|
  {
    if |s| > 0 && s[0] != sep {
      SplitHasSecondPart(s[1..], sep);
      assert sep in s[1..] <==> sep in s;
    }
  }

  /** `s.replace('00', '')`: leftmost non-overlapping occurrences of "00" are removed, scanning left to right. */
  function DropDoubleZeros(s: string): (r: string)
    ensures |r| <= |s|
    decreases |s|
  {
    if |s| >= 2 && s[0] == '0' && s[1] == '0' then DropDoubleZeros(s[2..])
    else if |s| == 0 then ""
    else [s[0]] + DropDoubleZeros(s[1..])
  }

  /** A prefix without any '0' is kept as it is. */
  lemma {:induction false} DropDoubleZerosKeepsZeroFreePrefix(x: string, y: string)
    requires '0' !in x
    ensures DropDoubleZeros(x + y) == x + DropDoubleZeros(y)
    decreases |x|
  {
    if |x| == 0 {
      assert x + y == y;
    } else {
      assert x[0] in x;
      assert (x + y)[1..] == x[1..] + y;
      assert x[1..] == x[1..];
      DropDoubleZerosKeepsZeroFreePrefix(x[1..], y);
      assert x == [x[0]] + x[1..];
    }
  }

  /** An even run of '0's disappears entirely. */
  lemma {:induction false} DropDoubleZerosOfZeros(n: nat)
    ensures DropDoubleZeros(seq(2 * n, _ => '0')) == ""
    decreases n
  {
    if n > 0 {
      var z := seq(2 * n, _ => '0');
      assert z[2..] == seq(2 * (n - 1), _ => '0');
      DropDoubleZerosOfZeros(n - 1);
    }
  }

  /** The string has two adjacent '0' characters. */
  predicate HasDoubleZero(s: string) {
    exists i :: 0 <= i < |s| - 1 && s[i] == '0' && s[i + 1] == '0'
  }

  /** After the removal no "00" is left, and a string without "00" is unchanged. */
  lemma {:induction false} DropDoubleZerosLeavesNone(s: string)
    ensures !HasDoubleZero(DropDoubleZeros(s))
    ensures !HasDoubleZero(s) ==> DropDoubleZeros(s) == s
    ensures |DropDoubleZeros(s)| > 0 && DropDoubleZeros(s)[0] == '0' ==> |s| > 0 && s[0] == '0'
    decreases |s|
  {
    if |s| >= 2 && s[0] == '0' && s[1] == '0' {
      DropDoubleZerosLeavesNone(s[2..]);
    } else if |s| > 0 {
      DropDoubleZerosLeavesNone(s[1..]);
      var rest := DropDoubleZeros(s[1..]);
      var r := [s[0]] + rest;
      forall i | 0 <= i < |r| - 1 && r[i] == '0'
        ensures r[i + 1] != '0'
      {
        if i == 0 {
          assert s[0] == '0';
          assert |s| < 2 || s[1] != '0';
        } else {
          assert r[i] == rest[i - 1] && r[i + 1] == rest[i];
        }
      }
      if !HasDoubleZero(s) {
        assert !HasDoubleZero(s[1..]) by {
          forall i | 0 <= i < |s[1..]| - 1 && s[1..][i] == '0'
            ensures s[1..][i + 1] != '0'
          {
            assert s[i + 1] == '0';
          }
        }
        assert s == [s[0]] + s[1..];
      }
    }
  }
}
