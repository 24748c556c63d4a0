/**
  The Python `str` methods the match parsers rely on, over ASCII text:
  split on one separator, strip a set of characters, replace a character by nothing,
  upper/lower case, the `in` substring test and the isdigit/isalpha/isalnum predicates.
*/
module PyStr {

  // ---------------------------------------------------------------------------
  // str.split(sep) with a one-character separator

  /** `s.split(sep)`: the pieces between occurrences of sep; there is always at least one. */
  function Split(s: string, sep: char): (parts: seq<string>)
    ensures |parts| >= 1
    ensures forall i :: 0 <= i < |parts| ==> sep !in parts[i]
  {
    if s == [] then [""]
    else
      var rest := Split(s[1..], sep);
      if s[0] == sep then [""] + rest
      else [[s[0]] + rest[0]] + rest[1..]
  }

  /** `sep.join(parts)`. */
  function Join(parts: seq<string>, sep: char): string
    requires |parts| >= 1
  {
    if |parts| == 1 then parts[0] else parts[0] + [sep] + Join(parts[1..], sep)
  }

  /** The first piece of a split is the text up to the first separator, or all of it. */
  lemma {:induction false} SplitHead(s: string, sep: char)
    ensures var h := Split(s, sep)[0];
            |h| <= |s| && h == s[..|h|] && (|h| == |s| || s[|h|] == sep)
  {
    if s != [] && s[0] != sep {
      SplitHead(s[1..], sep);
      var t := Split(s[1..], sep)[0];
      assert Split(s, sep)[0] == [s[0]] + t;
      assert [s[0]] + s[1..][..|t|] == s[..|t| + 1];
    }
  }

  /** Separator-free text followed by nothing or by a separator is the first piece. */
  lemma {:induction false} SplitHeadOf(p: string, rest: string, sep: char)
    requires sep !in p && (rest == [] || rest[0] == sep)
    ensures Split(p + rest, sep)[0] == p
  {
    if p == [] {
      assert p + rest == rest;
    } else {
      assert (p + rest)[0] == p[0] && (p + rest)[1..] == p[1..] + rest;
      SplitHeadOf(p[1..], rest, sep);
      assert [p[0]] + p[1..] == p;
    }
  }

  /** Text that holds the separator splits into at least two pieces. */
  lemma {:induction false} SplitAtSeparator(s: string, sep: char)
    requires sep in s
    ensures |Split(s, sep)| >= 2
  {
    if s[0] != sep {
      assert sep in s[1..];
      SplitAtSeparator(s[1..], sep);
    }
  }

  /** A character that is neither the separator nor in any piece is not in the join. */
  lemma {:induction false} JoinWithout(parts: seq<string>, sep: char, c: char)
    requires |parts| >= 1 && c != sep
    requires forall i :: 0 <= i < |parts| ==> c !in parts[i]
    ensures c !in Join(parts, sep)
  {
    if |parts| > 1 {
      JoinWithout(parts[1..], sep, c);
    }
  }

  /** Joining the pieces of a split gives back the text. */
  lemma {:induction false} JoinSplit(s: string, sep: char)
    ensures Join(Split(s, sep), sep) == s
  {
    if s != [] {
      var rest := Split(s[1..], sep);
      JoinSplit(s[1..], sep);
      if s[0] != sep {
        var parts := Split(s, sep);
        assert parts[1..] == rest[1..];
        if |rest| == 1 {
          assert Join(parts, sep) == [s[0]] + rest[0];
        } else {
          assert Join(rest, sep) == rest[0] + [sep] + Join(rest[1..], sep);
          assert Join(parts, sep) == [s[0]] + rest[0] + [sep] + Join(rest[1..], sep);
        }
      }
    }
  }

  /** Splitting a join of separator-free pieces gives back the pieces. */
  lemma {:induction false} SplitJoin(parts: seq<string>, sep: char)
    requires |parts| >= 1
    requires forall i :: 0 <= i < |parts| ==> sep !in parts[i]
    ensures Split(Join(parts, sep), sep) == parts
    decreases |parts|, |parts[0]|
  {
    var p := parts[0];
    if p == [] {
      if |parts| > 1 {
        SplitJoin(parts[1..], sep);
        var s := Join(parts, sep);
        assert s == [sep] + Join(parts[1..], sep);
        assert s[1..] == Join(parts[1..], sep);
        assert parts == [""] + parts[1..];
      }
    } else {
      var tail := [p[1..]] + parts[1..];
      assert sep !in p[1..] by {
        assert forall c :: c in p[1..] ==> c in p;
      }
      assert forall i :: 1 <= i < |tail| ==> tail[i] == parts[i];
      SplitJoin(tail, sep);
      JoinHead(parts, sep);
      var s := Join(parts, sep);
      assert s[1..] == Join(tail, sep);
      assert [p[0]] + p[1..] == p;
      assert [p] + parts[1..] == parts;
    }
  }

  /** The first character of a join whose first piece is not empty. */
  lemma JoinHead(parts: seq<string>, sep: char)
    requires |parts| >= 1 && parts[0] != []
    ensures Join(parts, sep) == [parts[0][0]] + Join([parts[0][1..]] + parts[1..], sep)
  {
    var p := parts[0];
    var tail := [p[1..]] + parts[1..];
    assert tail[1..] == parts[1..];
    if |parts| > 1 {
      assert p + [sep] + Join(parts[1..], sep) == [p[0]] + (p[1..] + [sep] + Join(parts[1..], sep));
    }
  }

  // ---------------------------------------------------------------------------
  // str.strip(chars), str.lstrip()

  /** Leading characters of s that are in cs removed. */
  function LStrip(s: string, cs: set<char>): (r: string)
    ensures |r| <= |s| && r == s[|s| - |r|..]
    ensures r == [] || r[0] !in cs
    ensures forall i :: 0 <= i < |s| - |r| ==> s[i] in cs
  {
    if s != [] && s[0] in cs then LStrip(s[1..], cs) else s
  }

  /** Trailing characters of s that are in cs removed. */
  function RStrip(s: string, cs: set<char>): (r: string)
    ensures |r| <= |s| && r == s[..|r|]
    ensures r == [] || r[|r| - 1] !in cs
    ensures forall i :: |r| <= i < |s| ==> s[i] in cs
  {
    if s != [] && s[|s| - 1] in cs then RStrip(s[..|s| - 1], cs) else s
  }

  /** The characters of a `chars` argument, which Python treats as a set. */
  function CharSet(chars: string): set<char>
  {
    set c | c in chars
  }

  /** r is s with i characters of cs cut from the front and only characters of cs cut from
      the back. */
  predicate Trims(s: string, cs: set<char>, i: int, r: string)
  {
    && 0 <= i <= |s| - |r|
    && r == s[i..i + |r|]
    && (forall k :: 0 <= k < i ==> s[k] in cs)
    && (forall k :: i + |r| <= k < |s| ==> s[k] in cs)
  }

  /** `s.strip(chars)` with chars given as a set: every leading and trailing character in cs
      removed, and nothing else. */
  function Strip(s: string, cs: set<char>): (r: string)
    ensures r == [] || (r[0] !in cs && r[|r| - 1] !in cs)
    ensures Trims(s, cs, |s| - |LStrip(s, cs)|, r)
  {
    StripTrims(s, cs);
    RStrip(LStrip(s, cs), cs)
  }

  lemma StripTrims(s: string, cs: set<char>)
    ensures Trims(s, cs, |s| - |LStrip(s, cs)|, RStrip(LStrip(s, cs), cs))
  {
    var left := LStrip(s, cs);
    TrimsOfStrips(s, cs, left, RStrip(left, cs));
  }

  lemma TrimsOfStrips(s: string, cs: set<char>, left: string, r: string)
    requires |left| <= |s| && left == s[|s| - |left|..]
    requires forall k :: 0 <= k < |s| - |left| ==> s[k] in cs
    requires |r| <= |left| && r == left[..|r|]
    requires forall k :: |r| <= k < |left| ==> left[k] in cs
    ensures Trims(s, cs, |s| - |left|, r)
  {
    StripSlice(s, left, r);
    StripBack(s, cs, left, r);
  }

  lemma StripSlice(s: string, left: string, r: string)
    requires |left| <= |s| && left == s[|s| - |left|..]
    requires |r| <= |left| && r == left[..|r|]
    ensures r == s[|s| - |left|..|s| - |left| + |r|]
  {
  }

  lemma StripBack(s: string, cs: set<char>, left: string, r: string)
    requires |left| <= |s| && left == s[|s| - |left|..]
    requires |r| <= |left| && forall k :: |r| <= k < |left| ==> left[k] in cs
    ensures forall k :: |s| - |left| + |r| <= k < |s| ==> s[k] in cs
  {
    var i := |s| - |left|;
    forall k | i + |r| <= k < |s|
      ensures s[k] in cs
    {
      assert s[k] == left[k - i];
    }
  }

  /** Leading characters that are all stripped make no difference to a left strip. */
  lemma {:induction false} LStripPrefix(p: string, s: string, cs: set<char>)
    requires forall i :: 0 <= i < |p| ==> p[i] in cs
    ensures LStrip(p + s, cs) == LStrip(s, cs)
  {
    if p == [] {
      assert p + s == s;
    } else {
      assert (p + s)[0] == p[0] && (p + s)[1..] == p[1..] + s;
      assert LStrip(p + s, cs) == LStrip(p[1..] + s, cs);
      LStripPrefix(p[1..], s, cs);
    }
  }

  /** Stripping leaves text alone that neither begins nor ends with a stripped character. */
  lemma StripNothing(s: string, cs: set<char>)
    requires s != [] && s[0] !in cs && s[|s| - 1] !in cs
    ensures Strip(s, cs) == s
  {
  }

  /** The whitespace `str.lstrip()`, `str.strip()` and `int()` remove (its ASCII part). */
  const Whitespace: set<char> := {' ', '\t', '\n', '\r', '\U{b}', '\U{c}', '\U{1c}', '\U{1d}', '\U{1e}', '\U{1f}'}

  /** `s.lstrip()`. */
  function LStripSpace(s: string): (r: string)
    ensures r == [] || r[0] !in Whitespace
  {
    LStrip(s, Whitespace)
  }

  // ---------------------------------------------------------------------------
  // str.replace(c, ''), str.upper(), str.lower()

  /** `s.replace(c, '')`. */
  function Remove(s: string, c: char): (r: string)
    ensures c !in r
    ensures forall x :: x != c ==> multiset(r)[x] == multiset(s)[x]
  {
    if s == [] then []
    else
      var rest := Remove(s[1..], c);
      assert s == [s[0]] + s[1..];
      if s[0] == c then rest else [s[0]] + rest
  }

  /** Removing a character that is not there changes nothing. */
  lemma {:induction false} RemoveAbsent(s: string, c: char)
    requires c !in s
    ensures Remove(s, c) == s
  {
    if s != [] {
      assert s[0] != c;
      RemoveAbsent(s[1..], c);
    }
  }

  /** Removal works character by character: a character other than c stays, c goes. */
  lemma RemoveOne(x: char, c: char)
    ensures Remove([x], c) == if x == c then [] else [x]
  {
  }

  /** Removal keeps the order of what stays: removing from joined text is removing from each
      part and joining the results. */
  lemma {:induction false} RemoveAppend(a: string, b: string, c: char)
    ensures Remove(a + b, c) == Remove(a, c) + Remove(b, c)
  {
    if a == [] {
      assert a + b == b;
    } else {
      assert (a + b)[0] == a[0] && (a + b)[1..] == a[1..] + b;
      RemoveAppend(a[1..], b, c);
    }
  }

  predicate IsLowerLetter(c: char) { 'a' <= c <= 'z' }
  predicate IsUpperLetter(c: char) { 'A' <= c <= 'Z' }

  function UpperChar(c: char): char
  {
    if IsLowerLetter(c) then (c as int - 32) as char else c
  }

  function LowerChar(c: char): char
  {
    if IsUpperLetter(c) then (c as int + 32) as char else c
  }

  /** `s.upper()`: no lower-case letter is left and nothing else changes. */
  function Upper(s: string): (r: string)
    ensures |r| == |s|
    ensures forall i :: 0 <= i < |s| ==> r[i] == UpperChar(s[i]) && !IsLowerLetter(r[i])
  {
    seq(|s|, i requires 0 <= i < |s| => UpperChar(s[i]))
  }

  /** Upper-casing joined text is upper-casing each part. */
  lemma UpperAppend(a: string, b: string)
    ensures Upper(a + b) == Upper(a) + Upper(b)
  {
  }

  /** `s.lower()`: no upper-case letter is left and nothing else changes. */
  function Lower(s: string): (r: string)
    ensures |r| == |s|
    ensures forall i :: 0 <= i < |s| ==> r[i] == LowerChar(s[i]) && !IsUpperLetter(r[i])
  {
    seq(|s|, i requires 0 <= i < |s| => LowerChar(s[i]))
  }

  /** Lower-casing is idempotent, so comparing lower-cased keys is an equivalence. */
  lemma LowerIdempotent(s: string)
    ensures Lower(Lower(s)) == Lower(s)
  {
    assert forall i :: 0 <= i < |s| ==> LowerChar(LowerChar(s[i])) == LowerChar(s[i]);
  }

  /** Upper-casing maps a space or a hyphen to itself and nothing else to them. */
  lemma UpperKeepsPunctuation(s: string, c: char)
    requires c == ' ' || c == '-'
    ensures c in Upper(s) <==> c in s
  {
    var u := Upper(s);
    if c in s {
      var i :| 0 <= i < |s| && s[i] == c;
      assert u[i] == c;
    }
    if c in u {
      var i :| 0 <= i < |u| && u[i] == c;
      assert s[i] == c;
    }
  }

  // ---------------------------------------------------------------------------
  // `sub in s`, str.isdigit(), str.isalpha(), str.isalnum()

  /** sub occurs in s starting at position i. */
  predicate OccursAt(s: string, sub: string, i: int)
  {
    0 <= i <= |s| - |sub| && s[i..i + |sub|] == sub
  }

  /** sub occurs in s at position i or later. */
  function ContainsFrom(s: string, sub: string, i: nat): (b: bool)
    ensures b <==> exists j :: i <= j && OccursAt(s, sub, j)
    decreases |s| - i
  {
    if i + |sub| > |s| then false
    else OccursAt(s, sub, i) || ContainsFrom(s, sub, i + 1)
  }

  /** `sub in s`. */
  function Contains(s: string, sub: string): (b: bool)
    ensures b <==> exists j :: OccursAt(s, sub, j)
  {
    ContainsFrom(s, sub, 0)
  }

  predicate IsDigitChar(c: char) { '0' <= c <= '9' }
  predicate IsAlphaChar(c: char) { IsLowerLetter(c) || IsUpperLetter(c) }

  /** `s.isdigit()`: non-empty and digits only. */
  predicate IsDigit(s: string)
  {
    |s| > 0 && forall i :: 0 <= i < |s| ==> IsDigitChar(s[i])
  }

  /** `s.isalpha()`: non-empty and letters only. */
  predicate IsAlpha(s: string)
  {
    |s| > 0 && forall i :: 0 <= i < |s| ==> IsAlphaChar(s[i])
  }

  /** `s.isalnum()`: non-empty and letters or digits only. */
  predicate IsAlnum(s: string)
  {
    |s| > 0 && forall i :: 0 <= i < |s| ==> IsAlphaChar(s[i]) || IsDigitChar(s[i])
  }

  /** A word that is alphanumeric but neither all digits nor all letters mixes both kinds. */
  lemma MixedWord(s: string)
    requires IsAlnum(s) && !IsDigit(s) && !IsAlpha(s)
    ensures exists i :: 0 <= i < |s| && IsDigitChar(s[i])
    ensures exists i :: 0 <= i < |s| && IsAlphaChar(s[i])
  {
  }
}
