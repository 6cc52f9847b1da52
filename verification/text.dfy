/**
 * The handful of Python `str` operations the pipeline relies on, as pure
 * functions over `string` (`seq<char>`): `in`, `startswith`/`endswith`,
 * `split` on one character, `replace(old, '')` and `strip()`.
 */
module Text {

  /** The characters Python's `str.isspace()` accepts, which `strip()` removes. */
  predicate IsSpace(c: char) {
    || c in {' ', '\t', '\n', '\r', '\U{0B}', '\U{0C}', '\U{1C}', '\U{1D}', '\U{1E}', '\U{1F}'}
    || c in {'\U{85}', '\U{A0}', '\U{1680}', '\U{2028}', '\U{2029}', '\U{202F}', '\U{205F}', '\U{3000}'}
    || ('\U{2000}' <= c <= '\U{200A}')
  }

  predicate StartsWith(s: string, p: string) {
    |p| <= |s| && s[..|p|] == p
  }

  predicate EndsWith(s: string, p: string) {
    |p| <= |s| && s[|s| - |p|..] == p
  }

  /** `p` occurs in `s` starting at index `i`. */
  predicate OccursAt(s: string, p: string, i: int) {
    0 <= i && i + |p| <= |s| && s[i..i + |p|] == p
  }

  /**
   * The index of the first `c` in `s`, or `|s|` when there is none
   * (Python's `s.find(c)` with `|s|` in place of -1).
   */
  function FirstIndex(s: string, c: char): (i: nat)
    ensures i <= |s|
    ensures c !in s[..i]
    ensures i < |s| ==> s[i] == c
    decreases |s|
  {
    if |s| == 0 then 0
    else if s[0] == c then 0
    else
      var j := FirstIndex(s[1..], c);
      assert s[..j + 1] == [s[0]] + s[1..][..j];
      j + 1
  }

  /** The first `c` of `a + [c] + t` is the one after `a` when `a` holds none. */
  lemma FirstIndexAt(a: string, c: char, t: string)
    requires c !in a
    ensures FirstIndex(a + [c] + t, c) == |a|
  {
    var s := a + [c] + t;
    var i := FirstIndex(s, c);
    assert s[|a|] == c;
  }

  /** Python's `p in s` for two strings. */
  predicate Contains(s: string, p: string)
    decreases |s|
  {
    StartsWith(s, p) || (|s| > 0 && Contains(s[1..], p))
  }

  /** `Contains` is exactly "occurs at some index". */
  lemma {:induction false} ContainsIffOccurs(s: string, p: string)
    ensures Contains(s, p) <==> exists i :: OccursAt(s, p, i)
    decreases |s|
  {
    if StartsWith(s, p) {
      assert OccursAt(s, p, 0);
    } else if |s| > 0 {
      ContainsIffOccurs(s[1..], p);
      if Contains(s[1..], p) {
        var j :| OccursAt(s[1..], p, j);
        assert s[1..][j..j + |p|] == s[j + 1..j + 1 + |p|];
        assert OccursAt(s, p, j + 1);
      }
      forall i | OccursAt(s, p, i)
        ensures Contains(s[1..], p)
      {
        assert i != 0;
        assert s[1..][i - 1..i - 1 + |p|] == s[i..i + |p|];
        assert OccursAt(s[1..], p, i - 1);
      }
    }
  }

  /** A string cannot contain a pattern one of whose characters it lacks. */
  lemma MissingCharNotContained(s: string, p: string, k: int)
    requires 0 <= k < |p| && p[k] !in s
    ensures !Contains(s, p)
  {
    ContainsIffOccurs(s, p);
  }

  /**
   * Python's `s.split(sep)` for a one-character separator: the maximal
   * pieces between separators, so there is always at least one piece.
   */
  function Split(s: string, sep: char): (parts: seq<string>)
    ensures |parts| == multiset(s)[sep] + 1
    ensures forall k :: 0 <= k < |parts| ==> sep !in parts[k]
    decreases |s|
  {
    if |s| == 0 then [""]
    else
      var rest := Split(s[1..], sep);
      assert s == [s[0]] + s[1..];
      if s[0] == sep then [""] + rest
      else [[s[0]] + rest[0]] + rest[1..]
  }

  /** Python's `sep.join(parts)`. */
  function JoinWith(parts: seq<string>, sep: char): string
  {
    if |parts| == 0 then ""
    else if |parts| == 1 then parts[0]
    else parts[0] + [sep] + JoinWith(parts[1..], sep)
  }

  /** Joining the pieces of a split with the separator gives back the text. */
  lemma {:induction false} JoinSplit(s: string, sep: char)
    ensures JoinWith(Split(s, sep), sep) == s
    decreases |s|
  {
    if |s| > 0 {
      JoinSplit(s[1..], sep);
      JoinSplitStep(s, sep);
    }
  }

  /** One step of `JoinSplit`: from the tail's round trip to the whole text's. */
  lemma JoinSplitStep(s: string, sep: char)
    requires |s| > 0
    requires JoinWith(Split(s[1..], sep), sep) == s[1..]
    ensures JoinWith(Split(s, sep), sep) == s
  {
    if s[0] == sep {
      JoinSplitAtSeparator(s, sep);
    } else {
      JoinSplitAtOther(s, sep);
    }
  }

  lemma JoinSplitAtSeparator(s: string, sep: char)
    requires |s| > 0 && s[0] == sep
    requires JoinWith(Split(s[1..], sep), sep) == s[1..]
    ensures JoinWith(Split(s, sep), sep) == s
  {
    var rest := Split(s[1..], sep);
    assert s == [sep] + s[1..];
    assert Split(s, sep) == [""] + rest by { SplitAtSeparator(s, sep); }
    JoinCons("", rest, sep);
  }

  lemma JoinSplitAtOther(s: string, sep: char)
    requires |s| > 0 && s[0] != sep
    requires JoinWith(Split(s[1..], sep), sep) == s[1..]
    ensures JoinWith(Split(s, sep), sep) == s
  {
    var rest := Split(s[1..], sep);
    assert s == [s[0]] + s[1..];
    assert Split(s, sep) == [[s[0]] + rest[0]] + rest[1..] by { SplitAtOther(s, sep); }
    JoinGlue(s[0], rest, sep);
  }

  /** A text starting with the separator splits into an empty piece and the tail's pieces. */
  lemma SplitAtSeparator(s: string, sep: char)
    requires |s| > 0 && s[0] == sep
    ensures Split(s, sep) == [""] + Split(s[1..], sep)
  {
  }

  /** A text starting with another character glues it onto the tail's first piece. */
  lemma SplitAtOther(s: string, sep: char)
    requires |s| > 0 && s[0] != sep
    ensures Split(s, sep) == [[s[0]] + Split(s[1..], sep)[0]] + Split(s[1..], sep)[1..]
  {
  }

  /** Joining a piece in front of at least one more puts a separator between them. */
  lemma JoinCons(x: string, rest: seq<string>, sep: char)
    requires |rest| > 0
    ensures JoinWith([x] + rest, sep) == x + [sep] + JoinWith(rest, sep)
  {
    assert ([x] + rest)[1..] == rest;
  }

  /** Gluing a character onto the first piece puts it in front of the join. */
  lemma JoinGlue(c: char, rest: seq<string>, sep: char)
    requires |rest| > 0
    ensures JoinWith([[c] + rest[0]] + rest[1..], sep) == [c] + JoinWith(rest, sep)
  {
    if |rest| > 1 {
      JoinCons([c] + rest[0], rest[1..], sep);
      JoinCons(rest[0], rest[1..], sep);
      assert [rest[0]] + rest[1..] == rest;
    } else {
      assert [[c] + rest[0]] + rest[1..] == [[c] + rest[0]];
    }
  }

  /** Splitting `a + t` where `a` holds no separator glues `a` onto the first piece of `t`. */
  lemma {:induction false} SplitSeparatorFreePrefix(a: string, t: string, sep: char)
    requires sep !in a
    ensures Split(a + t, sep) == [a + Split(t, sep)[0]] + Split(t, sep)[1..]
    decreases |a|
  {
    if |a| > 0 {
      assert (a + t)[1..] == a[1..] + t;
      SplitSeparatorFreePrefix(a[1..], t, sep);
      assert [a[0]] + (a[1..] + Split(t, sep)[0]) == a + Split(t, sep)[0];
    } else {
      var st := Split(t, sep);
      assert a + t == t;
      assert a + st[0] == st[0];
      assert st == [st[0]] + st[1..];
    }
  }

  /** Splitting the join of separator-free pieces gives back the pieces. */
  lemma {:induction false} SplitJoin(parts: seq<string>, sep: char)
    requires |parts| > 0
    requires forall k :: 0 <= k < |parts| ==> sep !in parts[k]
    ensures Split(JoinWith(parts, sep), sep) == parts
    decreases |parts|
  {
    if |parts| == 1 {
      SplitSeparatorFreePrefix(parts[0], "", sep);
      assert parts[0] + "" == parts[0];
      assert Split("", sep) == [""];
      assert [parts[0]] == parts;
    } else {
      var tail := JoinWith(parts[1..], sep);
      var t := [sep] + tail;
      assert JoinWith(parts, sep) == parts[0] + t;
      SplitJoin(parts[1..], sep);
      assert Split(t, sep) == [""] + parts[1..] by {
        assert t[0] == sep && t[1..] == tail;
      }
      SplitSeparatorFreePrefix(parts[0], t, sep);
      assert parts[0] + "" == parts[0];
      assert [parts[0]] + parts[1..] == parts;
    }
  }

  /**
   * Python's `s.replace(p, '')`: deletes the non-overlapping occurrences of
   * `p`, found scanning left to right.
   */
  function RemoveAll(s: string, p: string): (r: string)
    requires |p| > 0
    ensures |r| <= |s|
    ensures |p| == 1 ==> p[0] !in r
    decreases |s|
  {
    if |s| < |p| then s
    else if s[..|p|] == p then RemoveAll(s[|p|..], p)
    else [s[0]] + RemoveAll(s[1..], p)
  }

  /** `replace` keeps every character that is not part of the pattern. */
  lemma {:induction false} RemoveAllKeeps(s: string, p: string, c: char)
    requires |p| > 0 && c !in p
    ensures multiset(RemoveAll(s, p))[c] == multiset(s)[c]
    decreases |s|
  {
    if |s| >= |p| {
      if s[..|p|] == p {
        assert s == s[..|p|] + s[|p|..];
        RemoveAllKeeps(s[|p|..], p, c);
      } else {
        assert s == [s[0]] + s[1..];
        RemoveAllKeeps(s[1..], p, c);
      }
    }
  }

  /** `replace` leaves a string in which the pattern does not occur alone. */
  lemma {:induction false} RemoveNotContained(s: string, p: string)
    requires |p| > 0 && !Contains(s, p)
    ensures RemoveAll(s, p) == s
    decreases |s|
  {
    if |s| >= |p| {
      assert !StartsWith(s, p);
      RemoveNotContained(s[1..], p);
      assert [s[0]] + s[1..] == s;
    }
  }

  /** `replace` leaves a string alone when one of the pattern's characters is missing from it. */
  lemma RemoveAbsent(s: string, p: string, k: int)
    requires 0 <= k < |p| && p[k] !in s
    ensures RemoveAll(s, p) == s
  {
    MissingCharNotContained(s, p, k);
    RemoveNotContained(s, p);
  }

  /** `replace` passes over a prefix in which no occurrence of the pattern can start. */
  lemma {:induction false} RemoveAfterFree(a: string, t: string, p: string)
    requires |p| > 0 && p[0] !in a
    ensures RemoveAll(a + t, p) == a + RemoveAll(t, p)
    decreases |a|
  {
    if |a| == 0 {
      assert a + t == t;
    } else {
      var s := a + t;
      assert s[0] == a[0] != p[0];
      assert |s| >= |p| ==> s[..|p|] != p;
      assert s[1..] == a[1..] + t;
      RemoveAfterFree(a[1..], t, p);
      assert [a[0]] + (a[1..] + RemoveAll(t, p)) == a + RemoveAll(t, p);
    }
  }

  /** `replace` deletes an occurrence of the pattern at the very start. */
  lemma RemoveLeading(p: string, t: string)
    requires |p| > 0
    ensures RemoveAll(p + t, p) == RemoveAll(t, p)
  {
    assert (p + t)[..|p|] == p;
    assert (p + t)[|p|..] == t;
  }

  /** Every `c` of `s` removed; the reference for removing a one-character pattern. */
  function Without(s: string, c: char): string
    decreases |s|
  {
    if |s| == 0 then ""
    else if s[0] == c then Without(s[1..], c)
    else [s[0]] + Without(s[1..], c)
  }

  /** `replace` with a one-character pattern deletes exactly that character. */
  lemma {:induction false} RemoveCharIsWithout(s: string, c: char)
    ensures RemoveAll(s, [c]) == Without(s, c)
    decreases |s|
  {
    if |s| > 0 {
      RemoveCharIsWithout(s[1..], c);
    }
  }

  /** Python's `s.lstrip()`: the suffix that starts at the first non-space. */
  function LStrip(s: string): (r: string)
    ensures |r| <= |s| && r == s[|s| - |r|..]
    ensures forall k :: 0 <= k < |s| - |r| ==> IsSpace(s[k])
    ensures r == [] || !IsSpace(r[0])
    decreases |s|
  {
    if |s| > 0 && IsSpace(s[0]) then LStrip(s[1..]) else s
  }

  /** Python's `s.rstrip()`: the prefix that ends at the last non-space. */
  function RStrip(s: string): (r: string)
    ensures |r| <= |s| && r == s[..|r|]
    ensures forall k :: |r| <= k < |s| ==> IsSpace(s[k])
    ensures r == [] || !IsSpace(r[|r| - 1])
    decreases |s|
  {
    if |s| > 0 && IsSpace(s[|s| - 1]) then RStrip(s[..|s| - 1]) else s
  }

  /** A run made only of spaces holds no other character. */
  lemma SpacesHoldNoOther(t: string, c: char)
    requires forall k :: 0 <= k < |t| ==> IsSpace(t[k])
    requires !IsSpace(c)
    ensures multiset(t)[c] == 0
  {
    forall k | 0 <= k < |t|
      ensures t[k] != c
    {
    }
    assert c !in t;
  }

  /** Cutting spaces off both ends of `s` keeps every other character. */
  lemma TrimKeepsOthers(s: string, i: int, j: int, c: char)
    requires 0 <= i <= j <= |s| && SpacesOutside(s, i, j)
    requires !IsSpace(c)
    ensures multiset(s[i..j])[c] == multiset(s)[c]
  {
    assert s == s[..i] + s[i..j] + s[j..];
    assert forall k :: 0 <= k < |s[..i]| ==> s[..i][k] == s[k];
    assert forall k :: 0 <= k < |s[j..]| ==> s[j..][k] == s[j + k];
    SpacesHoldNoOther(s[..i], c);
    SpacesHoldNoOther(s[j..], c);
  }

  /** `RStrip(LStrip(s))` starts and ends with a non-space. */
  lemma StripEnds(s: string)
    ensures var r := RStrip(LStrip(s)); r == [] || (!IsSpace(r[0]) && !IsSpace(r[|r| - 1]))
  {
    var l := LStrip(s);
    var r := RStrip(l);
    if r != [] {
      assert r[0] == l[0];
    }
  }

  /** `RStrip(LStrip(s))` leaves a string without spaces at its ends alone. */
  lemma StripStripped(s: string)
    requires s == [] || (!IsSpace(s[0]) && !IsSpace(s[|s| - 1]))
    ensures RStrip(LStrip(s)) == s
  {
  }

  /** A leading space does not change what `strip` returns. */
  lemma StripLeadingSpace(c: char, s: string)
    requires IsSpace(c)
    ensures RStrip(LStrip([c] + s)) == RStrip(LStrip(s))
  {
    assert ([c] + s)[1..] == s;
  }

  /**
   * Python's `s.strip()`: the result neither starts nor ends with a space,
   * and an already stripped string is left alone. `StripTrims` and
   * `StripUnique` show it is exactly `s` with the spaces at both ends cut.
   */
  function Strip(s: string): (r: string)
    ensures r == [] || (!IsSpace(r[0]) && !IsSpace(r[|r| - 1]))
    ensures (s == [] || (!IsSpace(s[0]) && !IsSpace(s[|s| - 1]))) ==> r == s
  {
    StripEnds(s);
    if s == [] || (!IsSpace(s[0]) && !IsSpace(s[|s| - 1])) then
      StripStripped(s);
      RStrip(LStrip(s))
    else
      RStrip(LStrip(s))
  }

  /** `strip` returns a slice of `s` with nothing but spaces cut off either side. */
  lemma StripTrims(s: string)
    ensures exists i, j :: 0 <= i <= j <= |s| && Strip(s) == s[i..j] && SpacesOutside(s, i, j)
  {
    var i := |s| - |LStrip(s)|;
    var j := i + |RStrip(LStrip(s))|;
    assert 0 <= i <= j <= |s| && Strip(s) == s[i..j] && SpacesOutside(s, i, j) by {
      StripSlice(s);
    }
  }

  /** Every character of `s` before `i` and from `j` on is a space. */
  predicate SpacesOutside(s: string, i: int, j: int)
    requires 0 <= i <= j <= |s|
  {
    (forall k :: 0 <= k < i ==> IsSpace(s[k])) && (forall k :: j <= k < |s| ==> IsSpace(s[k]))
  }

  /** `RStrip(LStrip(s))` is the slice of `s` that starts where `LStrip(s)` does. */
  lemma StripSlice(s: string)
    ensures var i := |s| - |LStrip(s)|;
      && i + |RStrip(LStrip(s))| <= |s|
      && RStrip(LStrip(s)) == s[i..i + |RStrip(LStrip(s))|]
      && SpacesOutside(s, i, i + |RStrip(LStrip(s))|)
  {
    var i := |s| - |LStrip(s)|;
    assert LStrip(s) == s[i..];
    RStripOfSuffix(s, i);
  }

  /** `rstrip` of a suffix of `s` is a slice of `s` followed by spaces only. */
  lemma RStripOfSuffix(s: string, i: int)
    requires 0 <= i <= |s|
    ensures i + |RStrip(s[i..])| <= |s|
    ensures RStrip(s[i..]) == s[i..i + |RStrip(s[i..])|]
    ensures forall k :: i + |RStrip(s[i..])| <= k < |s| ==> IsSpace(s[k])
  {
    var l := s[i..];
    var r := RStrip(l);
    assert r == l[..|r|];
    forall k | i + |r| <= k < |s|
      ensures IsSpace(s[k])
    {
      assert s[k] == l[k - i];
    }
  }

  /**
   * The slice `strip` returns is the only one of its kind: cutting spaces
   * off both sides of `s` so that no space is left at either end gives
   * `Strip(s)`.
   */
  lemma StripUnique(s: string, i: int, j: int)
    requires 0 <= i <= j <= |s| && SpacesOutside(s, i, j)
    requires i == j || (!IsSpace(s[i]) && !IsSpace(s[j - 1]))
    ensures Strip(s) == s[i..j]
  {
    if i == j {
      AllSpacesLStrip(s, i);
    } else {
      TrimAt(s, i, j);
    }
  }

  /** With a non-space at `i` and at `j - 1` and spaces outside, both strips cut exactly there. */
  lemma TrimAt(s: string, i: int, j: int)
    requires 0 <= i < j <= |s| && !IsSpace(s[i]) && !IsSpace(s[j - 1])
    requires forall k :: 0 <= k < i ==> IsSpace(s[k])
    requires forall k :: j <= k < |s| ==> IsSpace(s[k])
    ensures RStrip(LStrip(s)) == s[i..j]
  {
    LStripAt(s, i);
    RStripSuffixAt(s, i, j);
  }

  /** `rstrip` of the suffix from `i` stops at the last non-space, at `j - 1`. */
  lemma RStripSuffixAt(s: string, i: int, j: int)
    requires 0 <= i < j <= |s| && !IsSpace(s[j - 1])
    requires forall k :: j <= k < |s| ==> IsSpace(s[k])
    ensures RStrip(s[i..]) == s[i..j]
  {
    var l := s[i..];
    assert l[j - i - 1] == s[j - 1];
    forall k | j - i <= k < |l| ensures IsSpace(l[k]) {
      assert l[k] == s[k + i];
    }
    RStripAt(l, j - i);
    assert l[..j - i] == s[i..j];
  }

  /** When `s` is spaces apart from an empty slice at `i`, `lstrip` leaves nothing. */
  lemma AllSpacesLStrip(s: string, i: int)
    requires 0 <= i <= |s|
    requires forall k :: 0 <= k < i ==> IsSpace(s[k])
    requires forall k :: i <= k < |s| ==> IsSpace(s[k])
    ensures LStrip(s) == [] && RStrip(LStrip(s)) == []
  {
  }

  /** `lstrip` of `s` is the suffix from the first non-space `i`. */
  lemma {:induction false} LStripAt(s: string, i: int)
    requires 0 <= i < |s| && !IsSpace(s[i])
    requires forall k :: 0 <= k < i ==> IsSpace(s[k])
    ensures LStrip(s) == s[i..]
    decreases i
  {
    if i > 0 {
      LStripAt(s[1..], i - 1);
      assert s[1..][i - 1..] == s[i..];
    }
  }

  /** `rstrip` of `s` is the prefix up to the last non-space at `j - 1`. */
  lemma {:induction false} RStripAt(s: string, j: int)
    requires 0 < j <= |s| && !IsSpace(s[j - 1])
    requires forall k :: j <= k < |s| ==> IsSpace(s[k])
    ensures RStrip(s) == s[..j]
    decreases |s| - j
  {
    if j < |s| {
      RStripAt(s[..|s| - 1], j);
      assert s[..|s| - 1][..j] == s[..j];
    }
  }

  /** `strip` only cuts spaces: every other character keeps its count. */
  lemma StripKeeps(s: string, c: char)
    requires !IsSpace(c)
    ensures multiset(Strip(s))[c] == multiset(s)[c]
  {
    var i := |s| - |LStrip(s)|;
    var j := i + |RStrip(LStrip(s))|;
    assert 0 <= i <= j <= |s| && Strip(s) == s[i..j] && SpacesOutside(s, i, j) by {
      StripSlice(s);
    }
    TrimKeepsOthers(s, i, j, c);
  }
}
