/**
 * POSIX path manipulation as the pipeline uses it: `os.path.join`,
 * `os.path.basename` and `os.path.dirname` on '/'-separated strings.
 */
module Paths {

  /** Every character of `s` is a slash (vacuously so for the empty string). */
  predicate AllSlashes(s: string) {
    forall k :: 0 <= k < |s| ==> s[k] == '/'
  }

  /** `a` followed by `b` as one path: an absolute `b` replaces `a`. */
  function Join(a: string, b: string): (r: string)
    ensures |b| <= |r| && r[|r| - |b|..] == b
    ensures (|b| == 0 || b[0] != '/') ==> |a| <= |r| && r[..|a|] == a
  {
    if |b| > 0 && b[0] == '/' then b
    else if |a| == 0 || a[|a| - 1] == '/' then a + b
    else a + "/" + b
  }

  /** The final component: everything after the last slash. */
  function Basename(p: string): (r: string)
    ensures '/' !in r
    ensures |r| <= |p| && p[|p| - |r|..] == r
    ensures |r| < |p| ==> p[|p| - |r| - 1] == '/'
    decreases |p|
  {
    if |p| == 0 || p[|p| - 1] == '/' then ""
    else Basename(p[..|p| - 1]) + [p[|p| - 1]]
  }

  /** `s` without its trailing slashes. */
  function RStripSlashes(s: string): (r: string)
    ensures |r| <= |s| && s[..|r|] == r
    ensures AllSlashes(s[|r|..])
    ensures |r| > 0 ==> r[|r| - 1] != '/'
    decreases |s|
  {
    if |s| > 0 && s[|s| - 1] == '/' then RStripSlashes(s[..|s| - 1]) else s
  }

  /**
   * Everything before the final component, with trailing slashes removed
   * unless the head consists of slashes only (the root keeps them).
   */
  function Dirname(p: string): (r: string)
    ensures |r| <= |p| - |Basename(p)| && p[..|r|] == r
    ensures AllSlashes(p[|r|..|p| - |Basename(p)|])
    ensures r == [] <==> '/' !in p
    ensures AllSlashes(r) ==> r == p[..|p| - |Basename(p)|]
    ensures !AllSlashes(r) ==> r[|r| - 1] != '/'
  {
    var head := p[..|p| - |Basename(p)|];
    HeadEmptyIffNoSlash(p);
    if |head| > 0 && !AllSlashes(head) then
      RStripSlashesNotEmpty(head);
      assert p[|RStripSlashes(head)|..|p| - |Basename(p)|] == head[|RStripSlashes(head)|..];
      RStripSlashes(head)
    else
      head
  }

  /** The part before the final component is empty exactly when the path has no slash. */
  lemma HeadEmptyIffNoSlash(p: string)
    ensures p[..|p| - |Basename(p)|] == [] <==> '/' !in p
  {
    var b := Basename(p);
    if |b| == |p| {
      assert b == p;
    } else {
      assert p[|p| - |b| - 1] == '/';
    }
  }

  /** Stripping trailing slashes leaves something of a string that is not all slashes. */
  lemma RStripSlashesNotEmpty(s: string)
    requires !AllSlashes(s)
    ensures RStripSlashes(s) != []
  {
  }

  /** The final component of a joined path is the component joined on. */
  lemma BasenameJoin(a: string, b: string)
    requires '/' !in b
    ensures Basename(Join(a, b)) == b
  {
    var r := Join(a, b);
    BasenameOfSuffix(r, b);
  }

  /** A slash-free suffix preceded by a slash (or the start) is the basename. */
  lemma {:induction false} BasenameOfSuffix(p: string, b: string)
    requires '/' !in b
    requires |b| <= |p| && p[|p| - |b|..] == b
    requires |b| < |p| ==> p[|p| - |b| - 1] == '/'
    ensures Basename(p) == b
    decreases |b|
  {
    if |b| > 0 {
      var n, m := |p|, |b|;
      var p', b' := p[..n - 1], b[..m - 1];
      assert Basename(p) == Basename(p') + [p[n - 1]];
      SuffixStep(p, b);
      BasenameOfSuffix(p', b');
      assert b == b' + [b[m - 1]];
    }
  }

  /** Dropping the last character of a path and of its slash-free suffix keeps the premises of `BasenameOfSuffix`. */
  lemma SuffixStep(p: string, b: string)
    requires '/' !in b && 0 < |b| <= |p| && p[|p| - |b|..] == b
    requires |b| < |p| ==> p[|p| - |b| - 1] == '/'
    ensures b[|b| - 1] == p[|p| - 1] && p[|p| - 1] != '/'
    ensures var p', b' := p[..|p| - 1], b[..|b| - 1];
      '/' !in b' && p'[|p'| - |b'|..] == b' && (|b'| < |p'| ==> p'[|p'| - |b'| - 1] == '/')
  {
    var n, m := |p|, |b|;
    var p', b' := p[..n - 1], b[..m - 1];
    forall i | 0 <= i < m ensures p[n - m + i] == b[i] {
      assert p[n - m..][i] == b[i];
    }
    assert b[m - 1] in b;
    forall i | 0 <= i < m - 1 ensures p'[n - m..][i] == b'[i] { }
    forall k | 0 <= k < |b'| ensures b'[k] != '/' {
      assert b'[k] == b[k] && b[k] in b;
    }
  }

  /** Joining a slash-free component onto a path that does not end in a slash, then taking the dirname, gives the path back. */
  lemma DirnameJoin(a: string, b: string)
    requires |a| > 0 && a[|a| - 1] != '/'
    requires '/' !in b
    ensures Dirname(Join(a, b)) == a
  {
    var p := Join(a, b);
    assert p == a + "/" + b;
    BasenameJoin(a, b);
    var head := p[..|p| - |b|];
    assert head == a + "/";
    assert !AllSlashes(head) by {
      assert head[|a| - 1] == a[|a| - 1];
    }
    StripOneSlash(a);
  }

  lemma StripOneSlash(a: string)
    requires |a| > 0 && a[|a| - 1] != '/'
    ensures RStripSlashes(a + "/") == a
  {
    assert (a + "/")[..|a|] == a;
  }

  /**
   * The company folder `base/ticker/10-K`: its dirname's basename is the
   * ticker, and its own basename is the form name.
   */
  lemma FilingFolderNames(base: string, ticker: string, form: string)
    requires |ticker| > 0 && '/' !in ticker
    requires |form| > 0 && '/' !in form
    ensures Basename(Dirname(Join(Join(base, ticker), form))) == ticker
    ensures Basename(Join(Join(base, ticker), form)) == form
  {
    var folder := Join(base, ticker);
    assert folder[|folder| - 1] == ticker[|ticker| - 1];
    DirnameJoin(folder, form);
    BasenameJoin(base, ticker);
    BasenameJoin(folder, form);
  }

  /** Two plain components joined below a root that does not end in a slash are separated by single slashes. */
  lemma JoinTwoNames(root: string, a: string, b: string)
    requires |root| > 0 && root[|root| - 1] != '/'
    requires |a| > 0 && a[0] != '/' && a[|a| - 1] != '/'
    requires |b| == 0 || b[0] != '/'
    ensures Join(Join(root, a), b) == root + "/" + a + "/" + b
  {
    var folder := Join(root, a);
    assert folder == root + "/" + a;
    assert folder[|folder| - 1] == a[|a| - 1];
  }

  /** Joining two slash-free components below the same root never maps different pairs to one path. */
  lemma JoinTwoInjective(root: string, a1: string, b1: string, a2: string, b2: string)
    requires |a1| > 0 && '/' !in a1 && '/' !in b1
    requires |a2| > 0 && '/' !in a2 && '/' !in b2
    requires Join(Join(root, a1), b1) == Join(Join(root, a2), b2)
    ensures a1 == a2 && b1 == b2
  {
    var d1, d2 := Join(root, a1), Join(root, a2);
    BasenameJoin(d1, b1);
    BasenameJoin(d2, b2);
    assert d1[|d1| - 1] == a1[|a1| - 1];
    assert d2[|d2| - 1] == a2[|a2| - 1];
    assert a1[|a1| - 1] in a1 && a2[|a2| - 1] in a2;
    DirnameJoin(d1, b1);
    DirnameJoin(d2, b2);
    BasenameJoin(root, a1);
    BasenameJoin(root, a2);
  }
}
