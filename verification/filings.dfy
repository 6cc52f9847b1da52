/**
 * The downloaded filings as a directory tree, and the submission corpus
 * that `analyze_company` and `create_written_insights` both assemble from
 * one directory's listing.
 */
module Filings {
  import opened Common
  import opened Text
  import Paths

  /** A file with its text, or a directory with its listing in `os.listdir` order. */
  datatype Node = File(text: string) | Dir(entries: seq<Entry>)
  datatype Entry = Entry(name: string, node: Node)

  /** The fixed name of a submission's text file. */
  const SubmissionFile: string := "submission.txt"

  /** The node called `name` in a listing (the first, should a name repeat). */
  function Lookup(entries: seq<Entry>, name: string): (r: Option<Node>)
    ensures r.None? <==> forall k :: 0 <= k < |entries| ==> entries[k].name != name
    ensures r.Some? ==> exists k :: 0 <= k < |entries| && entries[k] == Entry(name, r.value)
    decreases |entries|
  {
    if |entries| == 0 then None
    else if entries[0].name == name then Some(entries[0].node)
    else
      var r := Lookup(entries[1..], name);
      assert r.Some? ==> exists k :: 0 <= k < |entries| && entries[k] == Entry(name, r.value) by {
        if r.Some? {
          var k :| 0 <= k < |entries[1..]| && entries[1..][k] == Entry(name, r.value);
          assert entries[k + 1] == Entry(name, r.value);
        }
      }
      r
  }

  /**
   * What an entry's `submission.txt` is: nothing unless the entry is a
   * directory that holds one.
   */
  function SubmissionOf(e: Entry): Option<Node> {
    if e.node.Dir? then Lookup(e.node.entries, SubmissionFile) else None
  }

  /** The entry is a submission directory whose `submission.txt` can be read. */
  predicate Readable(e: Entry) {
    SubmissionOf(e).Some? && SubmissionOf(e).value.File?
  }

  /** The entry is a directory whose `submission.txt` is itself a directory: `open` raises. */
  predicate Blocked(e: Entry) {
    SubmissionOf(e).Some? && SubmissionOf(e).value.Dir?
  }

  /**
   * The loop over `os.listdir(dir)`: each readable submission's text
   * followed by a newline, in listing order; the first blocked one raises.
   */
  function Corpus(dir: string, entries: seq<Entry>): (r: Result<string>)
    ensures r.Err? <==> exists k :: 0 <= k < |entries| && Blocked(entries[k])
    ensures r.Ok? && |r.value| > 0 ==> r.value[|r.value| - 1] == '\n'
    ensures r == Ok("") <==> forall k :: 0 <= k < |entries| ==> SubmissionOf(entries[k]).None?
    decreases |entries|
  {
    if |entries| == 0 then Ok("")
    else
      var e := entries[0];
      var rest := Corpus(dir, entries[1..]);
      assert forall k :: 1 <= k < |entries| ==> entries[k] == entries[1..][k - 1];
      match SubmissionOf(e)
      case None => rest
      case Some(File(t)) =>
        if rest.Err? then rest
        else
          var c := t + "\n" + rest.value;
          assert c[|t|] == '\n';
          Ok(c)
      case Some(Dir(_)) => Err(IsADirectory(Paths.Join(Paths.Join(dir, e.name), SubmissionFile)))
  }

  /** The texts of the readable submissions, in listing order. */
  function Submissions(entries: seq<Entry>): (r: seq<string>)
    ensures |r| <= |entries|
    decreases |entries|
  {
    if |entries| == 0 then []
    else if Readable(entries[0]) then [SubmissionOf(entries[0]).value.text] + Submissions(entries[1..])
    else Submissions(entries[1..])
  }

  /** Corpus of a split listing is the two corpora one after the other; the first failure wins. */
  lemma {:induction false} CorpusAppend(dir: string, a: seq<Entry>, b: seq<Entry>)
    ensures Corpus(dir, a + b) ==
      match Corpus(dir, a)
      case Err(e) => Err(e)
      case Ok(x) =>
        match Corpus(dir, b)
        case Err(e) => Err(e)
        case Ok(y) => Ok(x + y)
    decreases |a|
  {
    if |a| == 0 {
      assert a + b == b;
      if Corpus(dir, b).Ok? {
        assert "" + Corpus(dir, b).value == Corpus(dir, b).value;
      }
    } else {
      assert (a + b)[0] == a[0] && (a + b)[1..] == a[1..] + b;
      CorpusAppend(dir, a[1..], b);
      match SubmissionOf(a[0])
      case None =>
      case Some(File(t)) =>
        if Corpus(dir, a[1..]).Ok? && Corpus(dir, b).Ok? {
          var x, y := Corpus(dir, a[1..]).value, Corpus(dir, b).value;
          assert t + "\n" + (x + y) == (t + "\n" + x) + y;
        }
      case Some(Dir(_)) =>
    }
  }

  /**
   * The corpus is the readable submissions joined by newlines with a final
   * newline: Python's `"\n".join(texts) + "\n"` when there is at least one.
   */
  lemma {:induction false} CorpusIsJoin(dir: string, entries: seq<Entry>)
    requires Corpus(dir, entries).Ok?
    ensures Corpus(dir, entries).value == JoinWith(Submissions(entries) + [""], '\n')
    decreases |entries|
  {
    if |entries| > 0 {
      CorpusIsJoin(dir, entries[1..]);
      var rest := Submissions(entries[1..]);
      if Readable(entries[0]) {
        var t := SubmissionOf(entries[0]).value.text;
        var parts := [t] + rest + [""];
        assert parts[1..] == rest + [""];
        assert |parts| > 1;
      }
    }
  }

  /**
   * When no submission contains a newline, splitting the corpus at
   * newlines gives back the submissions and one empty trailing piece.
   */
  lemma CorpusSplits(dir: string, entries: seq<Entry>)
    requires Corpus(dir, entries).Ok?
    requires forall t :: t in Submissions(entries) ==> '\n' !in t
    ensures Split(Corpus(dir, entries).value, '\n') == Submissions(entries) + [""]
  {
    CorpusIsJoin(dir, entries);
    var parts := Submissions(entries) + [""];
    assert forall k :: 0 <= k < |parts| ==> '\n' !in parts[k] by {
      forall k | 0 <= k < |parts| ensures '\n' !in parts[k] {
        if k < |Submissions(entries)| {
          assert parts[k] in Submissions(entries);
        }
      }
    }
    SplitJoin(parts, '\n');
  }
}
