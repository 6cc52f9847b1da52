/**
 * The chart pipeline of generate_plots.py: labelling the insights files
 * with synthetic years (`create_json_files_list`), turning one file into a
 * record (`analyze_json_file`), and collecting one company's records
 * (`create_plots`).
 */
module Plots {
  import opened Common
  import opened Text
  import Paths
  import opened Services
  import opened Metrics

  /** One triple `(root, dirs, files)` of `os.walk`; the sub-directory names are unused. */
  datatype WalkEntry = WalkEntry(root: string, files: seq<string>)

  /** One tuple `(json_file_path, year, company_name)` of the labelled list. */
  datatype JsonFileRef = JsonFileRef(path: string, year: int, company: string)

  /** The year the counter starts from in every walked directory. */
  const FirstYear: int := 2023

  predicate IsJsonName(file: string) {
    EndsWith(file, ".json")
  }

  /**
   * The `.json` names of a listing, in listing order: each `.json` name as
   * often as the listing has it, and nothing else.
   */
  function JsonNames(files: seq<string>): (r: seq<string>)
    ensures |r| <= |files|
    ensures forall k :: 0 <= k < |r| ==> IsJsonName(r[k])
    ensures forall n :: multiset(r)[n] == if IsJsonName(n) then multiset(files)[n] else 0
    decreases |files|
  {
    if |files| == 0 then []
    else
      assert files == [files[0]] + files[1..];
      if IsJsonName(files[0]) then [files[0]] + JsonNames(files[1..])
      else JsonNames(files[1..])
  }

  /** The inner loop of `create_json_files_list` over one directory, from counter `year`. */
  function DirJsonFiles(root: string, files: seq<string>, year: int): seq<JsonFileRef>
    decreases |files|
  {
    if |files| == 0 then []
    else if IsJsonName(files[0]) then
      [JsonFileRef(Paths.Join(root, files[0]), year, Paths.Basename(root))] + DirJsonFiles(root, files[1..], year - 1)
    else DirJsonFiles(root, files[1..], year)
  }

  /** `create_json_files_list`: the directories in walk order, the counter restarting in each. */
  function JsonFilesList(walk: seq<WalkEntry>): seq<JsonFileRef>
    decreases |walk|
  {
    if |walk| == 0 then []
    else DirJsonFiles(walk[0].root, walk[0].files, FirstYear) + JsonFilesList(walk[1..])
  }

  /** The `.json` names of a directory labelled one after the other, counting down from `year`. */
  function LabelNames(root: string, names: seq<string>, year: int): (r: seq<JsonFileRef>)
    ensures |r| == |names|
    decreases |names|
  {
    if |names| == 0 then []
    else [JsonFileRef(Paths.Join(root, names[0]), year, Paths.Basename(root))] + LabelNames(root, names[1..], year - 1)
  }

  /** The inner loop is: keep the `.json` names, then label them in order. */
  lemma {:induction false} DirJsonFilesIsLabelNames(root: string, files: seq<string>, year: int)
    ensures DirJsonFiles(root, files, year) == LabelNames(root, JsonNames(files), year)
    decreases |files|
  {
    if |files| > 0 {
      if IsJsonName(files[0]) {
        DirJsonFilesIsLabelNames(root, files[1..], year - 1);
        assert ([files[0]] + JsonNames(files[1..]))[1..] == JsonNames(files[1..]);
      } else {
        DirJsonFilesIsLabelNames(root, files[1..], year);
      }
    }
  }

  /** The k-th labelled name gets `year - k`. */
  lemma {:induction false} LabelNamesAt(root: string, names: seq<string>, year: int)
    ensures forall k :: 0 <= k < |names| ==>
      LabelNames(root, names, year)[k] == JsonFileRef(Paths.Join(root, names[k]), year - k, Paths.Basename(root))
    decreases |names|
  {
    if |names| > 0 {
      var rest := LabelNames(root, names[1..], year - 1);
      LabelNamesAt(root, names[1..], year - 1);
      var all := LabelNames(root, names, year);
      var dir := Paths.Basename(root);
      assert all == [JsonFileRef(Paths.Join(root, names[0]), year, dir)] + rest;
      forall k | 0 <= k < |names|
        ensures all[k] == JsonFileRef(Paths.Join(root, names[k]), year - k, dir)
      {
        if k > 0 {
          assert all[k] == rest[k - 1];
          assert names[1..][k - 1] == names[k];
        }
      }
    }
  }

  /**
   * The k-th `.json` file of a directory is labelled `year - k`, with its
   * joined path and the directory's basename; other files take no label.
   */
  lemma DirJsonFilesLabels(root: string, files: seq<string>, year: int)
    ensures |DirJsonFiles(root, files, year)| == |JsonNames(files)|
    ensures forall k :: 0 <= k < |JsonNames(files)| ==>
      DirJsonFiles(root, files, year)[k] == JsonFileRef(Paths.Join(root, JsonNames(files)[k]), year - k, Paths.Basename(root))
  {
    DirJsonFilesIsLabelNames(root, files, year);
    LabelNamesAt(root, JsonNames(files), year);
  }

  /** The labelled list of a longer walk extends the list of the shorter one. */
  lemma {:induction false} JsonFilesListAppend(a: seq<WalkEntry>, b: seq<WalkEntry>)
    ensures JsonFilesList(a + b) == JsonFilesList(a) + JsonFilesList(b)
    decreases |a|
  {
    if |a| == 0 {
      assert a + b == b;
    } else {
      assert (a + b)[0] == a[0] && (a + b)[1..] == a[1..] + b;
      JsonFilesListAppend(a[1..], b);
    }
  }

  /** One tuple per `.json` file of the walk. */
  function JsonCount(walk: seq<WalkEntry>): nat
    decreases |walk|
  {
    if |walk| == 0 then 0 else |JsonNames(walk[0].files)| + JsonCount(walk[1..])
  }

  lemma {:induction false} JsonFilesListLength(walk: seq<WalkEntry>)
    ensures |JsonFilesList(walk)| == JsonCount(walk)
    decreases |walk|
  {
    if |walk| > 0 {
      DirJsonFilesLabels(walk[0].root, walk[0].files, FirstYear);
      JsonFilesListLength(walk[1..]);
    }
  }

  /**
   * The dictionary `analyze_json_file` returns. Revenue and net income are
   * always present; the other two may be `None`.
   */
  datatype Record = Record(year: int, revenue: real, netIncome: real, taxRate: Option<real>, foreignIncome: Option<real>)

  /** The metrics a record was made from. */
  function RecordMetrics(r: Record): Metrics {
    Metrics(Some(r.revenue), Some(r.netIncome), r.taxRate, r.foreignIncome)
  }

  /** The final `if revenue is not None and net_income is not None` of `analyze_json_file`. */
  function ToRecord(year: int, m: Metrics): (r: Option<Record>)
    ensures r.Some? <==> m.revenue.Some? && m.netIncome.Some?
    ensures r.Some? ==> r.value.year == year && RecordMetrics(r.value) == m
  {
    if m.revenue.Some? && m.netIncome.Some? then
      Some(Record(year, m.revenue.value, m.netIncome.value, m.taxRate, m.foreignIncome))
    else None
  }

  /**
   * `analyze_json_file`: load the document, have the model summarise it,
   * strip the reply, extract the metrics. Every failure on the way raises.
   */
  function AnalyzeJsonFile(svc: Services, path: string, year: int): (r: Result<Option<Record>>)
    ensures svc.loadFile(path).None? ==> r == Err(UnreadableJson(path))
    ensures svc.loadFile(path).Some? && svc.complete(MetricsPrompt(svc.loadFile(path).value)).None? ==> r == Err(CompletionFailed)
    ensures svc.loadFile(path).Some? && svc.complete(MetricsPrompt(svc.loadFile(path).value)).Some? ==>
      var m := ExtractMetrics(Strip(svc.complete(MetricsPrompt(svc.loadFile(path).value)).value), svc.parseFloat);
      (m.Err? ==> r == Err(m.error)) && (m.Ok? ==> r.Ok?)
    ensures r.Ok? && r.value.Some? ==> r.value.value.year == year
  {
    match svc.loadFile(path)
    case None => Err(UnreadableJson(path))
    case Some(data) =>
      match svc.complete(MetricsPrompt(data))
      case None => Err(CompletionFailed)
      case Some(reply) =>
        match ExtractMetrics(Strip(reply), svc.parseFloat)
        case Err(e) => Err(e)
        case Ok(m) => Ok(ToRecord(year, m))
  }

  /** An analysed file gives a record exactly when its summary yields both revenue and net income. */
  lemma AnalyzeJsonFileRecord(svc: Services, path: string, year: int, data: Json, reply: string)
    requires svc.loadFile(path) == Some(data) && svc.complete(MetricsPrompt(data)) == Some(reply)
    requires ExtractMetrics(Strip(reply), svc.parseFloat).Ok?
    ensures var m := ExtractMetrics(Strip(reply), svc.parseFloat).value;
      AnalyzeJsonFile(svc, path, year) == Ok(ToRecord(year, m))
    ensures AnalyzeJsonFile(svc, path, year).value.Some? <==>
      var m := ExtractMetrics(Strip(reply), svc.parseFloat).value;
      m.revenue.Some? && m.netIncome.Some?
  {
  }

  /**
   * A reply with a keyword line but no colon on it makes `extract_metrics`
   * raise, and `analyze_json_file` raises with it.
   */
  lemma AnalyzeJsonFileCrashes(svc: Services, path: string, year: int, data: Json, reply: string)
    requires svc.loadFile(path) == Some(data) && svc.complete(MetricsPrompt(data)) == Some(reply)
    ensures AnalyzeJsonFile(svc, path, year).Err? <==>
      exists k :: 0 <= k < |Split(Strip(reply), '\n')| && Crashes(Split(Strip(reply), '\n')[k])
  {
    ExtractMetricsFails(Strip(reply), svc.parseFloat);
  }

  /** `analyze_json_file` as a function of one labelled file. */
  function Analyzer(svc: Services): JsonFileRef -> Result<Option<Record>> {
    (ref: JsonFileRef) => AnalyzeJsonFile(svc, ref.path, ref.year)
  }

  /**
   * The aggregation loop of `create_plots`: the ticker's files in order,
   * each analysed with `analyze`, the records kept and the `None`s dropped.
   */
  function CollectMetrics(analyze: JsonFileRef -> Result<Option<Record>>, refs: seq<JsonFileRef>, ticker: string): Result<seq<Record>>
    decreases |refs|
  {
    if |refs| == 0 then Ok([])
    else if refs[0].company != ticker then CollectMetrics(analyze, refs[1..], ticker)
    else
      match analyze(refs[0])
      case Err(e) => Err(e)
      case Ok(rec) =>
        match CollectMetrics(analyze, refs[1..], ticker)
        case Err(e) => Err(e)
        case Ok(rest) => Ok((if rec.Some? then [rec.value] else []) + rest)
  }

  /** Collecting over a longer list extends the shorter list's records; the first failure wins. */
  lemma {:induction false} CollectAppend(analyze: JsonFileRef -> Result<Option<Record>>, a: seq<JsonFileRef>, b: seq<JsonFileRef>, ticker: string)
    ensures CollectMetrics(analyze, a + b, ticker) ==
      match CollectMetrics(analyze, a, ticker)
      case Err(e) => Err(e)
      case Ok(x) =>
        match CollectMetrics(analyze, b, ticker)
        case Err(e) => Err(e)
        case Ok(y) => Ok(x + y)
    decreases |a|
  {
    if |a| == 0 {
      assert a + b == b;
      if CollectMetrics(analyze, b, ticker).Ok? {
        assert [] + CollectMetrics(analyze, b, ticker).value == CollectMetrics(analyze, b, ticker).value;
      }
    } else {
      assert (a + b)[0] == a[0] && (a + b)[1..] == a[1..] + b;
      CollectAppend(analyze, a[1..], b, ticker);
      if a[0].company == ticker {
        var head := analyze(a[0]);
        if head.Ok? && CollectMetrics(analyze, a[1..], ticker).Ok? && CollectMetrics(analyze, b, ticker).Ok? {
          var h := if head.value.Some? then [head.value.value] else [];
          var x, y := CollectMetrics(analyze, a[1..], ticker).value, CollectMetrics(analyze, b, ticker).value;
          assert h + (x + y) == (h + x) + y;
        }
      }
    }
  }

  /** The files of the ticker, in order. */
  function OfCompany(refs: seq<JsonFileRef>, ticker: string): (r: seq<JsonFileRef>)
    ensures forall k :: 0 <= k < |r| ==> r[k].company == ticker && r[k] in refs
    decreases |refs|
  {
    if |refs| == 0 then []
    else if refs[0].company == ticker then [refs[0]] + OfCompany(refs[1..], ticker)
    else OfCompany(refs[1..], ticker)
  }

  /** Files of other companies are never opened: only the ticker's files matter. */
  lemma {:induction false} CollectOnlyCompany(analyze: JsonFileRef -> Result<Option<Record>>, refs: seq<JsonFileRef>, ticker: string)
    ensures CollectMetrics(analyze, refs, ticker) == CollectMetrics(analyze, OfCompany(refs, ticker), ticker)
    decreases |refs|
  {
    if |refs| > 0 {
      CollectOnlyCompany(analyze, refs[1..], ticker);
      if refs[0].company == ticker {
        var r := OfCompany(refs, ticker);
        assert r[0] == refs[0] && r[1..] == OfCompany(refs[1..], ticker);
      }
    }
  }

  /** `analyze` labels every record it makes with the year of the file it read. */
  predicate KeepsYear(analyze: JsonFileRef -> Result<Option<Record>>, refs: seq<JsonFileRef>) {
    forall k :: 0 <= k < |refs| && analyze(refs[k]).Ok? && analyze(refs[k]).value.Some? ==>
      analyze(refs[k]).value.value.year == refs[k].year
  }

  /** Each collected record carries the year of one of the ticker's files. */
  lemma {:induction false} CollectYears(analyze: JsonFileRef -> Result<Option<Record>>, refs: seq<JsonFileRef>, ticker: string)
    requires KeepsYear(analyze, refs)
    requires CollectMetrics(analyze, refs, ticker).Ok?
    ensures |CollectMetrics(analyze, refs, ticker).value| <= |OfCompany(refs, ticker)|
    ensures forall rec :: rec in CollectMetrics(analyze, refs, ticker).value ==>
      exists k :: 0 <= k < |refs| && refs[k].company == ticker && refs[k].year == rec.year
    decreases |refs|
  {
    if |refs| > 0 {
      CollectYears(analyze, refs[1..], ticker);
      var rest := CollectMetrics(analyze, refs[1..], ticker).value;
      forall rec | rec in rest
        ensures exists k :: 0 <= k < |refs| && refs[k].company == ticker && refs[k].year == rec.year
      {
        var k :| 0 <= k < |refs[1..]| && refs[1..][k].company == ticker && refs[1..][k].year == rec.year;
        assert refs[k + 1] == refs[1..][k];
      }
      if refs[0].company == ticker {
        assert OfCompany(refs, ticker) == [refs[0]] + OfCompany(refs[1..], ticker);
      }
    }
  }

  /** Every plotted record carries the synthetic year of one of the ticker's files. */
  lemma PlottedYears(svc: Services, ticker: string, walk: seq<WalkEntry>)
    requires CreatePlots(svc, ticker, walk).Ok? && CreatePlots(svc, ticker, walk).value.Plotted?
    ensures forall rec :: rec in CreatePlots(svc, ticker, walk).value.records ==>
      exists ref :: ref in JsonFilesList(walk) && ref.company == ticker && ref.year == rec.year
  {
    var refs := JsonFilesList(walk);
    assert KeepsYear(Analyzer(svc), refs) by {
      forall k | 0 <= k < |refs| && Analyzer(svc)(refs[k]).Ok? && Analyzer(svc)(refs[k]).value.Some?
        ensures Analyzer(svc)(refs[k]).value.value.year == refs[k].year
      {
        assert Analyzer(svc)(refs[k]) == AnalyzeJsonFile(svc, refs[k].path, refs[k].year);
      }
    }
    CollectYears(Analyzer(svc), refs, ticker);
  }

  /** What `create_plots` ends with: a plot of the records, or the "no metrics" message. */
  datatype PlotOutcome = Plotted(records: seq<Record>) | NothingToPlot

  /**
   * `create_plots(ticker)`, given the walk of the ticker's insights folder:
   * label the files, collect the ticker's records, plot when there are any.
   */
  function CreatePlots(svc: Services, ticker: string, walk: seq<WalkEntry>): (r: Result<PlotOutcome>)
    ensures r.Err? <==> CollectMetrics(Analyzer(svc), JsonFilesList(walk), ticker).Err?
    ensures r.Ok? ==> (r.value.Plotted? <==> |CollectMetrics(Analyzer(svc), JsonFilesList(walk), ticker).value| > 0)
    ensures r.Ok? && r.value.Plotted? ==> r.value.records == CollectMetrics(Analyzer(svc), JsonFilesList(walk), ticker).value
  {
    match CollectMetrics(Analyzer(svc), JsonFilesList(walk), ticker)
    case Err(e) => Err(e)
    case Ok(records) => Ok(if |records| > 0 then Plotted(records) else NothingToPlot)
  }

  /** An empty walk (the folder does not exist) plots nothing and raises nothing. */
  lemma EmptyWalkPlotsNothing(svc: Services, ticker: string)
    ensures CreatePlots(svc, ticker, []) == Ok(NothingToPlot)
  {
  }

  /**
   * The walk's first directory is the folder `insights/<ticker>` itself, so
   * its files carry the ticker as company name when the ticker is a plain
   * name.
   */
  lemma TopFolderIsTicker(base: string, ticker: string, files: seq<string>)
    requires |ticker| > 0 && '/' !in ticker
    ensures forall ref :: ref in DirJsonFiles(Paths.Join(base, ticker), files, FirstYear) ==> ref.company == ticker
  {
    var root := Paths.Join(base, ticker);
    Paths.BasenameJoin(base, ticker);
    DirJsonFilesLabels(root, files, FirstYear);
  }
}
