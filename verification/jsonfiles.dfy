/**
 * generate_json_files.py: one period's corpus sent to the model and the
 * reply decoded (`analyze_company`), the decoded document written under
 * `insights/` (`save_insights_to_json`), and the walk over a company's
 * period folders (`process_filings`). The written files are a map from
 * path to document.
 */
module JsonFiles {
  import opened Common
  import opened Text
  import Paths
  import Lex
  import opened Services
  import opened Filings

  /** The form folder under each ticker. */
  const FormFolder: string := "10-K"

  /** The relative folder the insights are written under. */
  const InsightsRoot: string := "insights"

  /** What `save_insights_to_json` appends to the period name to form the file name. */
  const InsightsSuffix: string := "_insights.json"

  /** The written insights files: path to document. */
  type Store = map<string, Json>

  /** The triple `analyze_company` returns. */
  datatype Insights = Insights(company: string, period: string, data: Json)

  /** `os.path.basename(os.path.dirname(company_folder))`. */
  function CompanyName(companyFolder: string): string {
    Paths.Basename(Paths.Dirname(companyFolder))
  }

  /** The listing loop of `analyze_company` over `company_folder/period`. */
  function PeriodReport(companyFolder: string, period: string, node: Node): (r: Result<string>)
    ensures node.File? ==> r == Err(NotADirectory(Paths.Join(companyFolder, period)))
    ensures node.Dir? ==> r == Corpus(Paths.Join(companyFolder, period), node.entries)
  {
    match node
    case File(_) => Err(NotADirectory(Paths.Join(companyFolder, period)))
    case Dir(entries) => Corpus(Paths.Join(companyFolder, period), entries)
  }

  /** `json.loads(json_data)` with the `{}` fallback of the `except` block. */
  function DecodeOrEmpty(svc: Services, jsonData: string): (r: Json)
    ensures svc.loads(jsonData).Some? ==> r == svc.loads(jsonData).value
    ensures svc.loads(jsonData).None? ==> r == EmptyObject
  {
    match svc.loads(jsonData)
    case Some(v) => v
    case None => EmptyObject
  }

  /**
   * `analyze_company(company_folder, period)`. A reply that does not
   * decode falls back to `{}`; a completion call that raises leaves
   * `json_data` unbound, and the `except` block raises on it.
   */
  function AnalyzeCompany(svc: Services, companyFolder: string, period: string, node: Node): (r: Result<Insights>)
    ensures PeriodReport(companyFolder, period, node).Err? ==> r == Err(PeriodReport(companyFolder, period, node).error)
    ensures PeriodReport(companyFolder, period, node).Ok? ==>
      var reply := svc.complete(ExtractionPrompt(PeriodReport(companyFolder, period, node).value));
      (reply.None? <==> r == Err(UnboundJsonData)) && (reply.Some? ==> r.Ok?)
    ensures r.Ok? ==> r.value.company == CompanyName(companyFolder) && r.value.period == period
  {
    match PeriodReport(companyFolder, period, node)
    case Err(e) => Err(e)
    case Ok(report) =>
      match svc.complete(ExtractionPrompt(report))
      case None => Err(UnboundJsonData)
      case Some(reply) => Ok(Insights(CompanyName(companyFolder), period, DecodeOrEmpty(svc, Strip(reply))))
  }

  /** A reply that decodes is saved as decoded, whatever its shape. */
  lemma DecodedPassesThrough(svc: Services, companyFolder: string, period: string, node: Node, reply: string, v: Json)
    requires PeriodReport(companyFolder, period, node).Ok?
    requires svc.complete(ExtractionPrompt(PeriodReport(companyFolder, period, node).value)) == Some(reply)
    requires svc.loads(Strip(reply)) == Some(v)
    ensures AnalyzeCompany(svc, companyFolder, period, node) == Ok(Insights(CompanyName(companyFolder), period, v))
  {
  }

  /** A reply that does not decode gives `{}` as the insights. */
  lemma MalformedReplyGivesEmpty(svc: Services, companyFolder: string, period: string, node: Node, reply: string)
    requires PeriodReport(companyFolder, period, node).Ok?
    requires svc.complete(ExtractionPrompt(PeriodReport(companyFolder, period, node).value)) == Some(reply)
    requires svc.loads(Strip(reply)).None?
    ensures AnalyzeCompany(svc, companyFolder, period, node) == Ok(Insights(CompanyName(companyFolder), period, EmptyObject))
  {
  }

  /** The file name `insights/<company>/<period>_insights.json`. */
  function InsightsPath(company: string, period: string): string {
    Paths.Join(Paths.Join(InsightsRoot, company), period + InsightsSuffix)
  }

  /** For plain names the path is the literal concatenation of its parts. */
  lemma InsightsPathShape(company: string, period: string)
    requires |company| > 0 && company[0] != '/' && company[|company| - 1] != '/'
    requires |period| == 0 || period[0] != '/'
    ensures InsightsPath(company, period) == InsightsRoot + "/" + company + "/" + period + InsightsSuffix
  {
    var file := period + InsightsSuffix;
    assert file[0] != '/' by {
      if |period| == 0 { assert file[0] == InsightsSuffix[0]; } else { assert file[0] == period[0]; }
    }
    Paths.JoinTwoNames(InsightsRoot, company, file);
  }

  /** Different plain company or period names never share a file. */
  lemma InsightsPathInjective(c1: string, p1: string, c2: string, p2: string)
    requires |c1| > 0 && '/' !in c1 && '/' !in p1
    requires |c2| > 0 && '/' !in c2 && '/' !in p2
    requires InsightsPath(c1, p1) == InsightsPath(c2, p2)
    ensures c1 == c2 && p1 == p2
  {
    var f1, f2 := p1 + InsightsSuffix, p2 + InsightsSuffix;
    NoSlashAppend(p1, InsightsSuffix);
    NoSlashAppend(p2, InsightsSuffix);
    Paths.JoinTwoInjective(InsightsRoot, c1, f1, c2, f2);
    assert p1 == f1[..|p1|] && p2 == f2[..|p2|];
  }

  /**
   * For one plain company, different period names never share a file, even
   * names with slashes: a relative file lands under `insights/<company>/`,
   * an absolute one does not.
   */
  lemma InsightsPathPeriodInjective(company: string, p1: string, p2: string)
    requires |company| > 0 && '/' !in company
    requires InsightsPath(company, p1) == InsightsPath(company, p2)
    ensures p1 == p2
  {
    var dir := Paths.Join(InsightsRoot, company);
    assert company[0] != '/';
    assert dir == InsightsRoot + "/" + company;
    assert dir[0] == 'i';
    var f1, f2 := p1 + InsightsSuffix, p2 + InsightsSuffix;
    if f1[0] == '/' && f2[0] != '/' {
      assert false;
    } else if f1[0] != '/' && f2[0] == '/' {
      assert false;
    } else if f1[0] != '/' {
      var q := dir + "/";
      assert q + f1 == q + f2;
      assert f1 == (q + f1)[|q|..] && f2 == (q + f2)[|q|..];
    }
    assert |p1| == |p2|;
    assert p1 == f1[..|p1|] && p2 == f2[..|p2|];
  }

  lemma NoSlashAppend(a: string, b: string)
    requires '/' !in a && '/' !in b
    ensures '/' !in a + b
  {
    assert forall k :: 0 <= k < |a + b| ==> (a + b)[k] == if k < |a| then a[k] else b[k - |a|];
  }

  /**
   * `save_insights_to_json`: the file is opened with mode 'w', so the
   * document replaces whatever the path held.
   */
  function SaveInsights(store: Store, ins: Insights): (r: Store)
    ensures r.Keys == store.Keys + {InsightsPath(ins.company, ins.period)}
    ensures r[InsightsPath(ins.company, ins.period)] == ins.data
    ensures forall p :: p in store && p != InsightsPath(ins.company, ins.period) ==> r[p] == store[p]
  {
    store[InsightsPath(ins.company, ins.period) := ins.data]
  }

  /** Saving the same company and period twice leaves only the second document. */
  lemma SaveOverwrites(store: Store, a: Insights, b: Insights)
    requires a.company == b.company && a.period == b.period
    ensures SaveInsights(SaveInsights(store, a), b) == SaveInsights(store, b)
  {
  }

  /** The names of a listing, in listing order. */
  function Names(entries: seq<Entry>): (r: seq<string>)
    ensures |r| == |entries|
    ensures forall k :: 0 <= k < |entries| ==> r[k] == entries[k].name
    decreases |entries|
  {
    if |entries| == 0 then [] else [entries[0].name] + Names(entries[1..])
  }

  /** `os.path.isdir(os.path.join(company_folder, name))`. */
  predicate IsPeriodDir(entries: seq<Entry>, name: string) {
    Lookup(entries, name).Some? && Lookup(entries, name).value.Dir?
  }

  /** The state of `process_filings` when it returns or raises. */
  datatype Run = Run(store: Store, saved: seq<string>, failure: Option<PipelineError>)

  /**
   * The `for year_folder in year_folders` loop: every name that is a
   * directory is analysed and saved, other names are skipped, and the first
   * failure ends the run with what was saved so far.
   */
  function VisitPeriods(analyze: (string, Node) -> Result<Insights>, entries: seq<Entry>, names: seq<string>, store: Store, saved: seq<string>): Run
    decreases |names|
  {
    if |names| == 0 then Run(store, saved, None)
    else if !IsPeriodDir(entries, names[0]) then VisitPeriods(analyze, entries, names[1..], store, saved)
    else
      match analyze(names[0], Lookup(entries, names[0]).value)
      case Err(e) => Run(store, saved, Some(e))
      case Ok(ins) => VisitPeriods(analyze, entries, names[1..], SaveInsights(store, ins), saved + [names[0]])
  }

  /** `analyze_company(company_folder, name)` as a function of a period's name and node. */
  function Analyzer(svc: Services, companyFolder: string): (string, Node) -> Result<Insights> {
    (period: string, node: Node) => AnalyzeCompany(svc, companyFolder, period, node)
  }

  /** `analyze` names every result after `company` and the period it was given. */
  ghost predicate Labels(analyze: (string, Node) -> Result<Insights>, company: string) {
    forall period, node :: analyze(period, node).Ok? ==>
      analyze(period, node).value.company == company && analyze(period, node).value.period == period
  }

  lemma AnalyzerLabels(svc: Services, companyFolder: string)
    ensures Labels(Analyzer(svc, companyFolder), CompanyName(companyFolder))
  {
    forall period, node | Analyzer(svc, companyFolder)(period, node).Ok?
      ensures Analyzer(svc, companyFolder)(period, node).value.company == CompanyName(companyFolder)
      ensures Analyzer(svc, companyFolder)(period, node).value.period == period
    {
      assert Analyzer(svc, companyFolder)(period, node) == AnalyzeCompany(svc, companyFolder, period, node);
    }
  }

  /** `os.path.join(base_folder, ticker, '10-K')`. */
  function CompanyFolder(base: string, ticker: string): string {
    Paths.Join(Paths.Join(base, ticker), FormFolder)
  }

  /**
   * `process_filings(ticker)`, given what sits at the company folder:
   * nothing (return at once), a file (`os.listdir` raises), or a directory
   * whose names are visited in descending order.
   */
  function ProcessFilings(svc: Services, base: string, ticker: string, companyDir: Option<Node>, store: Store): (r: Run)
    ensures companyDir.None? ==> r == Run(store, [], None)
    ensures companyDir.Some? && companyDir.value.File? ==> r == Run(store, [], Some(NotADirectory(CompanyFolder(base, ticker))))
  {
    match companyDir
    case None => Run(store, [], None)
    case Some(File(_)) => Run(store, [], Some(NotADirectory(CompanyFolder(base, ticker))))
    case Some(Dir(entries)) =>
      VisitPeriods(Analyzer(svc, CompanyFolder(base, ticker)), entries, Lex.SortDescending(Names(entries)), store, [])
  }

  // ----- The loop as a store-independent plan of saves -----

  /** The documents saved, the names saved and the failure of the loop, none of which depend on the store. */
  datatype Plan = Plan(saves: seq<Insights>, saved: seq<string>, failure: Option<PipelineError>)

  function PlanPeriods(analyze: (string, Node) -> Result<Insights>, entries: seq<Entry>, names: seq<string>): (p: Plan)
    ensures |p.saves| == |p.saved|
    decreases |names|
  {
    if |names| == 0 then Plan([], [], None)
    else if !IsPeriodDir(entries, names[0]) then PlanPeriods(analyze, entries, names[1..])
    else
      match analyze(names[0], Lookup(entries, names[0]).value)
      case Err(e) => Plan([], [], Some(e))
      case Ok(ins) =>
        var rest := PlanPeriods(analyze, entries, names[1..]);
        Plan([ins] + rest.saves, [names[0]] + rest.saved, rest.failure)
  }

  /** Each save in order; a later save to a path replaces an earlier one. */
  function ApplySaves(store: Store, saves: seq<Insights>): Store
    decreases |saves|
  {
    if |saves| == 0 then store else ApplySaves(SaveInsights(store, saves[0]), saves[1..])
  }

  /** The document the last save to `path` puts there, if any save does. */
  function LastSave(saves: seq<Insights>, path: string): Option<Json>
    decreases |saves|
  {
    if |saves| == 0 then None
    else match LastSave(saves[1..], path)
      case Some(v) => Some(v)
      case None => if InsightsPath(saves[0].company, saves[0].period) == path then Some(saves[0].data) else None
  }

  /** A path holds its last write, or what it held before when nothing saves it. */
  lemma {:induction false} ApplySavesAt(store: Store, saves: seq<Insights>, path: string)
    ensures path in ApplySaves(store, saves) <==> LastSave(saves, path).Some? || path in store
    ensures LastSave(saves, path).Some? ==> ApplySaves(store, saves)[path] == LastSave(saves, path).value
    ensures LastSave(saves, path).None? && path in store ==> ApplySaves(store, saves)[path] == store[path]
    decreases |saves|
  {
    if |saves| > 0 {
      ApplySavesAt(SaveInsights(store, saves[0]), saves[1..], path);
    }
  }

  /** Applying the same saves a second time changes nothing. */
  lemma ApplySavesTwice(store: Store, saves: seq<Insights>)
    ensures ApplySaves(ApplySaves(store, saves), saves) == ApplySaves(store, saves)
  {
    var once := ApplySaves(store, saves);
    var twice := ApplySaves(once, saves);
    forall path
      ensures path in twice <==> path in once
      ensures path in once ==> twice[path] == once[path]
    {
      ApplySavesAt(store, saves, path);
      ApplySavesAt(once, saves, path);
    }
    assert twice.Keys == once.Keys;
  }

  /** The loop is the plan applied to the store it starts from. */
  lemma {:induction false} VisitIsPlan(analyze: (string, Node) -> Result<Insights>, entries: seq<Entry>, names: seq<string>, store: Store, saved: seq<string>)
    ensures var p := PlanPeriods(analyze, entries, names);
      VisitPeriods(analyze, entries, names, store, saved) == Run(ApplySaves(store, p.saves), saved + p.saved, p.failure)
    decreases |names|
  {
    if |names| == 0 {
      assert saved + [] == saved;
    } else if !IsPeriodDir(entries, names[0]) {
      VisitIsPlan(analyze, entries, names[1..], store, saved);
    } else {
      match analyze(names[0], Lookup(entries, names[0]).value)
      case Err(e) =>
        assert saved + [] == saved;
      case Ok(ins) =>
        var store' := SaveInsights(store, ins);
        VisitIsPlan(analyze, entries, names[1..], store', saved + [names[0]]);
        var rest := PlanPeriods(analyze, entries, names[1..]);
        assert ([ins] + rest.saves)[0] == ins && ([ins] + rest.saves)[1..] == rest.saves;
        assert saved + [names[0]] + rest.saved == saved + ([names[0]] + rest.saved);
    }
  }

  /**
   * Running `process_filings` again with the same filings and the same
   * replies leaves the same files: every save oversaves its own path.
   */
  lemma ProcessFilingsRerun(svc: Services, base: string, ticker: string, companyDir: Option<Node>, store: Store)
    ensures var first := ProcessFilings(svc, base, ticker, companyDir, store);
      ProcessFilings(svc, base, ticker, companyDir, first.store) == first
  {
    if companyDir.Some? && companyDir.value.Dir? {
      var folder := CompanyFolder(base, ticker);
      var entries := companyDir.value.entries;
      var names := Lex.SortDescending(Names(entries));
      var analyze := Analyzer(svc, folder);
      var p := PlanPeriods(analyze, entries, names);
      VisitIsPlan(analyze, entries, names, store, []);
      VisitIsPlan(analyze, entries, names, ApplySaves(store, p.saves), []);
      ApplySavesTwice(store, p.saves);
    }
  }

  /** The period folders among `names`, in their order. */
  function PeriodDirs(entries: seq<Entry>, names: seq<string>): (r: seq<string>)
    ensures forall k :: 0 <= k < |r| ==> IsPeriodDir(entries, r[k]) && r[k] in names
    decreases |names|
  {
    if |names| == 0 then []
    else if IsPeriodDir(entries, names[0]) then [names[0]] + PeriodDirs(entries, names[1..])
    else PeriodDirs(entries, names[1..])
  }

  /** Without a failure the plan saves exactly the period folders, in the visiting order. */
  lemma {:induction false} PlanSavesPeriodDirs(analyze: (string, Node) -> Result<Insights>, entries: seq<Entry>, names: seq<string>)
    ensures var p := PlanPeriods(analyze, entries, names);
      p.failure.None? ==> p.saved == PeriodDirs(entries, names)
    ensures var p := PlanPeriods(analyze, entries, names);
      |p.saved| <= |PeriodDirs(entries, names)| && p.saved == PeriodDirs(entries, names)[..|p.saved|]
    decreases |names|
  {
    if |names| > 0 {
      PlanSavesPeriodDirs(analyze, entries, names[1..]);
    }
  }

  /** A subsequence of a descending sequence, taken in order, is descending. */
  lemma {:induction false} PeriodDirsDescending(entries: seq<Entry>, names: seq<string>)
    requires Lex.Descending(names)
    ensures Lex.Descending(PeriodDirs(entries, names))
    decreases |names|
  {
    if |names| > 0 {
      Lex.DescendingTail(names);
      PeriodDirsDescending(entries, names[1..]);
      var r := PeriodDirs(entries, names);
      if IsPeriodDir(entries, names[0]) {
        forall i, j | 0 <= i < j < |r| ensures Lex.LexLe(r[j], r[i]) {
          if i == 0 {
            var q := r[j];
            assert q in names[1..];
            var k :| 0 <= k < |names[1..]| && names[1..][k] == q;
            assert names[k + 1] == q;
          } else {
            assert r[i] == r[1..][i - 1] && r[j] == r[1..][j - 1];
          }
        }
      }
    }
  }

  /** A prefix of a descending sequence is descending. */
  lemma DescendingPrefix(s: seq<string>, n: nat)
    requires Lex.Descending(s) && n <= |s|
    ensures Lex.Descending(s[..n])
  {
    forall i, j | 0 <= i < j < n ensures Lex.LexLe(s[..n][j], s[..n][i]) {
      assert s[..n][i] == s[i] && s[..n][j] == s[j];
    }
  }

  /**
   * The loop over descending names with a labelling analyser: the saved
   * names are descending, they are all the period folders when nothing
   * fails, and each saved name's file is in the store. For a plain company
   * name that file holds what the analyser returned for that period.
   */
  lemma VisitSaves(analyze: (string, Node) -> Result<Insights>, entries: seq<Entry>, names: seq<string>, store: Store, company: string)
    requires Labels(analyze, company) && Lex.Descending(names)
    ensures var r := VisitPeriods(analyze, entries, names, store, []);
      && Lex.Descending(r.saved)
      && (r.failure.None? ==> r.saved == PeriodDirs(entries, names))
      && (forall k :: 0 <= k < |r.saved| ==> InsightsPath(company, r.saved[k]) in r.store)
      && (|company| > 0 && '/' !in company ==> StoresAnalyses(analyze, entries, company, r))
  {
    var p := PlanPeriods(analyze, entries, names);
    VisitIsPlan(analyze, entries, names, store, []);
    assert [] + p.saved == p.saved;
    assert VisitPeriods(analyze, entries, names, store, []) == Run(ApplySaves(store, p.saves), p.saved, p.failure);
    PlanOrder(analyze, entries, names);
    PlanPresent(analyze, entries, names, store, company);
    if |company| > 0 && '/' !in company {
      StoredIsAnalysis(analyze, entries, names, store, company);
    }
  }

  /** Over descending names the saved names are descending, and all period folders when nothing fails. */
  lemma PlanOrder(analyze: (string, Node) -> Result<Insights>, entries: seq<Entry>, names: seq<string>)
    requires Lex.Descending(names)
    ensures var p := PlanPeriods(analyze, entries, names);
      Lex.Descending(p.saved) && (p.failure.None? ==> p.saved == PeriodDirs(entries, names))
  {
    var p := PlanPeriods(analyze, entries, names);
    PlanSavesPeriodDirs(analyze, entries, names);
    PeriodDirsDescending(entries, names);
    DescendingPrefix(PeriodDirs(entries, names), |p.saved|);
  }

  /** Under a labelling analyser each saved period's file is in the store after the saves. */
  lemma PlanPresent(analyze: (string, Node) -> Result<Insights>, entries: seq<Entry>, names: seq<string>, store: Store, company: string)
    requires Labels(analyze, company)
    ensures var p := PlanPeriods(analyze, entries, names);
      forall k :: 0 <= k < |p.saved| ==> InsightsPath(company, p.saved[k]) in ApplySaves(store, p.saves)
  {
    var p := PlanPeriods(analyze, entries, names);
    PlanAnalysis(analyze, entries, names);
    assert SavesAnalysed(analyze, entries, p);
    forall k | 0 <= k < |p.saved|
      ensures InsightsPath(company, p.saved[k]) in ApplySaves(store, p.saves)
    {
      assert analyze(p.saved[k], Lookup(entries, p.saved[k]).value) == Ok(p.saves[k]);
      SavedIsPresent(store, p.saves, k);
    }
  }

  /**
   * `process_filings` over a company directory: the period folders are
   * saved in descending name order, each to its own file named after the
   * ticker, and that file holds `analyze_company`'s document for the
   * period; without a failure every period folder is saved.
   */
  lemma ProcessFilingsSaves(svc: Services, base: string, ticker: string, entries: seq<Entry>, store: Store)
    requires |ticker| > 0 && '/' !in ticker
    ensures var r := ProcessFilings(svc, base, ticker, Some(Dir(entries)), store);
      && Lex.Descending(r.saved)
      && (r.failure.None? ==> multiset(r.saved) == multiset(PeriodDirs(entries, Names(entries))))
      && (forall k :: 0 <= k < |r.saved| ==>
            && InsightsPath(ticker, r.saved[k]) in r.store
            && IsPeriodDir(entries, r.saved[k])
            && AnalyzeCompany(svc, CompanyFolder(base, ticker), r.saved[k], Lookup(entries, r.saved[k]).value)
               == Ok(Insights(ticker, r.saved[k], r.store[InsightsPath(ticker, r.saved[k])])))
  {
    var folder := CompanyFolder(base, ticker);
    var names := Lex.SortDescending(Names(entries));
    var r := VisitPeriods(Analyzer(svc, folder), entries, names, store, []);
    ProcessFilingsVisits(svc, base, ticker, entries, store);
    AnalyzerStores(svc, folder, entries, ticker, r);
  }

  /** Over a company directory, `process_filings` is the labelled visit of its sorted names. */
  lemma ProcessFilingsVisits(svc: Services, base: string, ticker: string, entries: seq<Entry>, store: Store)
    requires |ticker| > 0 && '/' !in ticker
    ensures var r := VisitPeriods(Analyzer(svc, CompanyFolder(base, ticker)), entries, Lex.SortDescending(Names(entries)), store, []);
      && ProcessFilings(svc, base, ticker, Some(Dir(entries)), store) == r
      && Lex.Descending(r.saved)
      && (r.failure.None? ==> multiset(r.saved) == multiset(PeriodDirs(entries, Names(entries))))
      && StoresAnalyses(Analyzer(svc, CompanyFolder(base, ticker)), entries, ticker, r)
  {
    var folder := CompanyFolder(base, ticker);
    var names := Lex.SortDescending(Names(entries));
    var r := VisitPeriods(Analyzer(svc, folder), entries, names, store, []);
    Lex.SortDescendingCorrect(Names(entries));
    TickerLabels(svc, base, ticker);
    VisitSaves(Analyzer(svc, folder), entries, names, store, ticker);
    if r.failure.None? {
      PeriodDirsPermutes(entries, names, Names(entries));
    }
  }

  /** The analyser of `base/ticker/10-K` labels its results with the ticker. */
  lemma TickerLabels(svc: Services, base: string, ticker: string)
    requires |ticker| > 0 && '/' !in ticker
    ensures Labels(Analyzer(svc, CompanyFolder(base, ticker)), ticker)
  {
    Paths.FilingFolderNames(base, ticker, FormFolder);
    AnalyzerLabels(svc, CompanyFolder(base, ticker));
  }

  /** Stored analyses of `Analyzer` are `analyze_company`'s documents. */
  lemma AnalyzerStores(svc: Services, folder: string, entries: seq<Entry>, company: string, r: Run)
    requires StoresAnalyses(Analyzer(svc, folder), entries, company, r)
    ensures forall k :: 0 <= k < |r.saved| ==>
      && InsightsPath(company, r.saved[k]) in r.store
      && IsPeriodDir(entries, r.saved[k])
      && AnalyzeCompany(svc, folder, r.saved[k], Lookup(entries, r.saved[k]).value)
         == Ok(Insights(company, r.saved[k], r.store[InsightsPath(company, r.saved[k])]))
  {
    forall k | 0 <= k < |r.saved|
      ensures IsPeriodDir(entries, r.saved[k])
      ensures Analyzer(svc, folder)(r.saved[k], Lookup(entries, r.saved[k]).value)
        == AnalyzeCompany(svc, folder, r.saved[k], Lookup(entries, r.saved[k]).value)
    {
    }
  }

  /**
   * Each saved period's file is in the store and holds `analyze`'s
   * document for that period, labelled with the company and the period.
   */
  ghost predicate StoresAnalyses(analyze: (string, Node) -> Result<Insights>, entries: seq<Entry>, company: string, r: Run) {
    forall k :: 0 <= k < |r.saved| ==>
      && InsightsPath(company, r.saved[k]) in r.store
      && IsPeriodDir(entries, r.saved[k])
      && analyze(r.saved[k], Lookup(entries, r.saved[k]).value) == Ok(Insights(company, r.saved[k], r.store[InsightsPath(company, r.saved[k])]))
  }

  /** Each save is what the analyser returned for the period folder it names. */
  predicate SavesAnalysed(analyze: (string, Node) -> Result<Insights>, entries: seq<Entry>, p: Plan) {
    |p.saves| == |p.saved| &&
    forall k :: 0 <= k < |p.saved| ==>
      IsPeriodDir(entries, p.saved[k]) && analyze(p.saved[k], Lookup(entries, p.saved[k]).value) == Ok(p.saves[k])
  }

  lemma {:induction false} PlanAnalysis(analyze: (string, Node) -> Result<Insights>, entries: seq<Entry>, names: seq<string>)
    ensures SavesAnalysed(analyze, entries, PlanPeriods(analyze, entries, names))
    decreases |names|
  {
    if |names| > 0 {
      PlanAnalysis(analyze, entries, names[1..]);
      var rest := PlanPeriods(analyze, entries, names[1..]);
      var p := PlanPeriods(analyze, entries, names);
      if IsPeriodDir(entries, names[0]) && analyze(names[0], Lookup(entries, names[0]).value).Ok? {
        var ins := analyze(names[0], Lookup(entries, names[0]).value).value;
        assert p.saves == [ins] + rest.saves;
        assert p.saved == [names[0]] + rest.saved;
        forall k | 0 <= k < |p.saved|
          ensures IsPeriodDir(entries, p.saved[k]) && analyze(p.saved[k], Lookup(entries, p.saved[k]).value) == Ok(p.saves[k])
        {
          if k == 0 {
            assert p.saved[0] == names[0] && p.saves[0] == ins;
          } else {
            assert p.saves[k] == rest.saves[k - 1] && p.saved[k] == rest.saved[k - 1];
          }
        }
      }
    }
  }

  /**
   * Under a labelling analyser each save is the analyser's document for the
   * period it names, labelled with the company and that period.
   */
  lemma PlanLabels(analyze: (string, Node) -> Result<Insights>, entries: seq<Entry>, names: seq<string>, company: string)
    requires Labels(analyze, company)
    ensures var p := PlanPeriods(analyze, entries, names);
      forall k :: 0 <= k < |p.saved| ==>
        && p.saves[k].company == company && p.saves[k].period == p.saved[k]
        && IsPeriodDir(entries, p.saved[k])
        && analyze(p.saved[k], Lookup(entries, p.saved[k]).value) == Ok(p.saves[k])
  {
    var p := PlanPeriods(analyze, entries, names);
    PlanAnalysis(analyze, entries, names);
    forall k | 0 <= k < |p.saved|
      ensures p.saves[k].company == company && p.saves[k].period == p.saved[k]
      ensures IsPeriodDir(entries, p.saved[k])
      ensures analyze(p.saved[k], Lookup(entries, p.saved[k]).value) == Ok(p.saves[k])
    {
      assert analyze(p.saved[k], Lookup(entries, p.saved[k]).value) == Ok(p.saves[k]);
    }
  }

  /**
   * Under a labelling analyser for a plain company name, the file of each
   * saved period holds the analyser's document for that period: no other
   * period writes to the same file.
   */
  lemma StoredIsAnalysis(analyze: (string, Node) -> Result<Insights>, entries: seq<Entry>, names: seq<string>, store: Store, company: string)
    requires Labels(analyze, company) && |company| > 0 && '/' !in company
    ensures var p := PlanPeriods(analyze, entries, names);
      StoresAnalyses(analyze, entries, company, Run(ApplySaves(store, p.saves), p.saved, p.failure))
  {
    var p := PlanPeriods(analyze, entries, names);
    PlanAnalysis(analyze, entries, names);
    assert SavesAnalysed(analyze, entries, p);
    forall j | 0 <= j < |p.saved| ensures p.saves[j].company == company && p.saves[j].period == p.saved[j] {
      assert analyze(p.saved[j], Lookup(entries, p.saved[j]).value) == Ok(p.saves[j]);
    }
    forall k | 0 <= k < |p.saved|
      ensures InsightsPath(company, p.saved[k]) in ApplySaves(store, p.saves)
      ensures ApplySaves(store, p.saves)[InsightsPath(company, p.saved[k])] == p.saves[k].data
    {
      forall j | 0 <= j < |p.saves| && p.saves[j].period == p.saves[k].period
        ensures p.saves[j].data == p.saves[k].data
      {
        assert p.saved[j] == p.saved[k];
        assert analyze(p.saved[j], Lookup(entries, p.saved[j]).value) == Ok(p.saves[j]);
        assert analyze(p.saved[k], Lookup(entries, p.saved[k]).value) == Ok(p.saves[k]);
      }
      SaveSurvives(store, p.saves, company, k);
    }
  }

  /**
   * When every save is for `company` and saves of one period agree on the
   * document, the file of any saved period ends up holding that document.
   */
  lemma SaveSurvives(store: Store, saves: seq<Insights>, company: string, k: int)
    requires |company| > 0 && '/' !in company && 0 <= k < |saves|
    requires forall j :: 0 <= j < |saves| ==> saves[j].company == company
    requires forall j :: 0 <= j < |saves| && saves[j].period == saves[k].period ==> saves[j].data == saves[k].data
    ensures InsightsPath(company, saves[k].period) in ApplySaves(store, saves)
    ensures ApplySaves(store, saves)[InsightsPath(company, saves[k].period)] == saves[k].data
  {
    var path := InsightsPath(company, saves[k].period);
    LastSaveFound(saves, k);
    ApplySavesAt(store, saves, path);
    LastSaveFrom(saves, path);
    var j :| 0 <= j < |saves| && InsightsPath(saves[j].company, saves[j].period) == path
      && saves[j].data == LastSave(saves, path).value;
    InsightsPathPeriodInjective(company, saves[j].period, saves[k].period);
  }

  /** The last save to a path is one of the saves, and it was aimed at that path. */
  lemma {:induction false} LastSaveFrom(saves: seq<Insights>, path: string)
    requires LastSave(saves, path).Some?
    ensures exists j :: 0 <= j < |saves| && InsightsPath(saves[j].company, saves[j].period) == path && saves[j].data == LastSave(saves, path).value
    decreases |saves|
  {
    match LastSave(saves[1..], path)
    case Some(v) =>
      LastSaveFrom(saves[1..], path);
      var j :| 0 <= j < |saves[1..]| && InsightsPath(saves[1..][j].company, saves[1..][j].period) == path
        && saves[1..][j].data == v;
      assert saves[j + 1] == saves[1..][j];
    case None =>
      assert InsightsPath(saves[0].company, saves[0].period) == path;
  }

  /** Every saved document's path is in the store afterwards. */
  lemma SavedIsPresent(store: Store, saves: seq<Insights>, k: int)
    requires 0 <= k < |saves|
    ensures InsightsPath(saves[k].company, saves[k].period) in ApplySaves(store, saves)
  {
    LastSaveFound(saves, k);
    ApplySavesAt(store, saves, InsightsPath(saves[k].company, saves[k].period));
  }

  lemma {:induction false} LastSaveFound(saves: seq<Insights>, k: int)
    requires 0 <= k < |saves|
    ensures LastSave(saves, InsightsPath(saves[k].company, saves[k].period)).Some?
    decreases |saves|
  {
    if k > 0 {
      LastSaveFound(saves[1..], k - 1);
      assert saves[1..][k - 1] == saves[k];
    }
  }

  /** Filtering two arrangements of the same names gives arrangements of the same folders. */
  lemma {:induction false} PeriodDirsPermutes(entries: seq<Entry>, a: seq<string>, b: seq<string>)
    requires multiset(a) == multiset(b)
    ensures multiset(PeriodDirs(entries, a)) == multiset(PeriodDirs(entries, b))
    decreases |a|
  {
    PeriodDirsCount(entries, a);
    PeriodDirsCount(entries, b);
    forall x ensures multiset(PeriodDirs(entries, a))[x] == multiset(PeriodDirs(entries, b))[x] {
    }
  }

  /** A folder occurs in the filtered names as often as in the names, others not at all. */
  lemma {:induction false} PeriodDirsCount(entries: seq<Entry>, names: seq<string>)
    ensures forall x :: multiset(PeriodDirs(entries, names))[x] == if IsPeriodDir(entries, x) then multiset(names)[x] else 0
    decreases |names|
  {
    if |names| > 0 {
      PeriodDirsCount(entries, names[1..]);
      assert names == [names[0]] + names[1..];
      assert multiset(names) == multiset{names[0]} + multiset(names[1..]);
    }
  }

  /**
   * The example layout: with `2023/sub1/submission.txt` holding "R" and
   * `2022/sub1/submission.txt` holding "S", the 2023 report is "R\n" and
   * nothing from 2022.
   */
  lemma PeriodsDoNotMix(folder: string, r: string, s: string, sub: Entry, sub2: Entry, y23: string, y22: string)
    requires sub == Entry("sub1", Dir([Entry(SubmissionFile, File(r))]))
    requires sub2 == Entry("sub1", Dir([Entry(SubmissionFile, File(s))]))
    requires y23 != y22
    ensures var entries := [Entry(y23, Dir([sub])), Entry(y22, Dir([sub2]))];
      PeriodReport(folder, y23, Lookup(entries, y23).value) == Ok(r + "\n")
  {
    var entries := [Entry(y23, Dir([sub])), Entry(y22, Dir([sub2]))];
    assert Lookup(entries, y23) == Some(Dir([sub]));
    SingleSubmissionCorpus(Paths.Join(folder, y23), sub, r);
  }

  /** A period folder holding one readable submission has that text and a newline as its report. */
  lemma SingleSubmissionCorpus(dir: string, sub: Entry, r: string)
    requires sub == Entry("sub1", Dir([Entry(SubmissionFile, File(r))]))
    ensures Corpus(dir, [sub]) == Ok(r + "\n")
  {
    assert SubmissionOf(sub) == Some(File(r));
    assert [sub][1..] == [];
    assert r + "\n" + "" == r + "\n";
  }
}
