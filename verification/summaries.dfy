/**
 * generate_summaries.py: the narrative summary of a company. The corpus is
 * read from the immediate children of the company folder
 * (`create_written_insights`), sent to the model
 * (`summarize_company_findings`), and wrapped in a one-key dictionary
 * (`generate_insights`).
 */
module Summaries {
  import opened Common
  import opened Text
  import Paths
  import opened Services
  import opened Filings
  import JsonFiles

  /** What `generate_insights` shows when the model gave nothing. */
  const NoInsights: string := "No insights found."

  /** The key of the dictionary `generate_insights` returns. */
  const InsightsKey: string := "Insights"

  /**
   * `create_written_insights(company_folder)`, given what sits at the
   * folder: `os.listdir` raises for a missing folder or a file; otherwise
   * the folder's basename and the corpus of its immediate children.
   */
  function CreateWrittenInsights(companyFolder: string, node: Option<Node>): (r: Result<(string, string)>)
    ensures node.None? ==> r == Err(NotFound(companyFolder))
    ensures node.Some? && node.value.File? ==> r == Err(NotADirectory(companyFolder))
    ensures node.Some? && node.value.Dir? ==>
      (r.Ok? <==> Corpus(companyFolder, node.value.entries).Ok?)
    ensures r.Ok? ==> r.value.0 == Paths.Basename(companyFolder) && r.value.1 == Corpus(companyFolder, node.value.entries).value
  {
    match node
    case None => Err(NotFound(companyFolder))
    case Some(File(_)) => Err(NotADirectory(companyFolder))
    case Some(Dir(entries)) =>
      match Corpus(companyFolder, entries)
      case Err(e) => Err(e)
      case Ok(report) => Ok((Paths.Basename(companyFolder), report))
  }

  /**
   * `summarize_company_findings`: the stripped reply, or the empty string
   * when the completion call raises (that exception is caught).
   */
  function SummarizeCompanyFindings(svc: Services, companyFolder: string, node: Option<Node>): (r: Result<(string, string)>)
    ensures r.Err? <==> CreateWrittenInsights(companyFolder, node).Err?
    ensures r.Ok? ==>
      var (name, report) := CreateWrittenInsights(companyFolder, node).value;
      var reply := svc.complete(NarrativePrompt(name, report));
      r.value.0 == name && r.value.1 == (if reply.Some? then Strip(reply.value) else "")
  {
    match CreateWrittenInsights(companyFolder, node)
    case Err(e) => Err(e)
    case Ok((name, report)) =>
      match svc.complete(NarrativePrompt(name, report))
      case None => Ok((name, ""))
      case Some(reply) => Ok((name, Strip(reply)))
  }

  /** The summary text is stripped: it neither starts nor ends with whitespace. */
  lemma SummaryIsStripped(svc: Services, companyFolder: string, node: Option<Node>)
    requires SummarizeCompanyFindings(svc, companyFolder, node).Ok?
    ensures var t := SummarizeCompanyFindings(svc, companyFolder, node).value.1;
      |t| > 0 ==> !IsSpace(t[0]) && !IsSpace(t[|t| - 1])
  {
  }

  /** The dictionary `generate_insights` returns for a summary text. */
  function WrapInsights(text: string): (m: map<string, string>)
    ensures m.Keys == {InsightsKey} && m[InsightsKey] != ""
    ensures m[InsightsKey] == (if text != "" then text else NoInsights)
  {
    if text != "" then map[InsightsKey := text] else map[InsightsKey := NoInsights]
  }

  /**
   * `generate_insights(ticker)`, given what sits at `base/ticker/10-K`:
   * the summary under the key "Insights", or the fixed message when the
   * summary is empty.
   */
  function GenerateInsights(svc: Services, base: string, ticker: string, node: Option<Node>): (r: Result<map<string, string>>)
    ensures r.Err? <==> SummarizeCompanyFindings(svc, JsonFiles.CompanyFolder(base, ticker), node).Err?
    ensures r.Ok? ==> r.value.Keys == {InsightsKey} && r.value[InsightsKey] != ""
    ensures r.Ok? ==>
      var text := SummarizeCompanyFindings(svc, JsonFiles.CompanyFolder(base, ticker), node).value.1;
      r.value[InsightsKey] == (if text != "" then text else NoInsights)
  {
    var folder := JsonFiles.CompanyFolder(base, ticker);
    match SummarizeCompanyFindings(svc, folder, node)
    case Err(e) => Err(e)
    case Ok((_, insights)) => Ok(WrapInsights(insights))
  }

  /**
   * The name the narrative prompt receives is the form folder "10-K", not
   * the ticker: `generate_insights` passes `base/ticker/10-K` and the name
   * is that folder's basename.
   */
  lemma SummaryNameIsForm(svc: Services, base: string, ticker: string, node: Option<Node>)
    requires |ticker| > 0 && '/' !in ticker
    requires SummarizeCompanyFindings(svc, JsonFiles.CompanyFolder(base, ticker), node).Ok?
    ensures SummarizeCompanyFindings(svc, JsonFiles.CompanyFolder(base, ticker), node).value.0 == JsonFiles.FormFolder
  {
    Paths.FilingFolderNames(base, ticker, JsonFiles.FormFolder);
  }

  /**
   * The filings layout puts `submission.txt` two levels below the form
   * folder (`10-K/<period>/<submission>/submission.txt`). The summary
   * corpus only looks one level down, so for that layout it is empty and
   * the prompt carries no filing text.
   */
  lemma SummaryCorpusOneLevel(companyFolder: string, periods: seq<Entry>)
    requires forall k :: 0 <= k < |periods| ==>
      periods[k].node.Dir? && Lookup(periods[k].node.entries, SubmissionFile).None?
    ensures CreateWrittenInsights(companyFolder, Some(Dir(periods))) == Ok((Paths.Basename(companyFolder), ""))
  {
    assert forall k :: 0 <= k < |periods| ==> SubmissionOf(periods[k]).None?;
  }

  /** A missing form folder raises from `os.listdir`; `generate_insights` catches nothing. */
  lemma MissingFolderRaises(svc: Services, base: string, ticker: string)
    ensures GenerateInsights(svc, base, ticker, None) == Err(NotFound(JsonFiles.CompanyFolder(base, ticker)))
  {
  }

  /** When the completion call raises, the page shows "No insights found.". */
  lemma FailedCompletionShowsNoInsights(svc: Services, base: string, ticker: string, entries: seq<Entry>)
    requires Corpus(JsonFiles.CompanyFolder(base, ticker), entries).Ok?
    requires var folder := JsonFiles.CompanyFolder(base, ticker);
      svc.complete(NarrativePrompt(Paths.Basename(folder), Corpus(folder, entries).value)).None?
    ensures GenerateInsights(svc, base, ticker, Some(Dir(entries))) == Ok(map[InsightsKey := NoInsights])
  {
  }

  /** A reply with some non-space text is shown stripped and otherwise verbatim. */
  lemma ReplyShownStripped(svc: Services, base: string, ticker: string, entries: seq<Entry>, reply: string)
    requires Corpus(JsonFiles.CompanyFolder(base, ticker), entries).Ok?
    requires var folder := JsonFiles.CompanyFolder(base, ticker);
      svc.complete(NarrativePrompt(Paths.Basename(folder), Corpus(folder, entries).value)) == Some(reply)
    requires Strip(reply) != ""
    ensures GenerateInsights(svc, base, ticker, Some(Dir(entries))) == Ok(map[InsightsKey := Strip(reply)])
  {
  }
}
