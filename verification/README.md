# SEC 10-K insights pipeline — a Dafny model

The web app downloads a company's 10-K filings and has a hosted
text-completion model read them. It then builds two things:

* **JSON insights files**, one per filing period. For each period folder, `process_filings` joins the
  period's submissions into one report. `analyze_company` asks the model to extract the report as JSON.
  `save_insights_to_json` writes the document to `insights/<company>/<period>_insights.json`.
* **Charts.** `create_json_files_list` labels every insights file of a ticker with a synthetic year.
  `analyze_json_file` has the model summarise one file into `Label: value` lines, and `extract_metrics`
  parses those lines into four optional numbers. `create_plots` keeps the records that have both
  revenue and net income, and plots them.

A third part, `generate_insights`, produces a narrative summary. It reads submissions one level below
the form folder and wraps the model's reply in a one-key dictionary.

The model is purely functional:

* The filings are an immutable directory tree (`Filings.Node`).
* The written insights files are a map from path to document (`JsonFiles.Store`).
* `os.walk` output is a sequence of `(root, files)` pairs.
* Everything the code calls but does not define is a field of `Services.Services`. That covers the
  completion model, `json.loads`, loading a JSON file and `float`. Each of these is a total function
  whose `None` result means "the call raised".
* Exceptions that nothing catches become `Err` values of `Common.PipelineError`.

Modules:

| module | file | what it holds |
|---|---|---|
| `Common` | common.dfy | `Option`, `Result`, the exceptions the pipeline can raise |
| `Text` | text.dfy | Python `str` operations: `in`, `split('\n')`, `replace(p, '')`, `strip()` |
| `Decimal` | decimal.dfy | a restricted decimal grammar for `float()` and rendering integers |
| `Paths` | paths.dfy | `os.path.join`, `basename` and `dirname` on '/'-separated strings |
| `Lex` | lex.dfy | Python string ordering and `sorted(..., reverse=True)` |
| `Services` | services.dfy | JSON values, prompts, and the bundle of external calls |
| `Metrics` | metrics.dfy | `extract_metrics` |
| `Plots` | plots.dfy | `create_json_files_list`, `analyze_json_file`, `create_plots` |
| `Filings` | filings.dfy | the directory tree and the submission corpus shared by both loops |
| `JsonFiles` | jsonfiles.dfy | `analyze_company`, `save_insights_to_json`, `process_filings` |
| `Summaries` | summaries.dfy | `create_written_insights`, `summarize_company_findings`, `generate_insights` |

Edge behaviours of the code that the model keeps:

* **Keyword tests.** The four keyword tests of `extract_metrics` are an `if/elif` chain. A line that
  names two keywords is handled only by the first one (`Metrics.RevenueShadows`).
* **Cleaning.** Revenue and net income lose `$`, ` million` and ` billion` but keep `%`. Tax rate and
  foreign income lose only `%` and keep `$`.
* **Parse failures.** A failed parse leaves the field at its earlier value, so the last successful line
  wins. It does not unset the field.
* **A raising completion call** is not replaced by an empty result in `analyze_json_file`, where
  nothing catches it. Nor in `analyze_company`, where the `except` block prints the unbound `json_data`
  and so raises `UnboundLocalError`. Only `summarize_company_findings` falls back to `""`.
* **Missing company folder.** `process_filings` prints "Company folder for {ticker} not found." and returns when the company folder is missing. It
  only visits period names that are directories. No "missing period" condition can arise.

## Model

| member | source | states |
|---|---|---|
| Text.ContainsIffOccurs | sec-edgar-proj/sec-edgar-web-app/generate_plots.py:66 | `p in s` holds exactly when `p` occurs in `s` at some index |
| Text.FirstIndex | sec-edgar-proj/sec-edgar-web-app/generate_plots.py:67 | the index of the first occurrence of a character, or the length when it is absent |
| Text.Split | sec-edgar-proj/sec-edgar-web-app/generate_plots.py:59 | `split('\n')` yields one more piece than there are newlines, and no piece holds a newline |
| Text.JoinSplit | sec-edgar-proj/sec-edgar-web-app/generate_plots.py:59 | joining the pieces with the separator gives the text back |
| Text.SplitJoin | sec-edgar-proj/sec-edgar-web-app/generate_plots.py:59 | splitting a join of separator-free pieces gives the pieces back |
| Text.RemoveAll | sec-edgar-proj/sec-edgar-web-app/generate_plots.py:67 | `replace(p, '')` never lengthens the text and removes every copy of a one-character pattern |
| Text.RemoveNotContained | sec-edgar-proj/sec-edgar-web-app/generate_plots.py:67 | `replace(p, '')` is the identity when `p` does not occur |
| Text.RemoveAllKeeps | sec-edgar-proj/sec-edgar-web-app/generate_plots.py:67 | a character that is not in the pattern keeps its number of occurrences |
| Text.Strip | sec-edgar-proj/sec-edgar-web-app/generate_plots.py:67 | `strip()` leaves no whitespace at either end and leaves an already stripped text unchanged |
| Text.StripTrims | sec-edgar-proj/sec-edgar-web-app/generate_plots.py:67 | `strip()` returns a slice of the text with only whitespace cut off before and after it |
| Text.StripUnique | sec-edgar-proj/sec-edgar-web-app/generate_plots.py:67 | any slice with only whitespace outside it and none at its ends is what `strip()` returns, so `strip()` is fully determined |
| Text.StripKeeps | sec-edgar-proj/sec-edgar-web-app/generate_plots.py:67 | a non-space character keeps its number of occurrences under `strip()` |
| Decimal.ParseDecimal | sec-edgar-proj/sec-edgar-web-app/generate_plots.py:69 | an accepted numeral is non-empty and made of digits, signs and a point only |
| Decimal.ParseRender | sec-edgar-proj/sec-edgar-web-app/generate_plots.py:69 | every integer's decimal rendering parses back to that integer; exact here, while `float` rounds integers beyond 2^53 |
| Decimal.CurrencyNeverParses | sec-edgar-proj/sec-edgar-web-app/generate_plots.py:81 | a value still holding `$` is rejected, as `float` raises ValueError |
| Decimal.ParseExamples | sec-edgar-proj/sec-edgar-web-app/generate_plots.py:69 | "5.2", "-1.1" and "12" parse to 5.2, -1.1 and 12.0 |
| Metrics.Classify | sec-edgar-proj/sec-edgar-web-app/generate_plots.py:66-84 | the chosen keyword occurs in the line and no keyword earlier in the `elif` chain does; no choice exactly when no keyword occurs |
| Metrics.AfterColon | sec-edgar-proj/sec-edgar-web-app/generate_plots.py:67 | `split(':', 1)[1]` fails exactly when the line has no colon; otherwise the line is a colon-free head, a colon, and the result |
| Metrics.AfterFirstColon | sec-edgar-proj/sec-edgar-web-app/generate_plots.py:67 | after a colon-free head, the value is everything past the first colon, later colons included |
| Metrics.ScanLine | sec-edgar-proj/sec-edgar-web-app/generate_plots.py:65-89 | a line without a keyword changes nothing. A keyword line without a colon raises, naming that line. Only the classified field can change, and it is set exactly when the cleaned value parses |
| Metrics.ScanCrashes | sec-edgar-proj/sec-edgar-web-app/generate_plots.py:65-89 | the scan raises exactly when some line is a keyword line without a colon, and it reports the first such line |
| Metrics.ExtractMetricsFails | sec-edgar-proj/sec-edgar-web-app/generate_plots.py:59-91 | `extract_metrics` raises exactly when some line of the text is a keyword line without a colon |
| Metrics.ScanLastWins | sec-edgar-proj/sec-edgar-web-app/generate_plots.py:65-89 | each field ends as the value of the last line that sets it, or as its starting value |
| Metrics.ExtractMetricsLastWins | sec-edgar-proj/sec-edgar-web-app/generate_plots.py:59-91 | each returned field is the last successfully parsed value for it, or None |
| Metrics.UnsetStaysInit | sec-edgar-proj/sec-edgar-web-app/generate_plots.py:60-63 | a field that no line sets keeps its initial value |
| Metrics.NeutralLinesIgnored | sec-edgar-proj/sec-edgar-web-app/generate_plots.py:65-89 | inserting a line without any keyword anywhere leaves the result unchanged |
| Metrics.RevenueShadows | sec-edgar-proj/sec-edgar-web-app/generate_plots.py:66-89 | when every line naming a field also names Revenue, that field stays None |
| Metrics.CleanMoneyKeeps | sec-edgar-proj/sec-edgar-web-app/generate_plots.py:67 | money cleaning removes every `$` and keeps every digit, `%`, sign and point |
| Metrics.CleanPercentKeeps | sec-edgar-proj/sec-edgar-web-app/generate_plots.py:79 | percent cleaning removes every `%` and keeps every digit, `$`, sign and point |
| Metrics.PercentFieldRejectsCurrency | sec-edgar-proj/sec-edgar-web-app/generate_plots.py:78-89 | a tax-rate or foreign-income value holding `$` never parses |
| Metrics.CleanMoneyUnit | sec-edgar-proj/sec-edgar-web-app/generate_plots.py:67 | `[-]$<numeral> million` and `[-]$<numeral> billion` both clean to `[-]<numeral>` |
| Metrics.NoUnitScaling | sec-edgar-proj/sec-edgar-web-app/generate_plots.py:67 | "$5.2 billion" and "$5.2 million" clean to the same "5.2" |
| Metrics.CleanLeadingSpace | sec-edgar-proj/sec-edgar-web-app/generate_plots.py:67 | the space after the colon does not affect the cleaned value |
| Metrics.CleanPercentNumeral | sec-edgar-proj/sec-edgar-web-app/generate_plots.py:79 | `<numeral>%` cleans to the numeral |
| Metrics.KeywordLine | sec-edgar-proj/sec-edgar-web-app/generate_plots.py:65-89 | a keyword line `head:value` sets its field to the parse of the cleaned value, or leaves it when the parse fails |
| Metrics.RevenueLine | sec-edgar-proj/sec-edgar-web-app/generate_plots.py:66-71 | a line `Revenue: <sign>$<numeral> billion` sets revenue to the parse of the signed numeral and leaves the other fields alone |
| Metrics.NetIncomeLine | sec-edgar-proj/sec-edgar-web-app/generate_plots.py:72-77 | a line `Net Income: <sign>$<numeral> billion` sets net income to the parse of the signed numeral and leaves the other fields alone |
| Metrics.TaxRateLine | sec-edgar-proj/sec-edgar-web-app/generate_plots.py:78-83 | a line `Effective Tax Rate: <numeral>%` sets the tax rate to the parse of the numeral |
| Metrics.WorkedExample | sec-edgar-proj/sec-edgar-web-app/generate_plots.py:59-91 | the three-line summary with a final newline gives (5.2, -1.1, 12.0, None) |
| Paths.Join | sec-edgar-proj/sec-edgar-web-app/generate_plots.py:24 | the joined path ends with the second part, and starts with the first unless the second is absolute |
| Paths.Basename | sec-edgar-proj/sec-edgar-web-app/generate_plots.py:20 | the basename is the slash-free suffix that follows the last slash |
| Paths.BasenameJoin | sec-edgar-proj/sec-edgar-web-app/generate_plots.py:20-24 | the basename of a path joined with a slash-free name is that name |
| Paths.Dirname | sec-edgar-proj/sec-edgar-web-app/generate_json_files.py:30 | the dirname is the path before its final component with only slashes cut from its end; it is empty exactly when the path has no slash, keeps a slash-only head whole, and otherwise ends in a non-slash |
| Paths.DirnameJoin | sec-edgar-proj/sec-edgar-web-app/generate_json_files.py:30 | the dirname of a path joined with a slash-free name is the path, when that path does not end in a slash |
| Paths.FilingFolderNames | sec-edgar-proj/sec-edgar-web-app/generate_json_files.py:30 | for `base/ticker/10-K`, the basename of the dirname is the ticker and the basename is "10-K" |
| Lex.LexLeRefl | sec-edgar-proj/sec-edgar-web-app/generate_json_files.py:114 | string `<=` is reflexive |
| Lex.LexLeAntisym | sec-edgar-proj/sec-edgar-web-app/generate_json_files.py:114 | string `<=` is antisymmetric |
| Lex.LexLeTrans | sec-edgar-proj/sec-edgar-web-app/generate_json_files.py:114 | string `<=` is transitive |
| Lex.LexLeTotal | sec-edgar-proj/sec-edgar-web-app/generate_json_files.py:114 | any two strings are comparable |
| Lex.InsertPermutes | sec-edgar-proj/sec-edgar-web-app/generate_json_files.py:114 | insertion adds exactly the new name |
| Lex.InsertSorted | sec-edgar-proj/sec-edgar-web-app/generate_json_files.py:114 | insertion into a descending sequence keeps it descending |
| Lex.SortDescendingCorrect | sec-edgar-proj/sec-edgar-web-app/generate_json_files.py:114 | the sorted names are in descending order and are a permutation of the listing |
| Lex.DescendingUnique | sec-edgar-proj/sec-edgar-web-app/generate_json_files.py:114 | only one descending arrangement of a multiset of names exists, so the sort result is determined |
| Filings.Lookup | sec-edgar-proj/sec-edgar-web-app/generate_json_files.py:23-24 | the lookup fails exactly when no entry has the name; otherwise it returns an entry of that name |
| Filings.Corpus | sec-edgar-proj/sec-edgar-web-app/generate_json_files.py:18-27 | raises exactly when some child's `submission.txt` is a directory. A non-empty corpus ends in a newline. The corpus is empty exactly when no child directory holds `submission.txt` |
| Filings.CorpusAppend | sec-edgar-proj/sec-edgar-web-app/generate_json_files.py:20-27 | the corpus of two listings in a row is the first corpus followed by the second, and the first failure wins |
| Filings.CorpusIsJoin | sec-edgar-proj/sec-edgar-web-app/generate_json_files.py:18-27 | the corpus is the readable submissions in listing order, each followed by a newline |
| Filings.CorpusSplits | sec-edgar-proj/sec-edgar-web-app/generate_json_files.py:18-27 | when no submission holds a newline, splitting the corpus at newlines gives the submissions and one empty piece |
| Plots.JsonNames | sec-edgar-proj/sec-edgar-web-app/generate_plots.py:23 | only names ending in ".json" are kept, and each such name as often as the listing has it |
| Plots.DirJsonFilesLabels | sec-edgar-proj/sec-edgar-web-app/generate_plots.py:20-25 | the k-th `.json` file of a directory gets year 2023 - k, its joined path and the directory's basename; other files use no year |
| Plots.JsonFilesListAppend | sec-edgar-proj/sec-edgar-web-app/generate_plots.py:18-26 | the list follows walk order, and each directory's labels start again from 2023 |
| Plots.JsonFilesListLength | sec-edgar-proj/sec-edgar-web-app/generate_plots.py:18-26 | the list has one tuple per `.json` file of the walk |
| Plots.ToRecord | sec-edgar-proj/sec-edgar-web-app/generate_plots.py:113-122 | a record exists exactly when revenue and net income are both present. It holds the file's year and the four metrics unchanged, with tax rate and foreign income possibly absent |
| Plots.AnalyzeJsonFile | sec-edgar-proj/sec-edgar-web-app/generate_plots.py:93-122 | an unreadable file and a raising completion call raise; a failing `extract_metrics` raises its error; a record carries the year it was given |
| Plots.AnalyzeJsonFileCrashes | sec-edgar-proj/sec-edgar-web-app/generate_plots.py:104-108 | after a reply, the file raises exactly when the stripped reply has a keyword line without a colon |
| Plots.AnalyzeJsonFileRecord | sec-edgar-proj/sec-edgar-web-app/generate_plots.py:108-122 | after a reply, the file yields a record exactly when the stripped reply gives both revenue and net income |
| Plots.CollectAppend | sec-edgar-proj/sec-edgar-web-app/generate_plots.py:179-184 | records of a longer file list extend those of a shorter one in order, and the first failure wins |
| Plots.CollectOnlyCompany | sec-edgar-proj/sec-edgar-web-app/generate_plots.py:180-182 | files of other companies are never analysed, so the result equals collecting over the ticker's files alone |
| Plots.CollectYears | sec-edgar-proj/sec-edgar-web-app/generate_plots.py:179-184 | there are no more records than ticker files, and each record's year is the label of one of the ticker's files |
| Plots.PlottedYears | sec-edgar-proj/sec-edgar-web-app/generate_plots.py:165-188 | every plotted record's year is the synthetic label of one of the ticker's `.json` files |
| Plots.CreatePlots | sec-edgar-proj/sec-edgar-web-app/generate_plots.py:165-188 | raises exactly when collecting raises, and plots exactly when at least one record was collected |
| Plots.EmptyWalkPlotsNothing | sec-edgar-proj/sec-edgar-web-app/generate_plots.py:185-188 | an empty walk plots nothing and raises nothing |
| Plots.TopFolderIsTicker | sec-edgar-proj/sec-edgar-web-app/generate_plots.py:175-181 | the files directly in `insights/<ticker>` carry the ticker as company name |
| JsonFiles.PeriodReport | sec-edgar-proj/sec-edgar-web-app/generate_json_files.py:18-28 | a period that is a file raises NotADirectory; otherwise the report is the corpus of the period folder |
| JsonFiles.DecodeOrEmpty | sec-edgar-proj/sec-edgar-web-app/generate_json_files.py:69-73 | a decodable reply gives its decoded value; otherwise the result is `{}` |
| JsonFiles.AnalyzeCompany | sec-edgar-proj/sec-edgar-web-app/generate_json_files.py:7-75 | corpus errors propagate. A raising completion call becomes the unbound-`json_data` error, and any reply gives a result. The result is named `basename(dirname(folder))` and the period |
| JsonFiles.MalformedReplyGivesEmpty | sec-edgar-proj/sec-edgar-web-app/generate_json_files.py:67-75 | a reply whose stripped text does not decode gives insights `{}` under the company name and period |
| JsonFiles.DecodedPassesThrough | sec-edgar-proj/sec-edgar-web-app/generate_json_files.py:67-75 | a decoded reply is returned as decoded, with no schema check |
| JsonFiles.InsightsPathShape | sec-edgar-proj/sec-edgar-web-app/generate_json_files.py:89-92 | for plain names the path is `insights/<company>/<period>_insights.json` |
| JsonFiles.InsightsPathInjective | sec-edgar-proj/sec-edgar-web-app/generate_json_files.py:89-92 | different slash-free company or period names never share a file |
| JsonFiles.SaveInsights | sec-edgar-proj/sec-edgar-web-app/generate_json_files.py:89-94 | the store gains exactly that path, which holds the new document; every other path is unchanged |
| JsonFiles.SaveOverwrites | sec-edgar-proj/sec-edgar-web-app/generate_json_files.py:93-94 | saving the same company and period twice keeps only the second document |
| JsonFiles.ProcessFilings | sec-edgar-proj/sec-edgar-web-app/generate_json_files.py:107-118 | a missing company folder changes nothing and saves nothing; a file in its place raises NotADirectory |
| JsonFiles.AnalyzerLabels | sec-edgar-proj/sec-edgar-web-app/generate_json_files.py:75 | every analysed period is named after the company folder and after itself |
| JsonFiles.ApplySavesAt | sec-edgar-proj/sec-edgar-web-app/generate_json_files.py:93-94 | after a series of saves, a path holds its last save, or its old content when nothing saved to it |
| JsonFiles.ApplySavesTwice | sec-edgar-proj/sec-edgar-web-app/generate_json_files.py:93-94 | repeating the same saves changes nothing |
| JsonFiles.VisitIsPlan | sec-edgar-proj/sec-edgar-web-app/generate_json_files.py:115-118 | the loop's store is the start store with a store-independent series of saves applied |
| JsonFiles.ProcessFilingsRerun | sec-edgar-proj/sec-edgar-web-app/generate_json_files.py:97-118 | with the same filings and replies, a rerun leaves the same files, saved names and failure |
| JsonFiles.PlanSavesPeriodDirs | sec-edgar-proj/sec-edgar-web-app/generate_json_files.py:115-118 | the saved names are a prefix of the directory names in visiting order, and all of them when nothing fails |
| JsonFiles.PlanLabels | sec-edgar-proj/sec-edgar-web-app/generate_json_files.py:117-118 | each save is the `analyze_company` result for the period folder it names, labelled with the company and that period |
| JsonFiles.PeriodDirsDescending | sec-edgar-proj/sec-edgar-web-app/generate_json_files.py:114-116 | skipping non-directories keeps the descending order |
| JsonFiles.PlanAnalysis | sec-edgar-proj/sec-edgar-web-app/generate_json_files.py:114-118 | each save is what the analyser returned for a period folder of the listing |
| JsonFiles.StoredIsAnalysis | sec-edgar-proj/sec-edgar-web-app/generate_json_files.py:88-95 | after the saves, each saved period's file holds that period's document, since no other period writes to it |
| JsonFiles.InsightsPathPeriodInjective | sec-edgar-proj/sec-edgar-web-app/generate_json_files.py:91 | for one plain company name, different period names never share a file, slashes or not |
| JsonFiles.VisitSaves | sec-edgar-proj/sec-edgar-web-app/generate_json_files.py:114-118 | saved names are descending and equal the period folders when nothing fails; each one's file holds the analyser's document for that period |
| JsonFiles.ProcessFilingsSaves | sec-edgar-proj/sec-edgar-web-app/generate_json_files.py:108-118 | periods are saved in descending order under `insights/<ticker>/`, each file holding `analyze_company`'s document for that period. Without a failure, exactly the period folders are saved |
| JsonFiles.PeriodsDoNotMix | sec-edgar-proj/sec-edgar-web-app/generate_json_files.py:18-27 | with submissions "R" under 2023 and "S" under 2022, the 2023 report is "R\n" |
| Summaries.CreateWrittenInsights | sec-edgar-proj/sec-edgar-web-app/generate_summaries.py:7-29 | a missing folder raises NotFound and a file raises NotADirectory; otherwise the folder's basename and the corpus of its immediate children |
| Summaries.SummarizeCompanyFindings | sec-edgar-proj/sec-edgar-web-app/generate_summaries.py:31-75 | listing errors propagate; the summary is the stripped reply, or "" when the completion call raises |
| Summaries.SummaryIsStripped | sec-edgar-proj/sec-edgar-web-app/generate_summaries.py:72 | a non-empty summary neither starts nor ends with whitespace |
| Summaries.GenerateInsights | sec-edgar-proj/sec-edgar-web-app/generate_summaries.py:77-97 | the result has exactly the key "Insights" and is never empty. It holds the summary verbatim, or "No insights found." when the summary is empty |
| Summaries.MissingFolderRaises | sec-edgar-proj/sec-edgar-web-app/generate_summaries.py:18 | a missing form folder raises NotFound out of `generate_insights`, because nothing catches it |
| Summaries.FailedCompletionShowsNoInsights | sec-edgar-proj/sec-edgar-web-app/generate_summaries.py:73-97 | a raising completion call yields `{"Insights": "No insights found."}` |
| Summaries.ReplyShownStripped | sec-edgar-proj/sec-edgar-web-app/generate_summaries.py:72-93 | a reply with non-space text yields `{"Insights": <stripped reply>}` |
| Summaries.SummaryNameIsForm | sec-edgar-proj/sec-edgar-web-app/generate_summaries.py:28 | for `base/ticker/10-K` the company name in the summary is "10-K", not the ticker |
| Summaries.SummaryCorpusOneLevel | sec-edgar-proj/sec-edgar-web-app/generate_summaries.py:17-26 | when no period folder directly holds `submission.txt`, as in the filings layout, the summary corpus is empty |

## Left out

- `plot_metrics` (generate_plots.py:124-163): rendering with matplotlib and saving images. `CreatePlots` ends in `Plotted(records)` instead.
- The wording of the three prompts and the model parameters (model name, token budgets, temperature). A `Services.Prompt` records only what each prompt embeds.
- `json.loads`, `json.load` and `json.dump`: JSON text syntax and serialisation belong to a library that is not part of this model. Decoding is a field of `Services`, and a saved document is stored as a value.
- Decimal.ParseDecimal: accepts only `[+-]digits[.digits]`, `digits.` and `.digits`. Values are exact reals, whereas `float` rounds to the nearest double (integers above 2^53 lose precision) and overflows to `inf`. Exponents, `inf`/`nan`, underscores and the surrounding whitespace that Python's `float` also accepts are not modelled. `ExtractMetrics` and every general lemma take the parser as a parameter, so they hold for the real `float` too.
- Metrics.WorkedExample: the concrete examples use the restricted grammar above, which agrees with `float` on those inputs.
- Debug `print` calls, `os.makedirs`, text encodings and OS-level read/write failures other than the ones listed in `Common.PipelineError`.
- `os.walk` and `os.listdir` ordering: the walk and the listings are inputs in the order the OS returns them. Symbolic links are not modelled.
- Filings.Lookup: a listing never repeats a name; should one, the model takes the first.
- The hard-coded absolute base folders: the base path is a parameter. `create_plots` reads an absolute `.../insights` folder while `save_insights_to_json` writes a relative `insights` folder, so the two are not connected in the model.
- Unit stripping is not idempotent: removing ` million` can join a new one, as in `1 mi` + ` million` + `llion`, so no idempotence is stated for `CleanMoney`.
- Paths.FilingFolderNames: stated for a non-empty ticker without '/'. Other tickers give other names, which the lemmas do not describe.
- app.py (Flask request handling and templates) and sec_edgar_downloader_script.py (a wrapper over the downloader library).
