/**
 * The collaborators the pipeline calls but does not define: the hosted
 * text-completion model, the JSON decoder, reading a JSON file, and
 * Python's `float`. Each is a total Dafny function supplied by the caller;
 * `None` stands for "the call raised".
 */
module Services {
  import opened Common

  /** A decoded JSON document, as `json.loads` returns it. */
  datatype Json =
    | JNull
    | JBool(b: bool)
    | JNumber(n: real)
    | JString(s: string)
    | JArray(items: seq<Json>)
    | JObject(members: seq<(string, Json)>)

  /** `{}`: what the extraction step falls back to. */
  const EmptyObject: Json := JObject([])

  /**
   * A prompt sent to the completion model, recorded by what it embeds:
   * the fixed wording around the embedded values is not modelled.
   */
  datatype Prompt =
    /** The metric-summary prompt of `get_summarized_metrics`, embedding one insights document. */
    | MetricsPrompt(data: Json)
    /** The JSON-extraction prompt of `analyze_company`, embedding one period's corpus. */
    | ExtractionPrompt(report: string)
    /** The narrative prompt of `summarize_company_findings`, embedding a name and a corpus. */
    | NarrativePrompt(company: string, report: string)

  datatype Services = Services(
    /** The completion text for a prompt, or `None` when the call raises. */
    complete: Prompt -> Option<string>,
    /** `json.loads`: `None` on malformed input. */
    loads: string -> Option<Json>,
    /** `open(path)` followed by `json.load`: `None` when either raises. */
    loadFile: string -> Option<Json>,
    /** `float(value)`: `None` where Python raises ValueError. */
    parseFloat: string -> Option<real>
  )
}
