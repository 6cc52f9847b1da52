/**
 * Shared result types for the filings pipeline.
 *
 * The pipeline's Python code signals failure by raising. The model turns
 * every exception it can raise into an `Err` carrying a `PipelineError`,
 * and every "maybe absent" value (a metric that did not parse, a missing
 * directory entry) into an `Option`.
 */
module Common {

  datatype Option<+T> = None | Some(value: T)

  /** The exceptions the modelled code can raise and does not catch. */
  datatype PipelineError =
    /** `line.split(':', 1)[1]` on a keyword line without a colon (IndexError). */
    | MissingColon(line: string)
    /** `os.listdir` on a path that does not exist (FileNotFoundError). */
    | NotFound(path: string)
    /** `os.listdir` on a path that is a regular file (NotADirectoryError). */
    | NotADirectory(path: string)
    /** `open` on a `submission.txt` that is itself a directory (IsADirectoryError). */
    | IsADirectory(path: string)
    /** `open` or `json.load` on an insights file fails. */
    | UnreadableJson(path: string)
    /** The completion call raised and nothing catches it. */
    | CompletionFailed
    /** The `except` block prints `json_data`, which was never bound (UnboundLocalError). */
    | UnboundJsonData

  datatype Result<+T> = Ok(value: T) | Err(error: PipelineError)
}
