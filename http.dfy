/**
 * What a `fetch` call comes back with, seen from the component that awaits it.
 * The network, the request itself and the decoding of the body are outside the
 * model; each handler receives the outcome as an input.
 */
module Http {
  import opened Optional
  import opened Json

  datatype Outcome =
    /** `response.ok` held (a 2xx status) and the body, where the handler reads it, parsed as `body`. */
    | Ok(body: Value)
    /** `response.ok` was false: the status, the `detail` field of the error body if it parsed, and the raw body text. */
    | NotOk(status: nat, detail: Option<string>, text: string)
    /** `fetch` or the body decoding threw: the error's `name` and `message`. A timeout is a throw named `AbortError`. */
    | Thrown(name: string, message: string)

  /** The reason the upload and chat pages print for a non-ok response: `errorData?.detail || errorText || 'Unknown error'`. */
  function ErrorReason(detail: Option<string>, text: string): (r: string)
    ensures r != ""
    ensures r == text || r == "Unknown error" || (detail.Some? && r == detail.value)
    ensures detail.Some? && detail.value != "" ==> r == detail.value
    ensures detail.None? || detail.value == "" ==> r == (if text != "" then text else "Unknown error")
  {
    if detail.Some? && detail.value != "" then detail.value
    else if text != "" then text
    else "Unknown error"
  }
}
