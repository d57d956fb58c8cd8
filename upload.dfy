/**
 * The upload page: the chosen file, a progress figure that is only ever 0 or
 * 100, the in-flight flag, and the status line with its success colouring.
 */
module Upload {
  import opened Optional
  import opened Http
  import Text

  /** The chosen file as the browser reports it; its bytes are not modelled. */
  datatype File = File(name: string, size: nat, mime: string)

  const SuccessStatus: string := "File uploaded successfully!"
  const FailurePrefix: string := "Upload failed: "

  /** `error.message` for a failed upload: the page's own status line for a non-ok response, else the thrown message. */
  function FailureMessage(outcome: Outcome): (m: string)
    requires !outcome.Ok?
    ensures outcome.NotOk? ==>
              Text.ParseStatusLine(FailurePrefix, m) == Some((outcome.status, ErrorReason(outcome.detail, outcome.text)))
    ensures outcome.Thrown? ==> m == outcome.message
  {
    match outcome
    case NotOk(status, detail, text) =>
      Text.ParseStatusLineRoundTrip(FailurePrefix, status, ErrorReason(detail, text));
      Text.StatusLine(FailurePrefix, status, ErrorReason(detail, text))
    case Thrown(_, message) => message
  }

  /** `Upload failed: ${error.message}`. */
  function FailureStatus(outcome: Outcome): string
    requires !outcome.Ok?
  {
    FailurePrefix + FailureMessage(outcome)
  }

  /** The status box takes the success colours when its text contains "success". */
  predicate ShownAsSuccess(status: string) {
    Text.Includes(status, "success")
  }

  lemma SuccessShownAsSuccess()
    ensures ShownAsSuccess(SuccessStatus)
  {
    assert SuccessStatus[14..21] == "success";
    assert Text.OccursAt(SuccessStatus, "success", 14);
    Text.IncludesIff(SuccessStatus, "success");
  }

  /** What the page writes in front of a non-ok response's reason contains no 's'. */
  lemma FailedStatusLineHasNoS(status: nat)
    ensures 's' !in FailurePrefix + (FailurePrefix + Text.NatToString(status) + " - ")
  {
  }

  /**
   * A failure is shown in the success colours exactly when the reason it
   * carries (the response's detail or body text, or the thrown message)
   * contains "success": nothing the page itself adds contains an 's'.
   */
  lemma {:induction false} FailureShownAsSuccessIff(outcome: Outcome)
    requires !outcome.Ok?
    ensures ShownAsSuccess(FailureStatus(outcome)) <==>
            Text.Includes(if outcome.NotOk? then ErrorReason(outcome.detail, outcome.text) else outcome.message, "success")
  {
    match outcome {
      case NotOk(status, detail, text) =>
        var reason := ErrorReason(detail, text);
        var q := FailurePrefix + Text.NatToString(status) + " - ";
        var p := FailurePrefix + q;
        FailedStatusLineHasNoS(status);
        assert FailureMessage(outcome) == q + reason;
        assert FailureStatus(outcome) == p + reason;
        Text.IncludesAfterPrefix(p, reason, "success");
      case Thrown(_, message) =>
        Text.IncludesAfterPrefix(FailurePrefix, message, "success");
    }
  }

  class UploadPage {
    var file: Option<File>
    var progress: nat
    var uploading: bool
    var uploadStatus: string

    ghost predicate Valid()
      reads this
    {
      progress == 0 || progress == 100
    }

    constructor ()
      ensures Valid()
      ensures file == None && progress == 0 && !uploading && uploadStatus == ""
    {
      file := None;
      progress := 0;
      uploading := false;
      uploadStatus := "";
    }

    /** `handleFileChange`: `chosen` is `e.target.files[0]`, absent when the dialog was cancelled. */
    method SelectFile(chosen: Option<File>)
      requires Valid()
      modifies this
      ensures Valid()
      ensures file == chosen && progress == 0 && uploadStatus == "" && uploading == old(uploading)
    {
      file := chosen;
      progress := 0;
      uploadStatus := "";
    }

    /** `handleUpload` up to the `await`: refused when no file is chosen. */
    method StartUpload() returns (accepted: bool)
      requires Valid()
      modifies this
      ensures Valid()
      ensures accepted <==> old(file).Some?
      ensures file == old(file) && progress == old(progress)
      ensures !accepted ==> uploading == old(uploading) && uploadStatus == old(uploadStatus)
      ensures accepted ==> uploading && uploadStatus == ""
    {
      if file.None? {
        return false;
      }
      uploading := true;
      uploadStatus := "";
      accepted := true;
    }

    /** `handleUpload` after the request settled with `outcome`. */
    method FinishUpload(outcome: Outcome)
      requires Valid()
      modifies this
      ensures Valid()
      ensures file == old(file) && !uploading
      ensures outcome.Ok? ==> progress == 100 && uploadStatus == SuccessStatus
      ensures !outcome.Ok? ==> progress == 0 && uploadStatus == FailureStatus(outcome)
    {
      if outcome.Ok? {
        progress := 100;
        uploadStatus := SuccessStatus;
      } else {
        uploadStatus := FailureStatus(outcome);
        progress := 0;
      }
      uploading := false;
    }

    /** One whole upload whose request settles with `outcome`. */
    method HandleUpload(outcome: Outcome) returns (accepted: bool)
      requires Valid()
      modifies this
      ensures Valid()
      ensures accepted <==> old(file).Some?
      ensures file == old(file)
      ensures !accepted ==>
                progress == old(progress) && uploading == old(uploading) && uploadStatus == old(uploadStatus)
      ensures accepted ==> !uploading
      ensures accepted && outcome.Ok? ==> progress == 100 && uploadStatus == SuccessStatus
      ensures accepted && !outcome.Ok? ==> progress == 0 && uploadStatus == FailureStatus(outcome)
    {
      accepted := StartUpload();
      if accepted {
        FinishUpload(outcome);
      }
    }
  }
}
