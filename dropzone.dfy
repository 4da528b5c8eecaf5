/**
 * The upload logic of the PDF drop zone (components/PDFDropzone.tsx): the
 * client-side PDF filter, the sequential upload loop of `handleUpload` and
 * the `canUpload` gate on dropping files.
 */
module Dropzone {
  import opened Wrappers
  import opened Strings
  import Receipts
  import UploadAction

  type File = UploadAction.File
  type UploadResult = UploadAction.UploadResult

  /** The client filter: the type is exactly `application/pdf` or the name ends in `.pdf`. */
  function IsPdf(f: File): (b: bool)
    ensures b <==> f.mimeType == "application/pdf" ||
                   (|f.name| >= 4 && ToLower(f.name[|f.name| - 4..]) == ".pdf")
  {
    assert |f.name| >= 4 ==> ToLower(f.name)[|f.name| - 4..] == ToLower(f.name[|f.name| - 4..]);
    f.mimeType == "application/pdf" || EndsWith(ToLower(f.name), ".pdf")
  }

  /** `fileArray.filter(...)`: the PDF files, in their original order. */
  function PdfFiles(files: seq<File>): (r: seq<File>)
    ensures forall f :: multiset(r)[f] == if IsPdf(f) then multiset(files)[f] else 0
  {
    if files == [] then []
    else
      assert files == [files[0]] + files[1..];
      (if IsPdf(files[0]) then [files[0]] else []) + PdfFiles(files[1..])
  }

  /** Filtering a concatenation filters each part in place: the filter keeps order. */
  lemma {:induction false} PdfFilesAppend(a: seq<File>, b: seq<File>)
    ensures PdfFiles(a + b) == PdfFiles(a) + PdfFiles(b)
  {
    if a == [] {
      assert a + b == b;
    } else {
      assert (a + b)[1..] == a[1..] + b;
      PdfFilesAppend(a[1..], b);
    }
  }

  /** Every file the client keeps passes the server's type check. */
  lemma PdfPassesServerCheck(f: File)
    requires IsPdf(f)
    ensures !UploadAction.RejectedType(f)
  {
    if f.mimeType == "application/pdf" {
      assert OccursAt(f.mimeType, "pdf", 12);
      ContainsIff(f.mimeType, "pdf");
    }
  }

  /** The same for a whole drop: nothing `handleUpload` sends is rejected for its type. */
  lemma PdfFilesPassServerCheck(files: seq<File>)
    ensures forall f :: f in PdfFiles(files) ==> !UploadAction.RejectedType(f)
  {
    forall f | f in PdfFiles(files)
      ensures !UploadAction.RejectedType(f)
    {
      assert multiset(PdfFiles(files))[f] > 0;
      PdfPassesServerCheck(f);
    }
  }

  function Names(files: seq<File>): seq<string>
  {
    seq(|files|, i requires 0 <= i < |files| => files[i].name)
  }

  lemma NamesPrefix(s: seq<File>, i: nat)
    requires i < |s|
    ensures Names(s[..i + 1]) == Names(s[..i]) + [s[i].name]
  {
    assert Names(s[..i + 1])[i] == s[i].name;
  }

  lemma UploadCallsPrefix(s: seq<File>, i: nat)
    requires i < |s|
    ensures UploadCalls(s[..i + 1]) == UploadCalls(s[..i]) + [CallUploadPdf(s[i])]
  {
    assert UploadCalls(s[..i + 1])[i] == CallUploadPdf(s[i]);
  }

  /** The number of leading calls, among the first `n`, whose reply is a success. */
  function FirstFailure(n: nat, reply: nat -> UploadResult): (k: nat)
    ensures k <= n
    ensures forall j :: 0 <= j < k ==> reply(j).Uploaded?
    ensures k < n ==> reply(k).UploadFailed?
  {
    if n == 0 then 0
    else
      var k := FirstFailure(n - 1, reply);
      if k < n - 1 then k
      else if reply(n - 1).UploadFailed? then n - 1
      else n
  }

  /** What the component observably does, in order. */
  datatype Event = SetUploading(value: bool) | CallUploadPdf(file: File)

  function UploadCalls(files: seq<File>): seq<Event>
  {
    seq(|files|, i requires 0 <= i < |files| => CallUploadPdf(files[i]))
  }

  /** How `handleUpload` ends; each but the success raises an alert. */
  datatype HandleOutcome =
    | SignInRequired
    | NoPdfSelected
    | AllUploaded
    | UploadFailedAlert(message: string)

  /** The drop zone's state and the hook values it reads. */
  class PdfDropzone {
    const user: Option<Receipts.UserId>
    const featureEnabled: bool
    var isUploading: bool
    var uploadedFiles: seq<string>
    var events: seq<Event>

    constructor (user: Option<Receipts.UserId>, featureEnabled: bool)
      ensures this.user == user && this.featureEnabled == featureEnabled
      ensures !isUploading && uploadedFiles == [] && events == []
    {
      this.user := user;
      this.featureEnabled := featureEnabled;
      isUploading, uploadedFiles, events := false, [], [];
    }

    /** `canUpload`: a signed-in user with the `scans` feature enabled. */
    predicate CanUpload()
      reads this
    {
      user.Some? && featureEnabled
    }

    /**
     * The `for` loop of `handleUpload`: call `uploadPDF` on each file in
     * turn and stop at the first failed result, whose error is returned.
     */
    method UploadEach(pdf: seq<File>, reply: nat -> UploadResult) returns (newUploaded: seq<string>, error: Option<string>)
      modifies this`events
      ensures var k := FirstFailure(|pdf|, reply);
        && (k == |pdf| ==> error == None && newUploaded == Names(pdf) && events == old(events) + UploadCalls(pdf))
        && (k < |pdf| ==> error == Some(reply(k).error) && events == old(events) + UploadCalls(pdf[..k + 1]))
    {
      ghost var k := FirstFailure(|pdf|, reply);
      newUploaded, error := [], None;
      var i := 0;
      while i < |pdf| && error.None?
        invariant 0 <= i <= |pdf|
        invariant error.None? ==> i <= k && newUploaded == Names(pdf[..i])
        invariant error.Some? ==> k < |pdf| && i == k + 1 && error.value == reply(k).error
        invariant events == old(events) + UploadCalls(pdf[..i])
      {
        events := events + [CallUploadPdf(pdf[i])];
        UploadCallsPrefix(pdf, i);
        var result := reply(i);
        if result.UploadFailed? {
          error := Some(result.error);
        } else {
          NamesPrefix(pdf, i);
          newUploaded := newUploaded + [pdf[i].name];
        }
        i := i + 1;
      }
      if error.None? {
        assert pdf[..i] == pdf;
      }
    }

    /**
     * What a finished `handleUpload(files)` leaves behind, relating the state
     * before the call to the state after it.
     */
    twostate predicate HandledUpload(files: seq<File>, reply: nat -> UploadResult, outcome: HandleOutcome)
      reads this
    {
      && (user.None? ==> outcome == SignInRequired)
      && (user.Some? && PdfFiles(files) == [] ==> outcome == NoPdfSelected)
      && (user.None? || PdfFiles(files) == [] ==>
            events == old(events) && uploadedFiles == old(uploadedFiles) && isUploading == old(isUploading))
      && (user.Some? && PdfFiles(files) != [] ==>
            var pdf := PdfFiles(files);
            var k := FirstFailure(|pdf|, reply);
            && !isUploading
            && (k == |pdf| ==>
                  && outcome == AllUploaded
                  && uploadedFiles == old(uploadedFiles) + Names(pdf)
                  && events == old(events) + [SetUploading(true)] + UploadCalls(pdf) + [SetUploading(false)])
            && (k < |pdf| ==>
                  && outcome == UploadFailedAlert("Upload failed: " + reply(k).error)
                  && uploadedFiles == old(uploadedFiles)
                  && events == old(events) + [SetUploading(true)] + UploadCalls(pdf[..k + 1]) + [SetUploading(false)]))
    }

    /**
     * `handleUpload`. The i-th call of `uploadPDF` answers `reply(i)`. Files
     * are sent one at a time in filtered order and the first failure ends
     * the loop; the names are shown only when every upload succeeded.
     */
    method HandleUpload(files: seq<File>, reply: nat -> UploadResult) returns (outcome: HandleOutcome)
      modifies this
      ensures HandledUpload(files, reply, outcome)
    {
      if user.None? {
        return SignInRequired;
      }
      var pdf := PdfFiles(files);
      if |pdf| == 0 {
        return NoPdfSelected;
      }
      isUploading := true;
      events := events + [SetUploading(true)];

      var newUploaded, error := UploadEach(pdf, reply);
      if error.None? {
        uploadedFiles := uploadedFiles + newUploaded;
        outcome := AllUploaded;
      } else {
        outcome := UploadFailedAlert("Upload failed: " + error.value);
      }
      isUploading := false;
      events := events + [SetUploading(false)];
    }

    /** `handleDrop`: a signed-in user's non-empty drop goes to `handleUpload`. */
    method HandleDrop(files: seq<File>, reply: nat -> UploadResult) returns (outcome: Option<HandleOutcome>)
      modifies this
      ensures user.None? ==> outcome == Some(SignInRequired)
      ensures user.Some? && files == [] ==> outcome == None
      ensures user.None? || files == [] ==>
        events == old(events) && uploadedFiles == old(uploadedFiles) && isUploading == old(isUploading)
      ensures user.Some? && files != [] ==> outcome.Some? && HandledUpload(files, reply, outcome.value)
    {
      if user.None? {
        return Some(SignInRequired);
      }
      outcome := None;
      if |files| > 0 {
        var o := HandleUpload(files, reply);
        outcome := Some(o);
      }
    }

    /**
     * A drop on the zone: `handleDrop` is attached only when `canUpload`;
     * otherwise the drop is swallowed and nothing changes.
     */
    method OnDrop(files: seq<File>, reply: nat -> UploadResult) returns (outcome: Option<HandleOutcome>)
      modifies this
      ensures !CanUpload() ==>
        && outcome == None
        && events == old(events) && uploadedFiles == old(uploadedFiles) && isUploading == old(isUploading)
      ensures CanUpload() && files == [] ==>
        && outcome == None
        && events == old(events) && uploadedFiles == old(uploadedFiles) && isUploading == old(isUploading)
      ensures CanUpload() && files != [] ==> outcome.Some? && HandledUpload(files, reply, outcome.value)
    {
      outcome := None;
      if CanUpload() {
        outcome := HandleDrop(files, reply);
      }
    }
  }
}
