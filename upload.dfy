/**
 * The `uploadPDF` server action (actions/uploadPDF.ts): validate the caller
 * and the file, store the bytes, then insert a pending receipt that points
 * at the stored file.
 */
module UploadAction {
  import opened Wrappers
  import opened Strings
  import opened Remote
  import Receipts

  /** A browser `File`: its name, its declared MIME type and its size in bytes. */
  datatype File = File(name: string, mimeType: string, size: int)

  /** What the action returns: `{success: true, data}` or `{success: false, error}`. */
  datatype UploadResult =
    | Uploaded(receiptId: Receipts.ReceiptId, fileName: string)
    | UploadFailed(error: string)

  /** How the POST of the bytes to the upload URL went. */
  datatype PostReply = PostOk | PostNotOk(statusText: string) | PostThrows(message: string)

  /** The replies of the three remote calls that can fail, in call order. */
  datatype Services = Services(uploadUrl: Reply, post: PostReply, insert: Reply)

  /** The remote calls the action makes, in the order it makes them. */
  datatype Call =
    | RequestUploadUrl
    | PostFile
    | InsertReceipt(fileId: Receipts.FileId)
    | RequestDownloadUrl(fileId: Receipts.FileId)

  /** The server-side type check: neither the MIME type nor the name says PDF. */
  function RejectedType(f: File): (b: bool)
    ensures b <==> (forall i: nat :: !OccursAt(f.mimeType, "pdf", i)) && !EndsWith(ToLower(f.name), ".pdf")
  {
    ContainsIff(f.mimeType, "pdf");
    !Contains(f.mimeType, "pdf") && !EndsWith(ToLower(f.name), ".pdf")
  }

  /** The action gets past its three early returns. */
  predicate Admitted(user: Option<Receipts.UserId>, file: Option<File>)
  {
    user.Some? && file.Some? && !RejectedType(file.value)
  }

  /**
   * `uploadPDF`. `user` is the signed-in user's id, `file` the form's `file`
   * entry and `now` the time the insert reads.
   */
  method UploadPdf(table: Receipts.ReceiptTable, user: Option<Receipts.UserId>, file: Option<File>,
                   services: Services, now: int) returns (r: UploadResult, calls: seq<Call>)
    requires table.Valid()
    modifies table
    ensures table.Valid()
    // early returns: no remote call and no change
    ensures user.None? ==> r == UploadFailed("Unauthenticated")
    ensures user.Some? && file.None? ==> r == UploadFailed("No file uploaded")
    ensures user.Some? && file.Some? && RejectedType(file.value) ==>
      r == UploadFailed("Only PDF files can be uploaded")
    ensures !Admitted(user, file) ==>
      calls == [] && table.records == old(table.records) && table.storage == old(table.storage)
    // the upload URL request fails: nothing stored
    ensures Admitted(user, file) && services.uploadUrl.Throws? ==>
      && r == UploadFailed(services.uploadUrl.message)
      && calls == [RequestUploadUrl]
      && table.records == old(table.records) && table.storage == old(table.storage)
    // the POST fails: nothing stored, nothing inserted
    ensures Admitted(user, file) && services.uploadUrl.Returns? && !services.post.PostOk? ==>
      && r == UploadFailed(
           if services.post.PostNotOk?
           then "Failed to upload the file: " + services.post.statusText
           else services.post.message)
      && calls == [RequestUploadUrl, PostFile]
      && table.records == old(table.records) && table.storage == old(table.storage)
    // the bytes are stored first; only then is the insert attempted, with their id
    ensures Admitted(user, file) && services.uploadUrl.Returns? && services.post.PostOk? ==>
      && |calls| >= 3 && calls[2].InsertReceipt?
      && calls[..3] == [RequestUploadUrl, PostFile, InsertReceipt(calls[2].fileId)]
      && calls[2].fileId !in old(table.storage)
      && table.storage == old(table.storage) + {calls[2].fileId}
    // the insert fails: the stored file stays (no compensating delete)
    ensures Admitted(user, file) && services.uploadUrl.Returns? && services.post.PostOk? &&
            services.insert.Throws? ==>
      && r == UploadFailed(services.insert.message)
      && |calls| == 3
      && table.records == old(table.records)
    // success: one new pending record pointing at the stored file
    ensures Admitted(user, file) && services.uploadUrl.Returns? && services.post.PostOk? &&
            services.insert.Returns? ==>
      && r.Uploaded?
      && r.fileName == file.value.name
      && r.receiptId !in old(table.records)
      && calls == [RequestUploadUrl, PostFile, InsertReceipt(calls[2].fileId),
                   RequestDownloadUrl(calls[2].fileId)]
      && table.records == old(table.records)[r.receiptId := Receipts.PendingReceipt(
           user.value, calls[2].fileId, file.value.name, file.value.size, file.value.mimeType, now)]
  {
    calls := [];
    if user.None? {
      return UploadFailed("Unauthenticated"), calls;
    }
    if file.None? {
      return UploadFailed("No file uploaded"), calls;
    }
    var f := file.value;
    if RejectedType(f) {
      return UploadFailed("Only PDF files can be uploaded"), calls;
    }

    calls := calls + [RequestUploadUrl];
    if services.uploadUrl.Throws? {
      return UploadFailed(services.uploadUrl.message), calls;
    }

    calls := calls + [PostFile];
    match services.post {
      case PostNotOk(statusText) =>
        return UploadFailed("Failed to upload the file: " + statusText), calls;
      case PostThrows(message) =>
        return UploadFailed(message), calls;
      case PostOk =>
    }
    var storageId := table.StoreFile();

    calls := calls + [InsertReceipt(storageId)];
    if services.insert.Throws? {
      return UploadFailed(services.insert.message), calls;
    }
    var receiptId := table.StoreReceipt(user.value, storageId, f.name, f.size, f.mimeType, now);

    // the download URL is requested and then never used
    calls := calls + [RequestDownloadUrl(storageId)];
    r := Uploaded(receiptId, f.name);
  }
}
