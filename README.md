# Receipt lifecycle model

A Dafny model of the receipt lifecycle of a receipt-scanning web application.
A signed-in user uploads a PDF. The server action stores the bytes in Convex
file storage and inserts a `"pending"` receipt that points at the stored
file. Later an agent tool writes the extracted fields back in one patch,
marks the receipt `"processed"` and reports a `scan` usage event to
Schematic. Owners can list, check and delete their receipts.

Modules, one per source file:

- `Receipts` (`receipts.dfy`) covers `convex/receipts.ts`. The `ReceiptTable` class holds
  the `receipts` table as a map from receipt id to record, and the set of
  stored file ids. `StoreReceipt`, `DeleteReceipt` and
  `UpdateReceiptWithExtractedData` are methods that change it. `GetReceipts`
  and `GetReceiptById` are read-only functions. The class invariant `Valid`
  says that every record is consistent: a pending record has no extracted
  field, and a processed one has all of them.
- `UploadAction` (`upload.dfy`) covers `actions/uploadPDF.ts`. It models the three early
  rejections and the server-side type check `RejectedType`. It also models
  the effect order: request an upload URL, post the bytes, insert the record,
  request a download URL. The remote replies are inputs (`Services`), and the
  calls made are returned in order.
- `Dropzone` (`dropzone.dfy`) covers `components/PDFDropzone.tsx`. It models the
  client PDF filter, `handleUpload`'s sequential loop, the `uploadedFiles`
  and `isUploading` state, and the `canUpload` gate on drops. The result of
  the i-th `uploadPDF` call is the input `reply(i)`.
- `DatabaseAgent` (`database_agent.dfy`) covers the `saveToDatabaseTool` handler in
  `inngest/agents/databaseAgent.ts`: the update followed by the Schematic
  `track` call.
- `Strings`, `Wrappers` and `Remote` are helpers. They provide `includes`,
  `endsWith` and `toLowerCase`, the Option/Result/Outcome types, and a
  remote call's reply.

The model follows the code as written:

- There is no `"failed"` status, because the status-update mutation is commented out.
- `uploadPDF` does not delete the stored file when the insert fails. `UploadPdf`
  states that the orphaned file stays in storage.
- There is no empty-file rejection.
- `getReceiptById` does not report a missing receipt. It checks nothing in that case.
- `getReceipts` performs no identity check. It lists whichever owner's
  receipts it is asked for.
- Extraction is never triggered by the upload.

## Model

| member | source | states |
|---|---|---|
| Receipts.PendingReceipt | convex/receipts.ts:23-40 | the placeholder copies userId, fileId, fileName, size and mimeType and sets uploadedAt to the given time; status is pending, every extracted field is unset, items is empty, so the record is consistent |
| Receipts.WithExtracted | convex/receipts.ts:187-198 | after the patch the status is processed, reading the extracted fields back gives exactly the written data, and the upload-time fields (userId, fileName, fileId, uploadedAt, size, mimeType) are unchanged |
| Receipts.PatchIdempotent | convex/receipts.ts:187-198 | patching a record twice with the same data gives the record of one patch |
| Receipts.UpdateIdempotent | convex/receipts.ts:180-198 | applying the update twice to a table with the same id and data gives the same table as applying it once |
| Receipts.Collect | convex/receipts.ts:53-56 | the listing holds exactly the records owned by the user, each paired with its own id, with no other record, in strictly increasing id (insertion) order |
| Receipts.CollectFrame | convex/receipts.ts:53-56 | the listing of ids below n depends only on the records below n |
| Receipts.CollectAfterStore | convex/receipts.ts:53-56 | storing a record under the next id appends it to its owner's listing and leaves every other owner's listing unchanged |
| Receipts.ReceiptTable.StoreFile | actions/uploadPDF.ts:47-61 | an accepted upload adds one fresh file id to storage and changes no record |
| Receipts.ReceiptTable.StoreReceipt | convex/receipts.ts:13-44 | exactly one pending placeholder is added under a fresh id, which is returned; existing records and storage are unchanged; the new record is appended to its owner's listing and every other listing stays as it was |
| Receipts.ReceiptTable.GetReceipts | convex/receipts.ts:47-58 | returns exactly the records whose userId equals the argument, with their ids, in insertion order, and no others |
| Receipts.ReceiptTable.GetReceiptById | convex/receipts.ts:61-82 | fails with NotAuthenticated ("Not authenticated") exactly when the record exists and there is no identity, and with NotAuthorised ("Not authorised to access this receipt") exactly when it exists and belongs to someone else; an absent record raises nothing; the record is never returned |
| Receipts.ReceiptTable.DeleteReceipt | convex/receipts.ts:127-156 | a missing record fails with ReceiptNotFound ("Receipt not found"); otherwise it fails exactly as the getReceiptById check does; on any failure the table and storage are unchanged; on success the record and its file id are removed and nothing else changes |
| Receipts.ReceiptTable.UpdateReceiptWithExtractedData | convex/receipts.ts:159-204 | a missing id fails with ReceiptNotFound ("Receipt not found") and changes nothing; otherwise the one record becomes WithExtracted of itself, the owner's userId is returned without any ownership check, and storage is unchanged |
| Strings.ContainsIff | actions/uploadPDF.ts:31 | the left-to-right `includes` scan answers true exactly when the substring occurs at some index |
| UploadAction.RejectedType | actions/uploadPDF.ts:30-33 | a file is rejected exactly when "pdf" occurs at no index of its MIME type and its lower-cased name does not end in ".pdf" |
| UploadAction.UploadPdf | actions/uploadPDF.ts:8-92 | no user gives "Unauthenticated", no file gives "No file uploaded", and a non-PDF type and name gives "Only PDF files can be uploaded", each with no call and no change; the file is posted before the insert is attempted, and the insert references the fresh storage id; a non-ok post gives "Failed to upload the file: " plus the status text and stores nothing; a failed insert keeps the stored file and adds no record; on success one pending record with the user's id and the file's name, size and type is added, and the result carries its id and the file name |
| Dropzone.IsPdf | components/PDFDropzone.tsx:46-48 | a file is kept exactly when its type is "application/pdf" or the lower-cased last four characters of its name are ".pdf" |
| Dropzone.PdfFiles | components/PDFDropzone.tsx:44-49 | every file with type "application/pdf" or a lower-cased name ending in ".pdf" is kept as often as it occurs, and every other file is dropped |
| Dropzone.PdfFilesAppend | components/PDFDropzone.tsx:45-49 | filtering a concatenation is the concatenation of the filtered parts, so the filter keeps the original order |
| Dropzone.PdfPassesServerCheck | actions/uploadPDF.ts:30-33 | a file the client filter keeps is never rejected by the server's type check |
| Dropzone.PdfFilesPassServerCheck | components/PDFDropzone.tsx:44-49 | no file the drop zone sends is rejected by the server for its type |
| Dropzone.FirstFailure | components/PDFDropzone.tsx:61-71 | the index of the first failed reply among n calls, or n: all earlier replies succeeded and the one at that index failed |
| Dropzone.PdfDropzone.constructor | components/PDFDropzone.tsx:19-30 | the component starts not uploading, with no uploaded names, and reads the user and the feature flag |
| Dropzone.PdfDropzone.UploadEach | components/PDFDropzone.tsx:59-74 | uploadPDF is called on the filtered files one at a time, in order, up to and including the first failure; the names are collected only when all calls succeeded, otherwise that failure's error is returned |
| Dropzone.PdfDropzone.HandleUpload | components/PDFDropzone.tsx:38-94 | with no user, or with no PDF among the files, nothing is uploaded and no state changes (isUploading is never set); otherwise isUploading is set, the calls run as in UploadEach, uploadedFiles grows by all filtered names in order only when every call succeeded and is unchanged on a failure (whose error is alerted), and isUploading ends false |
| Dropzone.PdfDropzone.HandleDrop | components/PDFDropzone.tsx:107-122 | with no user the sign-in outcome is given and nothing changes; an empty drop does nothing; otherwise the state afterwards is exactly what handleUpload on the dropped files leaves (HandledUpload) |
| Dropzone.PdfDropzone.OnDrop | components/PDFDropzone.tsx:133-142 | unless the user is signed in and the feature is enabled, a drop has no effect on any state; with the gate open an empty drop changes nothing and a non-empty one leaves exactly what handleUpload on the dropped files leaves |
| DatabaseAgent.SplitParams | inngest/agents/databaseAgent.ts:64 | the split-off id is the receiptId parameter, and joining the id with the rest gives back the original parameters |
| DatabaseAgent.SplitJoin | inngest/agents/databaseAgent.ts:64-69 | splitting off receiptId loses nothing: the id and every other field pass through unchanged |
| DatabaseAgent.FailureText | inngest/agents/databaseAgent.ts:77 | the reported error is never empty: it is the message when that is non-empty, and "Unknown error" when it is empty |
| DatabaseAgent.SaveToDatabase | inngest/agents/databaseAgent.ts:62-79 | the update comes first, with the split id and data; a missing receipt gives Failed with the text of the error the Convex client raises (through FailureText), no track call and no change; otherwise the record is processed and then a "scan" event is tracked with the owner as company and user id; Success is returned exactly when the update and the track both complete; a track failure gives Failed although the record is already processed |

## Left out

- `generateUploadUrl`, `getReceiptDownloadUrl` and `getFileDownloadUrl` are URL issuance by Convex storage. They appear only as the `RequestUploadUrl` and `RequestDownloadUrl` calls. The download URL is never used, and `getFileDownloadUrl` catches its own errors, so it cannot make `uploadPDF` fail.
- The byte-level upload body (`arrayBuffer`, the `Uint16Array` conversion) is out of scope. So are failures of `file.arrayBuffer()` and `uploadResponse.json()`.
- Convex argument validators (`v.id`, `v.string`, `v.number`) and the `as Id<"receipts">` cast are replaced by typed parameters.
- Receipt and storage ids are opaque in Convex. Here they are naturals from counters. This makes them fresh by construction and makes id order the insertion order that `getReceipts` returns.
- Numbers (`size`, amounts, quantities) are mathematical integers and reals. Floating point is not modelled.
- Authentication is an input: `Option<UserId>` for `ctx.auth.getUserIdentity()` and `currentUser()`. Clerk's `user.id` and the identity's `subject` are taken to be the same string. `Date.now()` is the input `now`.
- `toLowerCase` is modelled for ASCII letters only. No other character lower-cases to one of `.pdf`, so the suffix test is unaffected.
- Receipts.ReceiptTable.DeleteReceipt: deleting a file id that is not in storage is modelled as a no-op on the storage set. Nothing ties a record's `fileId` to the storage set, because `storeReceipt` accepts any file id.
- DatabaseAgent.SaveToDatabase: the only update failure modelled is a missing receipt. Transport failures of the Convex call are not modelled. How the Convex HTTP client wraps the server's "Receipt not found" (request id prefix, "Server Error" in production) is not modelled either; the wrapped text is an input.
- UploadAction.UploadPdf: throws of non-`Error` values ("An unknown error occurred") are not modelled. Every remote failure carries a message.
- Dropzone.PdfDropzone.HandleUpload: a rejected `uploadPDF` promise is not modelled. Each call resolves to the reply given for it.
- The Gemini tool, `receiptScanningAgent`, and the `createAgent`/`createTool` registrations are network I/O and library configuration.
- `getTemporaryAccessToken`, `lib/convexClient.ts`, and the commented-out `updateReceiptStatus` are not modelled. Neither is a `"failed"` status.
- UI behaviour is left out: rendering, `isDraggingOver`, `alert` texts other than the upload failure, `router.push`, the 5-second clear of `uploadedFiles`, `console.log`, and the file-input path (`triggerFileInput`, `handleFileInputChange`).
- Concurrency is not modelled. Each Convex handler is one atomic method call, and overlapping `handleUpload` runs are not modelled.
