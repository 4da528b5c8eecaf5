/**
 * The `receipts` table and the file storage it points into, with the Convex
 * handlers that read and change them (convex/receipts.ts). Each handler runs
 * as one atomic transaction, so each is one method call here.
 */
module Receipts {
  import opened Wrappers

  /** The subject of an authenticated identity. */
  type UserId = string
  /** A `_storage` id, handed out by the storage service. */
  type FileId = nat
  /** A `receipts` document id, handed out by the table on insert. */
  type ReceiptId = nat

  /** The code only ever writes these two status strings. */
  datatype Status = Pending | Processed

  datatype Item = Item(name: string, quantity: real, unitPrice: real, totalPrice: real)

  /** The arguments of `updateReceiptWithExtractedData` other than the id. */
  datatype ExtractedData = ExtractedData(
    fileDisplayName: string,
    merchantName: string,
    merchantAddress: string,
    merchantContact: string,
    transactionDate: string,
    transactionAmount: real,
    currency: string,
    receiptSummary: string,
    items: seq<Item>)

  /** A `receipts` document; an unset (undefined) field is `None`. */
  datatype Receipt = Receipt(
    userId: UserId,
    fileName: string,
    fileId: FileId,
    uploadedAt: int,
    size: int,
    mimeType: string,
    status: Status,
    fileDisplayName: Option<string>,
    merchantName: Option<string>,
    merchantAddress: Option<string>,
    merchantContact: Option<string>,
    transactionDate: Option<string>,
    transactionAmount: Option<real>,
    currency: Option<string>,
    receiptSummary: Option<string>,
    items: seq<Item>)

  /**
   * The errors the handlers throw: "Receipt not found", "Not authenticated"
   * and "Not authorised to access this receipt".
   */
  datatype Error = ReceiptNotFound | NotAuthenticated | NotAuthorised

  /** No extracted field is set and the item list is empty. */
  predicate Unextracted(r: Receipt)
  {
    && r.fileDisplayName.None? && r.merchantName.None? && r.merchantAddress.None?
    && r.merchantContact.None? && r.transactionDate.None? && r.transactionAmount.None?
    && r.currency.None? && r.receiptSummary.None? && r.items == []
  }

  /** The extracted data a record holds, when every extracted field is set. */
  function Extracted(r: Receipt): Option<ExtractedData>
  {
    if && r.fileDisplayName.Some? && r.merchantName.Some? && r.merchantAddress.Some?
       && r.merchantContact.Some? && r.transactionDate.Some? && r.transactionAmount.Some?
       && r.currency.Some? && r.receiptSummary.Some?
    then Some(ExtractedData(
      r.fileDisplayName.value, r.merchantName.value, r.merchantAddress.value,
      r.merchantContact.value, r.transactionDate.value, r.transactionAmount.value,
      r.currency.value, r.receiptSummary.value, r.items))
    else None
  }

  /** Status and extracted fields agree: a pending record has none, a processed one has all. */
  predicate Consistent(r: Receipt)
  {
    && (r.status == Pending ==> Unextracted(r))
    && (r.status == Processed ==> Extracted(r).Some?)
  }

  /** The fields written at upload time are the same in both records. */
  predicate SameUpload(r: Receipt, s: Receipt)
  {
    && r.userId == s.userId && r.fileName == s.fileName && r.fileId == s.fileId
    && r.uploadedAt == s.uploadedAt && r.size == s.size && r.mimeType == s.mimeType
  }

  /** The placeholder document `storeReceipt` inserts. */
  function PendingReceipt(userId: UserId, fileId: FileId, fileName: string, size: int,
                          mimeType: string, now: int): (r: Receipt)
    ensures r.status == Pending && Unextracted(r) && Consistent(r)
    ensures r.userId == userId && r.fileId == fileId && r.fileName == fileName
    ensures r.size == size && r.mimeType == mimeType && r.uploadedAt == now
  {
    Receipt(userId, fileName, fileId, now, size, mimeType, Pending,
            None, None, None, None, None, None, None, None, [])
  }

  /** The document after the single patch of `updateReceiptWithExtractedData`. */
  function WithExtracted(r: Receipt, d: ExtractedData): (p: Receipt)
    ensures p.status == Processed && Consistent(p)
    ensures Extracted(p) == Some(d)
    ensures SameUpload(r, p)
  {
    r.(fileDisplayName := Some(d.fileDisplayName),
       merchantName := Some(d.merchantName),
       merchantAddress := Some(d.merchantAddress),
       merchantContact := Some(d.merchantContact),
       transactionDate := Some(d.transactionDate),
       transactionAmount := Some(d.transactionAmount),
       currency := Some(d.currency),
       receiptSummary := Some(d.receiptSummary),
       items := d.items,
       status := Processed)
  }

  /** Patching twice with the same data leaves the record as patching once. */
  lemma PatchIdempotent(r: Receipt, d: ExtractedData)
    ensures WithExtracted(WithExtracted(r, d), d) == WithExtracted(r, d)
  {
  }

  /**
   * The owner's records among the ids below `n`, as (id, record) pairs in
   * increasing id order.
   */
  function Collect(records: map<ReceiptId, Receipt>, userId: UserId, n: nat): (r: seq<(ReceiptId, Receipt)>)
    ensures forall k :: 0 <= k < |r| ==>
      r[k].0 < n && r[k].0 in records && records[r[k].0] == r[k].1 && r[k].1.userId == userId
    ensures forall id :: id < n && id in records && records[id].userId == userId ==>
      exists k :: 0 <= k < |r| && r[k].0 == id
    ensures forall j, k :: 0 <= j < k < |r| ==> r[j].0 < r[k].0
  {
    if n == 0 then []
    else
      var rest := Collect(records, userId, n - 1);
      var id := n - 1;
      if id in records && records[id].userId == userId then
        var r := rest + [(id, records[id])];
        assert r[|rest|].0 == id;
        assert forall k :: 0 <= k < |rest| ==> r[k] == rest[k];
        r
      else rest
  }

  /** The listing below `n` only looks at the records below `n`. */
  lemma {:induction false} CollectFrame(m1: map<ReceiptId, Receipt>, m2: map<ReceiptId, Receipt>,
                                        userId: UserId, n: nat)
    requires forall id :: id < n ==> (id in m1 <==> id in m2)
    requires forall id :: id < n && id in m1 ==> m1[id] == m2[id]
    ensures Collect(m1, userId, n) == Collect(m2, userId, n)
  {
    if n > 0 {
      CollectFrame(m1, m2, userId, n - 1);
    }
  }

  /**
   * Storing a record under the next id appends it to its owner's listing
   * and leaves every other owner's listing as it was.
   */
  lemma CollectAfterStore(records: map<ReceiptId, Receipt>, userId: UserId, n: nat, r: Receipt)
    requires forall id :: id in records ==> id < n
    ensures Collect(records[n := r], userId, n + 1) ==
            Collect(records, userId, n) + (if r.userId == userId then [(n, r)] else [])
  {
    CollectFrame(records[n := r], records, userId, n);
  }

  /** The `receipts` table together with the set of files in storage. */
  class ReceiptTable {
    var records: map<ReceiptId, Receipt>
    var storage: set<FileId>
    var nextId: ReceiptId
    var nextFileId: FileId

    /** Ids are below the next fresh id and every record is consistent. */
    ghost predicate Valid()
      reads this
    {
      && (forall id :: id in records ==> id < nextId && Consistent(records[id]))
      && (forall f :: f in storage ==> f < nextFileId)
    }

    constructor ()
      ensures Valid() && records == map[] && storage == {}
    {
      records, storage := map[], {};
      nextId, nextFileId := 0, 0;
    }

    /** The storage service accepting an upload: a fresh file id is stored. */
    method StoreFile() returns (fileId: FileId)
      requires Valid()
      modifies this
      ensures Valid()
      ensures fileId !in old(storage) && storage == old(storage) + {fileId}
      ensures records == old(records) && nextId == old(nextId)
    {
      fileId := nextFileId;
      storage := storage + {fileId};
      nextFileId := nextFileId + 1;
    }

    /**
     * `storeReceipt`: insert a pending placeholder under a fresh id and
     * return the id. `now` stands for `Date.now()`.
     */
    method StoreReceipt(userId: UserId, fileId: FileId, fileName: string, size: int,
                        mimeType: string, now: int) returns (id: ReceiptId)
      requires Valid()
      modifies this
      ensures Valid()
      ensures id !in old(records)
      ensures records == old(records)[id := PendingReceipt(userId, fileId, fileName, size, mimeType, now)]
      ensures storage == old(storage) && nextFileId == old(nextFileId)
      ensures forall u :: GetReceipts(u) == old(GetReceipts(u)) + (if u == userId then [(id, records[id])] else [])
    {
      id := nextId;
      var receipt := PendingReceipt(userId, fileId, fileName, size, mimeType, now);
      forall u
        ensures Collect(records[id := receipt], u, id + 1) ==
                Collect(records, u, id) + (if receipt.userId == u then [(id, receipt)] else [])
      {
        CollectAfterStore(records, u, id, receipt);
      }
      records := records[id := receipt];
      nextId := nextId + 1;
    }

    /** `getReceipts`: the records owned by `userId`, in insertion order. */
    function GetReceipts(userId: UserId): (r: seq<(ReceiptId, Receipt)>)
      reads this
      requires Valid()
      ensures forall k :: 0 <= k < |r| ==>
        r[k].0 in records && records[r[k].0] == r[k].1 && r[k].1.userId == userId
      ensures forall id :: id in records && records[id].userId == userId ==>
        exists k :: 0 <= k < |r| && r[k].0 == id
      ensures forall j, k :: 0 <= j < k < |r| ==> r[j].0 < r[k].0
    {
      Collect(records, userId, nextId)
    }

    /**
     * `getReceiptById`: the access check only; the handler returns nothing
     * even when the check passes.
     */
    function GetReceiptById(identity: Option<UserId>, id: ReceiptId): (r: Outcome<Error>)
      reads this
      ensures r != Fail(ReceiptNotFound)
      ensures r == Fail(NotAuthenticated) <==> id in records && identity.None?
      ensures r == Fail(NotAuthorised) <==>
        id in records && identity.Some? && identity.value != records[id].userId
      ensures r.Pass? <==> id !in records || identity == Some(records[id].userId)
    {
      if id !in records then Pass
      else if identity.None? then Fail(NotAuthenticated)
      else if records[id].userId != identity.value then Fail(NotAuthorised)
      else Pass
    }

    /** `deleteReceipt`: the owner removes a record and its stored file. */
    method DeleteReceipt(identity: Option<UserId>, id: ReceiptId) returns (r: Outcome<Error>)
      requires Valid()
      modifies this
      ensures Valid() && nextId == old(nextId) && nextFileId == old(nextFileId)
      ensures id !in old(records) ==> r == Fail(ReceiptNotFound)
      ensures id in old(records) ==> r == old(GetReceiptById(identity, id))
      ensures r.Fail? ==> records == old(records) && storage == old(storage)
      ensures r.Pass? ==>
        && records == old(records) - {id}
        && storage == old(storage) - {old(records)[id].fileId}
    {
      if id !in records {
        return Fail(ReceiptNotFound);
      }
      var receipt := records[id];
      if identity.None? {
        return Fail(NotAuthenticated);
      }
      if receipt.userId != identity.value {
        return Fail(NotAuthorised);
      }
      storage := storage - {receipt.fileId};
      records := records - {id};
      r := Pass;
    }

    /**
     * `updateReceiptWithExtractedData`: one patch that overwrites every
     * extracted field and marks the record processed. No ownership check.
     */
    method UpdateReceiptWithExtractedData(id: ReceiptId, d: ExtractedData) returns (r: Result<UserId, Error>)
      requires Valid()
      modifies this
      ensures Valid()
      ensures storage == old(storage) && nextId == old(nextId) && nextFileId == old(nextFileId)
      ensures id !in old(records) ==> r == Failure(ReceiptNotFound) && records == old(records)
      ensures id in old(records) ==>
        && r == Success(old(records)[id].userId)
        && records == old(records)[id := WithExtracted(old(records)[id], d)]
    {
      if id !in records {
        return Failure(ReceiptNotFound);
      }
      var receipt := records[id];
      records := records[id := WithExtracted(receipt, d)];
      r := Success(receipt.userId);
    }
  }

  /** Updating a table twice with the same data gives the table of one update. */
  lemma UpdateIdempotent(records: map<ReceiptId, Receipt>, id: ReceiptId, d: ExtractedData)
    requires id in records
    ensures var once := records[id := WithExtracted(records[id], d)];
            once[id := WithExtracted(once[id], d)] == once
  {
    PatchIdempotent(records[id], d);
  }
}
