/**
 * The handler of `saveToDatabaseTool` (inngest/agents/databaseAgent.ts):
 * patch the receipt with the extracted data, then report a `scan` usage
 * event for the receipt's owner.
 */
module DatabaseAgent {
  import opened Remote
  import Receipts

  /** The tool's parameters: the receipt id beside every extracted field. */
  datatype ToolParams = ToolParams(
    fileDisplayName: string,
    receiptId: Receipts.ReceiptId,
    merchantName: string,
    merchantAddress: string,
    merchantContact: string,
    transactionDate: string,
    transactionAmount: real,
    receiptSummary: string,
    currency: string,
    items: seq<Receipts.Item>)

  /** `const { receiptId, ...receiptData } = params`. */
  function SplitParams(p: ToolParams): (r: (Receipts.ReceiptId, Receipts.ExtractedData))
    ensures r.0 == p.receiptId
    ensures JoinParams(r.0, r.1) == p
  {
    (p.receiptId,
     Receipts.ExtractedData(p.fileDisplayName, p.merchantName, p.merchantAddress, p.merchantContact,
                            p.transactionDate, p.transactionAmount, p.currency, p.receiptSummary, p.items))
  }

  /** Put an id and the extracted data back together as tool parameters. */
  function JoinParams(id: Receipts.ReceiptId, d: Receipts.ExtractedData): ToolParams
  {
    ToolParams(d.fileDisplayName, id, d.merchantName, d.merchantAddress, d.merchantContact,
               d.transactionDate, d.transactionAmount, d.receiptSummary, d.currency, d.items)
  }

  /** Splitting loses nothing: the id and every other field pass through unchanged. */
  lemma SplitJoin(p: ToolParams, id: Receipts.ReceiptId, d: Receipts.ExtractedData)
    ensures JoinParams(SplitParams(p).0, SplitParams(p).1) == p
    ensures SplitParams(JoinParams(id, d)) == (id, d)
  {
  }

  /** `client.track({event, company: {id}, user: {id}})`. */
  datatype TrackEvent = TrackEvent(event: string, companyId: Receipts.UserId, userId: Receipts.UserId)

  /** The remote calls the handler makes, in order. */
  datatype Call = UpdateReceipt(id: Receipts.ReceiptId, data: Receipts.ExtractedData) | Track(e: TrackEvent)

  /** `{addedToDb: "Success"}` or `{addedToDb: "Failed", error}`. */
  datatype ToolResult = AddedToDb | AddFailed(error: string)

  /** `error.message || "Unknown error"`. */
  function FailureText(message: string): (t: string)
    ensures t != ""
    ensures message != "" ==> t == message
    ensures message == "" ==> t == "Unknown error"
  {
    if message == "" then "Unknown error" else message
  }

  /**
   * The handler. `track` is how the Schematic call goes. The only way the
   * update throws here is a missing receipt; `updateErrorText` is the message
   * of the error the Convex HTTP client raises for it, which wraps the
   * server's "Receipt not found" in text the model does not fix.
   */
  method SaveToDatabase(table: Receipts.ReceiptTable, params: ToolParams, track: Reply, updateErrorText: string)
    returns (r: ToolResult, calls: seq<Call>)
    requires table.Valid()
    modifies table
    ensures table.Valid()
    ensures table.storage == old(table.storage)
    ensures |calls| >= 1 && calls[0] == UpdateReceipt(SplitParams(params).0, SplitParams(params).1)
    ensures r == AddedToDb <==> params.receiptId in old(table.records) && track.Returns?
    // the update throws: nothing is written and nothing is tracked
    ensures params.receiptId !in old(table.records) ==>
      && r == AddFailed(FailureText(updateErrorText))
      && calls == [calls[0]]
      && table.records == old(table.records)
    // the update returns: the record is processed, then the owner's scan is tracked
    ensures params.receiptId in old(table.records) ==>
      var owner := old(table.records)[params.receiptId].userId;
      && table.records == old(table.records)[params.receiptId :=
           Receipts.WithExtracted(old(table.records)[params.receiptId], SplitParams(params).1)]
      && calls == [calls[0], Track(TrackEvent("scan", owner, owner))]
      && (track.Throws? ==> r == AddFailed(FailureText(track.message)))
  {
    var (id, receiptData) := SplitParams(params);
    calls := [UpdateReceipt(id, receiptData)];
    var updated := table.UpdateReceiptWithExtractedData(id, receiptData);
    if updated.Failure? {
      return AddFailed(FailureText(updateErrorText)), calls;
    }
    var userId := updated.value;
    var event := TrackEvent("scan", userId, userId);
    calls := calls + [Track(event)];
    if track.Throws? {
      return AddFailed(FailureText(track.message)), calls;
    }
    r := AddedToDb;
  }
}
