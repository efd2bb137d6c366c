/** The stored scan cursor of a job: one document, written with merge semantics. */
module EventStore {
  import opened Wrappers

  /** `lastUpToDepositId` is written by the token-map register only. */
  datatype EventDoc = EventDoc(lastBlockNumber: nat, lastUpToDepositId: Option<nat>)

  /** A merging write keeps the fields it does not mention. */
  function Merge(doc: Option<EventDoc>, lastBlockNumber: nat, lastUpToDepositId: Option<nat>): EventDoc {
    EventDoc(lastBlockNumber,
             if lastUpToDepositId.Some? || doc.None? then lastUpToDepositId else doc.value.lastUpToDepositId)
  }

  /** The first block of the next scan. A cursor at block 0 is falsy and counts as absent. */
  function GetStartBlockNumber(lastProcessedEvent: Option<EventDoc>, deployedBlockNumber: nat): nat {
    if lastProcessedEvent.Some? && lastProcessedEvent.value.lastBlockNumber != 0
    then lastProcessedEvent.value.lastBlockNumber + 1
    else deployedBlockNumber
  }

  datatype Write = Write(lastBlockNumber: nat, lastUpToDepositId: Option<nat>)

  /** The document after a history of writes. */
  function AfterWrites(doc: Option<EventDoc>, writes: seq<Write>): Option<EventDoc> {
    if writes == [] then doc
    else
      var n := |writes| - 1;
      Some(Merge(AfterWrites(doc, writes[..n]), writes[n].lastBlockNumber, writes[n].lastUpToDepositId))
  }

  function IdOf(doc: Option<EventDoc>): Option<nat> {
    if doc.Some? then doc.value.lastUpToDepositId else None
  }

  /** The document shows the block of the last write, and the id of the last write
      that had one (number `i`), or the id from before if none had. */
  lemma {:induction false} LatestWritesShow(doc: Option<EventDoc>, writes: seq<Write>, i: nat)
    requires i <= |writes| && (i > 0 ==> writes[i - 1].lastUpToDepositId.Some?)
    requires forall j :: i <= j < |writes| ==> writes[j].lastUpToDepositId.None?
    ensures IdOf(AfterWrites(doc, writes)) == if i > 0 then writes[i - 1].lastUpToDepositId else IdOf(doc)
    ensures writes != [] ==>
      AfterWrites(doc, writes).Some?
      && AfterWrites(doc, writes).value.lastBlockNumber == writes[|writes| - 1].lastBlockNumber
    decreases |writes|
  {
    if i < |writes| {
      LatestWritesShow(doc, writes[..|writes| - 1], i);
    }
  }

  /** After a write at block `b` the next scan starts right after it; a cursor at block 0
      is not seen, and the scan starts at the deployment block again. */
  lemma NextScanIsAdjacent(doc: Option<EventDoc>, writes: seq<Write>, deployed: nat)
    requires writes != []
    ensures var b := writes[|writes| - 1].lastBlockNumber;
      var start := GetStartBlockNumber(AfterWrites(doc, writes), deployed);
      if b > 0 then start - 1 == b else start == deployed
  {
  }

  class Event {
    var doc: Option<EventDoc>

    constructor ()
      ensures doc == None
    {
      doc := None;
    }

    method AddOrUpdateEvent(lastBlockNumber: nat, lastUpToDepositId: Option<nat>)
      modifies this
      ensures doc == Some(Merge(old(doc), lastBlockNumber, lastUpToDepositId))
    {
      doc := Some(Merge(doc, lastBlockNumber, lastUpToDepositId));
    }
  }
}
