/** The append-only event log. */
module Events {
  import opened Types

  type Bytes = seq<nat>

  /** A digest, commitment, nullifier or decoded 32-byte value: opaque, compared only. */
  type Key = nat

  datatype EventData =
    | OrderPlaced(orderId: Id, commitment: Key, ciphertext: Bytes)
    | OrderCancelled(orderId: Id)
    | OrderExpired(orderId: Id)
    | AuctionExecuted(auctionId: Id, pair: string, clearingPrice: Decimal, matchedVolume: Decimal,
                      matchCount: nat, timestamp: int)
    | OrderMatched(auctionId: Id, m: Match)
    | BatchSubmitted(batchId: Id, auctionId: Id)
    | BatchConfirmed(batchId: Id)
    | BatchSettled(batchId: Id)
    | PairRegistered(pair: string, baseToken: Address, quoteToken: Address, minOrderSize: Decimal,
                     tickSize: Decimal, interval: Option<nat>, baseDecimals: nat, quoteDecimals: nat)
    | PairSuspended(pair: string)
    | PairDelisted(pair: string)
    | BatchFolded(batchId: Id, round: nat, pair: string)

  datatype Event = Event(number: nat, data: EventData)

  /** `append` numbers events consecutively after `last`. */
  function Stamp(data: seq<EventData>, last: nat): seq<Event> {
    seq(|data|, i requires 0 <= i < |data| => Event(last + 1 + i, data[i]))
  }

  /** Numbers climb, and none has been used at or below `after` or above `last`. */
  predicate Numbered(events: seq<Event>, after: nat, last: nat) {
    && (forall i :: 0 <= i < |events| ==> after < events[i].number <= last)
    && (forall i, j :: 0 <= i < j < |events| ==> events[i].number < events[j].number)
  }
}
