/** Splitting a round into proof batches, and the settlement rows of each. */
module Settlement {
  import opened Types
  import opened Events
  import opened BookSpec
  import opened Projection
  import opened Legality
  import opened Operations
  import opened Auction
  import opened Rounds
  import opened Recovery
  import opened Orphans

  /** A round's matches in batches of at most `n`. */
  function Chunks(ms: seq<Match>, n: nat): seq<seq<Match>>
    requires n > 0
  {
    if ms == [] then [] else if |ms| <= n then [ms] else [ms[..n]] + Chunks(ms[n..], n)
  }

  lemma {:induction false} JoinedCons(ms: seq<Match>, mss: seq<seq<Match>>)
    ensures Joined([ms] + mss) == ms + Joined(mss)
  {
    if mss == [] {
      assert ([ms] + mss)[..0] == [];
    } else {
      var n := |mss| - 1;
      JoinedCons(ms, mss[..n]);
      assert ([ms] + mss)[..|mss|] == [ms] + mss[..n];
    }
  }

  /** The chunks concatenate back to the round; each is full except perhaps the last, and none is empty. */
  lemma {:induction false} ChunksJoin(ms: seq<Match>, n: nat)
    requires n > 0
    ensures Joined(Chunks(ms, n)) == ms
    ensures forall i :: 0 <= i < |Chunks(ms, n)| ==> 0 < |Chunks(ms, n)[i]| <= n
    ensures forall i :: 0 <= i < |Chunks(ms, n)| - 1 ==> |Chunks(ms, n)[i]| == n
  {
    if |ms| <= n {
      JoinedCons(ms, []);
    } else {
      ChunksJoin(ms[n..], n);
      JoinedCons(ms[..n], Chunks(ms[n..], n));
      assert Joined(Chunks(ms, n)) == ms;
    }
  }

  lemma {:induction false} ChunkMembers(ms: seq<Match>, n: nat, chunk: seq<Match>)
    requires n > 0 && chunk in Chunks(ms, n)
    ensures forall m :: m in chunk ==> m in ms
  {
    if |ms| > n && chunk != ms[..n] {
      ChunkMembers(ms[n..], n, chunk);
    }
  }

  /** The full orders of a round's matches, taken before any fill is applied. */
  function Snapshot(ms: seq<Match>, orders: Orders): Orders {
    map id | id in orders && exists m :: m in ms && (m.bid.orderId == id || m.ask.orderId == id) :: orders[id]
  }

  datatype RowsError = OrderMissing | PairMissing

  /** `build_settlement_matches`: one row per match, or the first failure. */
  function LiveRows(ms: seq<Match>, orders: Orders, pairs: map<string, PairConfig>): Result<seq<SettlementRow>, RowsError> {
    if ms == [] then Ok([])
    else
      var m := ms[|ms| - 1];
      match LiveRows(ms[..|ms| - 1], orders, pairs)
      case Err(e) => Err(e)
      case Ok(rows) =>
        match SettlementRowOf(m, orders, pairs)
        case Some(row) => Ok(rows + [row])
        case None => Err(if m.bid.orderId in orders && m.ask.orderId in orders then PairMissing else OrderMissing)
  }

  predicate FindsBoth(m: Match, orders: Orders) {
    m.bid.orderId in orders && m.ask.orderId in orders
  }

  predicate Resolvable(m: Match, orders: Orders, pairs: map<string, PairConfig>) {
    FindsBoth(m, orders) && orders[m.bid.orderId].pair in pairs
  }

  /** Rows are built exactly if every match finds its two orders and their pair. */
  lemma {:induction false} LiveRowsExactly(ms: seq<Match>, orders: Orders, pairs: map<string, PairConfig>)
    ensures LiveRows(ms, orders, pairs).Ok? <==> forall i :: 0 <= i < |ms| ==> Resolvable(ms[i], orders, pairs)
  {
    if ms != [] {
      var n := |ms| - 1;
      LiveRowsExactly(ms[..n], orders, pairs);
      if forall i :: 0 <= i < |ms| ==> Resolvable(ms[i], orders, pairs) {
        assert forall i :: 0 <= i < n ==> Resolvable(ms[..n][i], orders, pairs);
      }
      if forall i :: 0 <= i < n ==> Resolvable(ms[..n][i], orders, pairs) {
        assert forall i :: 0 <= i < n ==> ms[..n][i] == ms[i];
      }
    }
  }

  /** Otherwise the first match that does not is reported. */
  lemma {:induction false} LiveRowsReport(ms: seq<Match>, orders: Orders, pairs: map<string, PairConfig>) returns (i: nat)
    requires LiveRows(ms, orders, pairs).Err?
    ensures i < |ms| && !Resolvable(ms[i], orders, pairs) && LiveRows(ms[..i], orders, pairs).Ok?
    ensures LiveRows(ms, orders, pairs).error == if FindsBoth(ms[i], orders) then PairMissing else OrderMissing
  {
    i := |ms| - 1;
    if LiveRows(ms[..i], orders, pairs).Err? {
      var n := i;
      i := LiveRowsReport(ms[..n], orders, pairs);
      assert ms[..n][..i] == ms[..i];
    }
  }

  /** The row settles the match: its price and size, the pair's tokens, and the two different traders. */
  predicate Settles(row: SettlementRow, m: Match, orders: Orders, cfg: PairConfig) {
    && row.bidOrderId == m.bid.orderId && row.askOrderId == m.ask.orderId
    && row.bidOrderId in orders && row.askOrderId in orders
    && row.bidTrader == orders[row.bidOrderId].trader && row.askTrader == orders[row.askOrderId].trader
    && row.bidTrader != row.askTrader
    && row.baseToken == cfg.baseToken && row.quoteToken == cfg.quoteToken
    && row.price == m.price && row.size == m.size
  }

  lemma RowSettles(m: Match, ms: seq<Match>, orders: Orders, pair: string, pairs: map<string, PairConfig>, cfg: PairConfig)
    requires m in ms && Pairs(orders, pair, m) && pair in pairs && SameButStatus(cfg, pairs[pair])
    ensures var row := SettlementRowOf(m, Snapshot(ms, orders), pairs); row.Some? && Settles(row.value, m, orders, cfg)
  {
  }

  lemma {:induction false} RowsSettle(chunk: seq<Match>, ms: seq<Match>, orders: Orders, pair: string,
                                      pairs: map<string, PairConfig>, cfg: PairConfig)
    requires forall m :: m in chunk ==> m in ms && Pairs(orders, pair, m)
    requires pair in pairs && SameButStatus(cfg, pairs[pair])
    ensures var rows := LiveRows(chunk, Snapshot(ms, orders), pairs);
            && rows.Ok? && |rows.value| == |chunk|
            && (forall i :: 0 <= i < |chunk| ==> Settles(rows.value[i], chunk[i], orders, cfg))
            && rows.value == RowsOf(chunk, Snapshot(ms, orders), pairs)
  {
    if chunk != [] {
      var n := |chunk| - 1;
      RowsSettle(chunk[..n], ms, orders, pair, pairs, cfg);
      RowSettles(chunk[n], ms, orders, pair, pairs, cfg);
    }
  }

  /**
    Every chunk of every round resolves to one settlement row per match, at the clearing price, with the
    tokens of the pair as registered, whatever has happened to the pair's status since the round.
   */
  lemma ChunkSettles(k: Core, last: nat, pair: string, auctionId: Id, r: AuctionResult, n: nat, chunk: seq<Match>,
                     pairs: map<string, PairConfig>)
    requires Healthy(k, last) && IsActive(k, pair) && Round(k.orders, pair, auctionId) == Some(r)
    requires n > 0 && chunk in Chunks(r.matches, n)
    requires pair in pairs && SameButStatus(k.pairs[pair], pairs[pair])
    ensures var rows := LiveRows(chunk, Snapshot(r.matches, k.orders), pairs);
            && rows.Ok? && |rows.value| == |chunk|
            && (forall i :: 0 <= i < |chunk| ==> Settles(rows.value[i], chunk[i], k.orders, k.pairs[pair]))
            && (forall i :: 0 <= i < |chunk| ==> rows.value[i].price == r.clearingPrice)
  {
    ChunkPairs(k, last, pair, auctionId, r, n, chunk);
    RowsSettle(chunk, r.matches, k.orders, pair, pairs, k.pairs[pair]);
  }

  lemma ChunkPairs(k: Core, last: nat, pair: string, auctionId: Id, r: AuctionResult, n: nat, chunk: seq<Match>)
    requires Healthy(k, last) && Round(k.orders, pair, auctionId) == Some(r) && n > 0 && chunk in Chunks(r.matches, n)
    ensures forall m :: m in chunk ==> m in r.matches && Pairs(k.orders, pair, m) && m.price == r.clearingPrice
  {
    RoundFits(k, last, pair, auctionId);
    ChunkMembers(r.matches, n, chunk);
  }

  // ---------------------------------------------------------------- chunked rounds on replay

  predicate NoMatchOf(es: seq<Event>, auctionId: Id) {
    forall i :: 0 <= i < |es| && es[i].data.OrderMatched? ==> es[i].data.auctionId != auctionId
  }

  lemma {:induction false} NothingClaimed(es: seq<Event>, auctionId: Id)
    requires NoBatchOf(es, auctionId)
    ensures Loose(es, auctionId) == MatchesIn(es, auctionId) && Claims(es, auctionId) == []
  {
    if es != [] {
      NothingClaimed(es[..|es| - 1], auctionId);
    }
  }

  /** On replay the first batch after a round claims the whole round, and later ones claim nothing. */
  lemma {:induction false} FirstBatchClaimsAll(round: seq<Event>, later: seq<Event>, auctionId: Id)
    requires NoBatchOf(round, auctionId) && NoMatchOf(later, auctionId)
    ensures var cs, left := Claims(round + later, auctionId), Loose(round + later, auctionId);
            if cs == [] then left == MatchesIn(round, auctionId)
            else left == [] && cs[0] == MatchesIn(round, auctionId) && forall i :: 0 < i < |cs| ==> cs[i] == []
  {
    if later == [] {
      assert round + later == round;
      NothingClaimed(round, auctionId);
    } else {
      var n := |later| - 1;
      FirstBatchClaimsAll(round, later[..n], auctionId);
      assert (round + later)[..|round + later| - 1] == round + later[..n];
    }
  }

  /** Replay rebuilds the batches of a round as they were submitted exactly when the round fitted into one. */
  lemma ChunkedRoundsRebuildExactly(round: seq<Event>, later: seq<Event>, auctionId: Id, n: nat)
    requires NoBatchOf(round, auctionId) && NoMatchOf(later, auctionId) && n > 0
    requires |Claims(round + later, auctionId)| == |Chunks(MatchesIn(round, auctionId), n)|
    ensures Claims(round + later, auctionId) == Chunks(MatchesIn(round, auctionId), n)
            <==> |MatchesIn(round, auctionId)| <= n
  {
    FirstBatchClaimsAll(round, later, auctionId);
  }
}
