/** Each operation appends lawful events only, and updates the state exactly as replaying them would. */
module Refinement {
  import opened Types
  import opened Events
  import opened BookSpec
  import opened Projection
  import opened Legality
  import opened History
  import opened Operations

  /** The live state `s'` is what replaying `es` on top of `s` gives. */
  ghost predicate Refines(c: Codec, s: EngineState, es: seq<Event>, s': EngineState, last: nat) {
    && LawfulFrom(c, CoreOf(s), es)
    && FoldFrom(c, CoreOf(s), es) == Ok(CoreOf(s'))
    && s'.book.applied <= last + |es|
  }

  lemma SingleEvent(c: Codec, k: Core, e: Event)
    requires Lawful(c, k, e)
    ensures LawfulFrom(c, k, [e]) && FoldFrom(c, k, [e]) == Step(c, k, e)
  {
    assert [e][..0] == [];
    assert FoldFrom(c, k, [e][..0]) == Ok(k);
  }

  lemma StampNumbered(data: seq<EventData>, last: nat)
    ensures Numbered(Stamp(data, last), last, last + |data|)
  {
  }

  function RecordOf(d: EventData): AuctionRecord
    requires d.AuctionExecuted?
  {
    AuctionRecord(d.auctionId, d.pair, d.clearingPrice, d.matchedVolume, d.matchCount, d.timestamp)
  }

  // ---------------------------------------------------------------- cancels and expiries

  predicate Removes(es: seq<Event>, ids: seq<Id>) {
    && |ids| <= |es|
    && forall i :: 0 <= i < |ids| ==> es[i].data == OrderCancelled(ids[i]) || es[i].data == OrderExpired(ids[i])
  }

  function Set(ids: seq<Id>): set<Id> {
    set i | 0 <= i < |ids| :: ids[i]
  }

  lemma {:induction false} RemovalEffects(orders: Orders, es: seq<Event>, ids: seq<Id>, n: nat)
    requires Removes(es, ids) && n <= |ids|
    ensures Effects(orders, es[..n]) == orders - Set(ids[..n])
  {
    if n == 0 {
      assert es[..0] == [];
      assert orders - Set(ids[..0]) == orders;
    } else {
      RemovalEffects(orders, es, ids, n - 1);
      assert es[..n][..n - 1] == es[..n - 1];
      assert Set(ids[..n]) == Set(ids[..n - 1]) + {ids[n - 1]} by { SetSnoc(ids[..n - 1], ids[n - 1], ids[..n]); }
    }
  }

  lemma SetSnoc(a: seq<Id>, x: Id, b: seq<Id>)
    requires b == a + [x]
    ensures Set(b) == Set(a) + {x}
  {
    forall y | y in Set(a) + {x} ensures y in Set(b) {
      if y in Set(a) {
        var i :| 0 <= i < |a| && a[i] == y;
        assert b[i] == y;
      } else {
        assert b[|a|] == y;
      }
    }
  }

  /** Removing distinct resting orders one by one is lawful throughout. */
  lemma {:induction false} RemovalsLawful(c: Codec, k: Core, es: seq<Event>, ids: seq<Id>, n: nat)
    requires Removes(es, ids) && n <= |ids| && Enumerates(ids, Set(ids)) && Set(ids) <= k.orders.Keys
    ensures LawfulFrom(c, k, es[..n])
    ensures FoldFrom(c, k, es[..n]) == Ok(k.(orders := k.orders - Set(ids[..n])))
  {
    if n == 0 {
      assert es[..0] == [];
      assert k.orders - Set(ids[..0]) == k.orders;
    } else {
      var id := ids[n - 1];
      RemovalsLawful(c, k, es, ids, n - 1);
      assert es[..n][..n - 1] == es[..n - 1];
      SetSnoc(ids[..n - 1], id, ids[..n]);
      assert k.orders - Set(ids[..n]) == (k.orders - Set(ids[..n - 1])) - {id};
      assert id in Set(ids);
    }
  }

  // ---------------------------------------------------------------- the operations, one by one

  lemma RegisterRefines(c: Codec, s: EngineState, op: Operation, last: nat)
    requires ParsesCanonically(c) && op.Register? && Possible(c, CoreOf(s), op) && Plan(c, CoreOf(s), op).Ok?
    requires s.book.applied <= last
    ensures var es := Stamp(Plan(c, CoreOf(s), op).value, last); Refines(c, s, es, Commit(c, s, op, es), last)
  {
  }

  lemma SuspendRefines(c: Codec, s: EngineState, op: Operation, last: nat)
    requires ParsesCanonically(c) && op.Suspend? && Plan(c, CoreOf(s), op).Ok?
    requires s.book.applied <= last
    ensures var es := Stamp(Plan(c, CoreOf(s), op).value, last); Refines(c, s, es, Commit(c, s, op, es), last)
  {
  }

  lemma CancelRefines(c: Codec, s: EngineState, op: Operation, last: nat)
    requires op.Cancel? && Plan(c, CoreOf(s), op).Ok?
    requires s.book.applied <= last
    ensures var es := Stamp(Plan(c, CoreOf(s), op).value, last); Refines(c, s, es, Commit(c, s, op, es), last)
  {
  }

  lemma FinalizeRefines(c: Codec, s: EngineState, op: Operation, last: nat)
    requires op.Finalize?
    requires s.book.applied <= last
    ensures var es := Stamp(Plan(c, CoreOf(s), op).value, last); Refines(c, s, es, Commit(c, s, op, es), last)
  {
  }

  /** Replay numbers a rebuilt order by its event; nothing else depends on the number. */
  lemma RebuildRenumbers(c: Codec, p: Placement, number: nat)
    requires Prepared(c, p)
    ensures Rebuild(c, p.order.id, p.commitment, p.ciphertext, number)
            == Ok(Placed(p.order.(placedSeq := number), p.nullifier, p.nonceDigest))
  {
  }

  lemma PlaceRefines(c: Codec, s: EngineState, op: Operation, last: nat)
    requires op.Place? && Possible(c, CoreOf(s), op) && Plan(c, CoreOf(s), op).Ok?
    requires s.book.applied <= last
    ensures var es := Stamp(Plan(c, CoreOf(s), op).value, last); Refines(c, s, es, Commit(c, s, op, es), last)
  {
    var es := Stamp(Plan(c, CoreOf(s), op).value, last);
    assert es == [es[0]];
    RebuildRenumbers(c, op.p, es[0].number);
    SingleEvent(c, CoreOf(s), es[0]);
  }

  lemma EnumerationSet(ids: seq<Id>, t: set<Id>)
    requires Enumerates(ids, t)
    ensures Set(ids) == t
  {
  }

  lemma ExpireRefines(c: Codec, s: EngineState, op: Operation, last: nat)
    requires op.Expire? && Possible(c, CoreOf(s), op)
    requires s.book.applied <= last
    ensures var es := Stamp(Plan(c, CoreOf(s), op).value, last); Refines(c, s, es, Commit(c, s, op, es), last)
  {
    var k, ids := CoreOf(s), op.expiredIds;
    var es := Stamp(Plan(c, k, op).value, last);
    EnumerationSet(ids, ExpiredBy(k.orders, op.now));
    RemovalsLawful(c, k, es, ids, |ids|);
    RemovalEffects(k.orders, es, ids, |ids|);
    assert es[..|ids|] == es && ids[..|ids|] == ids;
    StampNumbered(Plan(c, k, op).value, last);
    FreshEventsApply(s.book, es, last + |es|);
  }

  /** Cancelling whatever rests on a pair, then delisting it. */
  lemma DelistEventsFold(c: Codec, k: Core, key: string, ids: seq<Id>, es: seq<Event>)
    requires Canonical(c, key) && key in k.pairs && k.pairs[key].status != Delisted && Enumerates(ids, OnPair(k.orders, key))
    requires Removes(es, ids) && |es| == |ids| + 1 && es[|ids|].data == PairDelisted(key)
    ensures LawfulFrom(c, k, es) && Effects(k.orders, es) == k.orders - Set(ids)
    ensures FoldFrom(c, k, es) == Ok(k.(orders := k.orders - Set(ids), pairs := WithStatus(k.pairs, key, Delisted)))
  {
    var n := |ids|;
    EnumerationSet(ids, OnPair(k.orders, key));
    RemovalsLawful(c, k, es, ids, n);
    RemovalEffects(k.orders, es, ids, n);
    assert ids[..n] == ids && es[..|es| - 1] == es[..n];
  }

  lemma DelistRefines(c: Codec, s: EngineState, op: Operation, last: nat)
    requires ParsesCanonically(c) && op.Delist? && Possible(c, CoreOf(s), op) && Plan(c, CoreOf(s), op).Ok?
    requires s.book.applied <= last
    ensures var es := Stamp(Plan(c, CoreOf(s), op).value, last); Refines(c, s, es, Commit(c, s, op, es), last)
  {
    var k := CoreOf(s);
    var es := Stamp(Plan(c, k, op).value, last);
    if es != [] {
      DelistEventsFold(c, k, c.parsePair(op.input).value, op.openIds, es);
      StampNumbered(Plan(c, k, op).value, last);
      FreshEventsApply(s.book, es, last + |es|);
    }
  }
}
