/** The append-only event log as the engine uses it. */
module EventStore {
  import opened Types
  import opened Events
  import opened History
  import opened Checkpoint
  import opened System

  lemma {:induction false} AfterAfter(es: seq<Event>, a: nat, b: nat, m: nat)
    requires m == Max(a, b)
    ensures After(After(es, a), b) == After(es, m)
  {
    if es != [] {
      var n := |es| - 1;
      AfterAfter(es[..n], a, b, m);
      var kept := After(es[..n], a);
      if es[n].number > a {
        assert After(es, a) == kept + [es[n]] && (kept + [es[n]])[..|kept|] == kept;
      } else {
        assert After(es, a) == kept;
      }
    }
  }

  /** Compacting what is left of a log is compacting the log to the higher floor. */
  lemma {:induction false} CompactAgain(es: seq<Event>, floor: nat, before: nat, m: nat)
    requires before > 0 && m == Max(floor, before)
    ensures After(Kept(es, floor), before - 1) == Kept(es, m)
  {
    if floor > 0 {
      AfterAfter(es, floor - 1, before - 1, m - 1);
    }
  }

  lemma KeptSnoc(es: seq<Event>, floor: nat, fs: seq<Event>)
    requires forall i :: 0 <= i < |fs| ==> fs[i].number >= floor
    ensures Kept(es + fs, floor) == Kept(es, floor) + fs
  {
    if floor > 0 {
      AfterConcat(es, fs, floor - 1);
    }
  }

  /** Newly stamped events keep the numbers climbing. */
  lemma StampNumbers(es: seq<Event>, data: seq<EventData>, counter: nat)
    requires Numbered(es, 0, counter)
    ensures Numbered(es + Stamp(data, counter), 0, counter + |data|)
  {
  }

  lemma BurnNumbers(es: seq<Event>, counter: nat, burned: nat)
    requires Numbered(es, 0, counter)
    ensures Numbered(es, 0, counter + burned)
  {
  }

  /** No number was ever handed out twice, and every event numbered `floor` or above is stored. */
  predicate Complete(events: seq<Event>, history: seq<Event>, floor: nat, counter: nat) {
    Numbered(history, 0, counter) && floor <= counter + 1 && events == Kept(history, floor)
  }

  lemma StampStaysComplete(events: seq<Event>, history: seq<Event>, floor: nat, data: seq<EventData>, counter: nat)
    requires Complete(events, history, floor, counter)
    ensures Complete(events + Stamp(data, counter), history + Stamp(data, counter), floor, counter + |data|)
  {
    StampNumbers(history, data, counter);
    KeptSnoc(history, floor, Stamp(data, counter));
  }

  lemma BurnStaysComplete(events: seq<Event>, history: seq<Event>, floor: nat, counter: nat, burned: nat)
    requires Complete(events, history, floor, counter)
    ensures Complete(events, history, floor, counter + burned)
  {
    BurnNumbers(history, counter, burned);
  }

  /** The last event ever appended is still stored, unless it is below the floor. */
  lemma LastKept(es: seq<Event>, floor: nat, last: nat)
    requires Numbered(es, 0, last) && (floor <= 1 || floor <= LastNumber(es))
    ensures LastNumber(Kept(es, floor)) == LastNumber(es) && Numbered(es, 0, LastNumber(es)) && floor <= LastNumber(es) + 1
  {
  }

  class EventStore {
    var events: seq<Event>
    var counter: nat
    ghost var history: seq<Event>
    ghost var floor: nat

    /** The numbers stored climb, and `counter` is at or beyond every one of them. */
    ghost predicate Valid()
      reads this
    {
      Numbered(events, 0, counter)
    }

    ghost predicate Whole()
      reads this
    {
      Valid() && Complete(events, history, floor, counter)
    }

    constructor ()
      ensures Whole() && history == [] && counter == 0 && floor == 0
    {
      events, counter, history, floor := [], 0, [], 0;
    }

    /** Numbers the events one by one. */
    method Number(data: seq<EventData>) returns (es: seq<Event>)
      modifies `counter
      ensures es == Stamp(data, old(counter)) && counter == old(counter) + |data|
    {
      es := [];
      for i := 0 to |data|
        invariant counter == old(counter) + i && es == Stamp(data, old(counter))[..i]
      {
        counter := counter + 1;
        es := es + [Event(counter, data[i])];
      }
      assert es == Stamp(data, old(counter));
    }

    /** Numbers the events and stores them, or fails, in which case some numbers may be used up. */
    method Append(data: seq<EventData>, outcome: Append) returns (stored: Option<seq<Event>>)
      requires Valid()
      modifies this
      ensures Valid() && floor == old(floor) && (old(Whole()) ==> Whole())
      ensures match outcome
              case Stored =>
                var es := Stamp(data, old(counter));
                && stored == Some(es) && events == old(events) + es && history == old(history) + es
                && counter == old(counter) + |data|
              case Lost(burned) =>
                && stored == None && events == old(events) && history == old(history)
                && counter == old(counter) + burned
    {
      if outcome.Lost? {
        BurnNumbers(events, counter, outcome.burned);
        if Whole() {
          BurnStaysComplete(events, history, floor, counter, outcome.burned);
        }
        counter := counter + outcome.burned;
        return None;
      }
      StampNumbers(events, data, counter);
      if Whole() {
        StampStaysComplete(events, history, floor, data, counter);
      }
      var es := Number(data);
      events, history := events + es, history + es;
      stored := Some(es);
    }

    /** The first event numbered above `after`, by binary search. */
    method IndexAfter(after: nat) returns (k: nat)
      requires Valid()
      ensures Cut(events, k, after)
    {
      if after == 0 {
        return 0;
      }
      var hi := |events|;
      k := 0;
      while k < hi
        invariant 0 <= k <= hi <= |events|
        invariant forall i :: 0 <= i < k ==> events[i].number <= after
        invariant forall i :: hi <= i < |events| ==> events[i].number > after
      {
        var mid := (k + hi) / 2;
        if events[mid].number <= after {
          k := mid + 1;
        } else {
          hi := mid;
        }
      }
    }

    /** Up to `limit` of the events numbered above `after`. */
    method ReadFrom(after: nat, limit: nat) returns (batch: seq<Event>)
      requires Valid() && limit > 0
      ensures batch == After(events, after)[..Min(limit, |After(events, after)|)]
    {
      var k := IndexAfter(after);
      AfterIsTail(events, k, after);
      batch := events[k..][..Min(limit, |events| - k)];
    }

    /** Discards the events numbered below `before`. */
    method CompactBefore(before: nat)
      requires Valid()
      modifies this
      ensures Valid() && events == Kept(old(events), before) && counter == old(counter)
      ensures history == old(history) && floor == Max(old(floor), before)
      ensures old(Whole()) && before <= counter + 1 ==> Whole()
    {
      if before == 0 {
        return;
      }
      var kept := [];
      for i := 0 to |events|
        invariant kept == After(events[..i], before - 1)
        invariant events == old(events) && history == old(history) && counter == old(counter) && floor == old(floor)
      {
        if events[i].number >= before {
          kept := kept + [events[i]];
        }
        assert events[..i + 1][..i] == events[..i];
      }
      assert events[..|events|] == events;
      CompactAgain(history, floor, before, Max(floor, before));
      KeptIsHigh(events, before, counter);
      events := kept;
      floor := Max(floor, before);
    }

    /** Opening the store again after a crash: numbering resumes after the last event still stored. */
    method Reopen()
      requires Valid()
      modifies this
      ensures Valid() && history == old(history) && floor == old(floor) && events == old(events)
      ensures counter == LastNumber(events)
      ensures old(Whole()) && (floor <= 1 || floor <= LastNumber(history)) ==> Whole()
    {
      if Whole() && (floor <= 1 || floor <= LastNumber(history)) {
        LastKept(history, floor, counter);
      }
      counter := if events == [] then 0 else events[|events| - 1].number;
    }
  }
}
