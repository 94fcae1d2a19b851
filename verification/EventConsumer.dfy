/** Applying index update events: retry with bounded backoff, deduplication by
    event id, and dead letters for reads that keep failing. */
module EventConsumer {
  import opened Registry
  import opened IndexStore
  import opened ObjectStore
  import Reconciliation

  datatype Event = Event(id: string, key: Key)

  datatype DeadLetter = DeadLetter(event: Event, attempts: nat)

  datatype Outcome = Skipped | Applied(attempts: nat) | DeadLettered

  /** Attempt `n` succeeds when the tag exists and no read fails. */
  predicate Succeeds(tags: map<Key, Record>, e: Event, readFails: nat -> bool, n: nat) {
    e.key in tags && !readFails(n)
  }

  function Power2(n: nat): nat {
    if n == 0 then 1 else 2 * Power2(n - 1)
  }

  function AtMost(x: real, cap: real): (r: real)
    ensures r <= cap
  {
    if x < cap then x else cap
  }

  /** Exponential backoff, capped, before jitter. */
  function Backoff(base: real, cap: real, attempt: nat): (delay: real)
    requires attempt >= 1
    ensures delay <= cap
  {
    AtMost(base * Power2(attempt - 1) as real, cap)
  }

  /** The first wait is the base, each further one doubles the one before, all capped. */
  lemma BackoffDoubles(base: real, cap: real, attempt: nat)
    requires base >= 0.0 && cap >= 0.0 && attempt >= 1
    ensures Backoff(base, cap, 1) == AtMost(base, cap)
    ensures Backoff(base, cap, attempt + 1) == AtMost(Backoff(base, cap, attempt) + Backoff(base, cap, attempt), cap)
  {
    var factor := Power2(attempt - 1) as real;
    assert Power2(attempt) as real == factor + factor;
    assert base * (factor + factor) == base * factor + base * factor;
  }

  class IndexEventConsumer {
    const index: InMemoryIndex
    const store: LocalFilesystemStore
    const maxRetries: nat
    const backoffBase: real
    const backoffMax: real
    var appliedEventIds: set<string>
    var deadLetters: seq<DeadLetter>

    constructor (index: InMemoryIndex, store: LocalFilesystemStore, maxRetries: nat, backoffBase: real, backoffMax: real)
      ensures this.index == index && this.store == store && this.maxRetries == maxRetries
      ensures this.backoffBase == backoffBase && this.backoffMax == backoffMax
      ensures appliedEventIds == {} && deadLetters == []
    {
      this.index, this.store, this.maxRetries := index, store, maxRetries;
      this.backoffBase, this.backoffMax := backoffBase, backoffMax;
      appliedEventIds, deadLetters := {}, [];
    }

    ghost function State(): ConsumerState
      reads this, index
    {
      ConsumerState(index.Contents, appliedEventIds, deadLetters)
    }

    /** `jitter` is the random share of the base delay added after each failure. */
    method Apply(event: Event, readFails: nat -> bool, jitter: nat -> real)
      returns (outcome: Outcome, delays: seq<real>)
      requires index.Valid() && store.Valid()
      requires backoffBase >= 0.0 && forall n :: 0.0 <= jitter(n) <= backoffBase
      modifies this, index
      ensures index.Valid()
      ensures State() == AfterEvent(old(State()), store.Snapshot(), event, maxRetries, readFails)
      ensures outcome.Skipped? <==> event.id in old(appliedEventIds)
      ensures outcome.Applied? <==> event.id !in old(appliedEventIds) && EverSucceeds(store.tags, event, maxRetries, readFails)
      ensures outcome.Applied? ==> 1 <= outcome.attempts <= maxRetries && Succeeds(store.tags, event, readFails, outcome.attempts)
                                   && forall n :: 1 <= n < outcome.attempts ==> !Succeeds(store.tags, event, readFails, n)
      ensures outcome.DeadLettered? ==> |deadLetters| == |old(deadLetters)| + 1
      ensures |delays| == (if outcome.Applied? then outcome.attempts - 1
                           else if outcome.Skipped? || maxRetries == 0 then 0 else maxRetries - 1)
      ensures forall i :: 0 <= i < |delays| ==> delays[i] <= backoffMax + backoffBase
      ensures forall i :: 0 <= i < |delays| ==>
                delays[i] == Backoff(backoffBase, backoffMax, i + 1) + jitter(i + 1)
    {
      hide InMemoryIndex.Valid, Power2;
      delays := [];
      if event.id in appliedEventIds {
        return Skipped, delays;
      }
      for attempt := 1 to maxRetries + 1
        invariant index.Valid() && State() == old(State())
        invariant forall n :: 1 <= n < attempt ==> !Succeeds(store.tags, event, readFails, n)
        invariant |delays| == (if attempt - 1 < maxRetries then attempt - 1 else if maxRetries == 0 then 0 else maxRetries - 1)
        invariant forall i :: 0 <= i < |delays| ==> delays[i] == Backoff(backoffBase, backoffMax, i + 1) + jitter(i + 1)
      {
        if Succeeds(store.tags, event, readFails, attempt) {
          var entry := Reconciliation.ReadEntry(store, event.key);
          index.Put(entry);
          appliedEventIds := appliedEventIds + {event.id};
          return Applied(attempt), delays;
        }
        if attempt < maxRetries {
          delays := delays + [Backoff(backoffBase, backoffMax, attempt) + jitter(attempt)];
        }
      }
      deadLetters := deadLetters + [DeadLetter(event, maxRetries)];
      outcome := DeadLettered;
    }

    /** Drains a batch of events; an event that fails does not stop the later ones. */
    method ConsumeAll(events: seq<Event>, readFails: seq<nat -> bool>, jitter: nat -> real)
      requires |readFails| == |events|
      requires index.Valid() && store.Valid()
      requires backoffBase >= 0.0 && forall n :: 0.0 <= jitter(n) <= backoffBase
      modifies this, index
      ensures index.Valid()
      ensures State() == AfterEvents(old(State()), store.Snapshot(), events, maxRetries, readFails)
    {
      hide InMemoryIndex.Valid, AfterEvent;
      for i := 0 to |events|
        invariant index.Valid()
        invariant State() == AfterEvents(old(State()), store.Snapshot(), events[..i], maxRetries, readFails[..i])
      {
        assert events[..i + 1][..i] == events[..i] && readFails[..i + 1][..i] == readFails[..i];
        var outcome, delays := Apply(events[i], readFails[i], jitter);
      }
      assert events[..|events|] == events && readFails[..|readFails|] == readFails;
    }
  }

  datatype ConsumerState = ConsumerState(index: Index, applied: set<string>, dead: seq<DeadLetter>)

  ghost predicate EverSucceeds(tags: map<Key, Record>, e: Event, maxRetries: nat, readFails: nat -> bool) {
    exists n :: 1 <= n <= maxRetries && Succeeds(tags, e, readFails, n)
  }

  ghost function AfterEvent(s: ConsumerState, storage: Storage, e: Event, maxRetries: nat, readFails: nat -> bool): ConsumerState {
    if e.id in s.applied then s
    else if EverSucceeds(storage.tags, e, maxRetries, readFails) then
      assert e.key in storage.tags by {
        var n :| 1 <= n <= maxRetries && Succeeds(storage.tags, e, readFails, n);
      }
      s.(index := s.index[e.key := storage.ViewOf(e.key)], applied := s.applied + {e.id})
    else s.(dead := s.dead + [DeadLetter(e, maxRetries)])
  }

  ghost function AfterEvents(s: ConsumerState, storage: Storage, events: seq<Event>, maxRetries: nat,
                             readFails: seq<nat -> bool>): ConsumerState
    requires |readFails| == |events|
  {
    if events == [] then s
    else
      var n := |events| - 1;
      AfterEvent(AfterEvents(s, storage, events[..n], maxRetries, readFails[..n]), storage, events[n], maxRetries, readFails[n])
  }

  /** Event ids name what was published, so equal ids mean equal keys. */
  ghost predicate IdsNameKeys(events: seq<Event>) {
    forall i, j :: 0 <= i < |events| && 0 <= j < |events| && events[i].id == events[j].id ==> events[i].key == events[j].key
  }

  /** The `i`th delivery could be read and was not applied before the batch. */
  ghost predicate Delivers(s: ConsumerState, storage: Storage, events: seq<Event>, maxRetries: nat,
                           readFails: seq<nat -> bool>, i: int)
    requires |readFails| == |events|
  {
    && 0 <= i < |events| && events[i].id !in s.applied
    && EverSucceeds(storage.tags, events[i], maxRetries, readFails[i])
  }

  ghost function DeliveredIds(s: ConsumerState, storage: Storage, events: seq<Event>, maxRetries: nat,
                              readFails: seq<nat -> bool>): set<string>
    requires |readFails| == |events|
  {
    set i | 0 <= i < |events| && Delivers(s, storage, events, maxRetries, readFails, i) :: events[i].id
  }

  ghost function DeliveredKeys(s: ConsumerState, storage: Storage, events: seq<Event>, maxRetries: nat,
                               readFails: seq<nat -> bool>): set<Key>
    requires |readFails| == |events|
  {
    set i | 0 <= i < |events| && Delivers(s, storage, events, maxRetries, readFails, i) :: events[i].key
  }

  /** On a fixed store, any order, duplication and failure pattern leaves the
      index showing the storage view of exactly the keys with a readable delivery. */
  lemma {:induction false} BatchEffect(s: ConsumerState, storage: Storage, events: seq<Event>, maxRetries: nat,
                                       readFails: seq<nat -> bool>)
    requires |readFails| == |events| && IdsNameKeys(events)
    ensures var t := AfterEvents(s, storage, events, maxRetries, readFails);
            var keys := DeliveredKeys(s, storage, events, maxRetries, readFails);
            && t.applied == s.applied + DeliveredIds(s, storage, events, maxRetries, readFails)
            && t.index.Keys == s.index.Keys + keys
            && (forall k :: k in keys ==> k in storage.tags && t.index[k] == storage.ViewOf(k))
            && (forall k :: k in s.index && k !in keys ==> t.index[k] == s.index[k])
    decreases |events|
  {
    hide Storage.ViewOf, EverSucceeds, DeliveredIds, DeliveredKeys;
    if events == [] {
      NothingDelivered(s, storage, maxRetries);
    } else {
      var n := |events| - 1;
      var front, fails := events[..n], readFails[..n];
      BatchEffect(s, storage, front, maxRetries, fails);
      var mid := AfterEvents(s, storage, front, maxRetries, fails);
      LastDelivery(s, storage, events, maxRetries, readFails);
      DuplicateWasDelivered(s, storage, events, maxRetries, readFails);
      ReadableHasTag(storage.tags, events[n], maxRetries, readFails[n]);
    }
  }

  lemma NothingDelivered(s: ConsumerState, storage: Storage, maxRetries: nat)
    ensures DeliveredIds(s, storage, [], maxRetries, []) == {} && DeliveredKeys(s, storage, [], maxRetries, []) == {}
  {
  }

  /** An id that an earlier delivery applied stands for a key delivered before. */
  lemma DuplicateWasDelivered(s: ConsumerState, storage: Storage, events: seq<Event>, maxRetries: nat, readFails: seq<nat -> bool>)
    requires |readFails| == |events| > 0 && IdsNameKeys(events)
    ensures var n := |events| - 1;
            events[n].id in DeliveredIds(s, storage, events[..n], maxRetries, readFails[..n]) ==>
              events[n].key in DeliveredKeys(s, storage, events[..n], maxRetries, readFails[..n])
  {
    hide EverSucceeds;
    var n := |events| - 1;
    var front, fails := events[..n], readFails[..n];
    if events[n].id in DeliveredIds(s, storage, front, maxRetries, fails) {
      var i :| 0 <= i < n && Delivers(s, storage, front, maxRetries, fails, i) && front[i].id == events[n].id;
      assert events[i].key == events[n].key;
      assert front[i].key in DeliveredKeys(s, storage, front, maxRetries, fails);
    }
  }

  lemma ReadableHasTag(tags: map<Key, Record>, e: Event, maxRetries: nat, readFails: nat -> bool)
    ensures EverSucceeds(tags, e, maxRetries, readFails) ==> e.key in tags
  {
  }

  lemma LastDelivery(s: ConsumerState, storage: Storage, events: seq<Event>, maxRetries: nat, readFails: seq<nat -> bool>)
    requires |readFails| == |events| > 0
    ensures var n := |events| - 1;
            var front, fails := events[..n], readFails[..n];
            var last := Delivers(s, storage, events, maxRetries, readFails, n);
            && DeliveredIds(s, storage, events, maxRetries, readFails)
               == DeliveredIds(s, storage, front, maxRetries, fails) + (if last then {events[n].id} else {})
            && DeliveredKeys(s, storage, events, maxRetries, readFails)
               == DeliveredKeys(s, storage, front, maxRetries, fails) + (if last then {events[n].key} else {})
  {
    hide EverSucceeds;
    var n := |events| - 1;
    var front, fails := events[..n], readFails[..n];
    forall i | 0 <= i < n
      ensures Delivers(s, storage, events, maxRetries, readFails, i) <==> Delivers(s, storage, front, maxRetries, fails, i)
      ensures front[i] == events[i]
    {
    }
  }

  /** Two batches that deliver the same keys, in whatever order and however
      often, end in the same index. */
  lemma OrderAndDuplicatesDoNotMatter(s: ConsumerState, storage: Storage, maxRetries: nat,
                                      events: seq<Event>, readFails: seq<nat -> bool>,
                                      others: seq<Event>, otherFails: seq<nat -> bool>)
    requires |readFails| == |events| && IdsNameKeys(events)
    requires |otherFails| == |others| && IdsNameKeys(others)
    requires DeliveredKeys(s, storage, events, maxRetries, readFails) == DeliveredKeys(s, storage, others, maxRetries, otherFails)
    ensures AfterEvents(s, storage, events, maxRetries, readFails).index
            == AfterEvents(s, storage, others, maxRetries, otherFails).index
  {
    hide AfterEvents, DeliveredKeys, Storage.ViewOf;
    BatchEffect(s, storage, events, maxRetries, readFails);
    BatchEffect(s, storage, others, maxRetries, otherFails);
  }

  /** Nothing is lost: a delivery that is neither applied nor skipped is a dead letter. */
  lemma {:induction false} NothingIsLost(s: ConsumerState, storage: Storage, events: seq<Event>, maxRetries: nat,
                                         readFails: seq<nat -> bool>, i: nat)
    requires |readFails| == |events| && i < |events|
    ensures var t := AfterEvents(s, storage, events, maxRetries, readFails);
            && s.dead <= t.dead
            && (events[i].id in t.applied || DeadLetter(events[i], maxRetries) in t.dead)
    decreases |events|
  {
    hide EverSucceeds, Storage.ViewOf;
    var n := |events| - 1;
    if i < n {
      NothingIsLost(s, storage, events[..n], maxRetries, readFails[..n], i);
    } else {
      DeadLettersOnlyGrow(s, storage, events[..n], maxRetries, readFails[..n]);
    }
    var mid := AfterEvents(s, storage, events[..n], maxRetries, readFails[..n]);
    var t := AfterEvents(s, storage, events, maxRetries, readFails);
    assert t.dead == mid.dead || t.dead == mid.dead + [DeadLetter(events[n], maxRetries)];
    assert forall d :: d in mid.dead ==> d in t.dead;
    if t.dead == mid.dead + [DeadLetter(events[n], maxRetries)] {
      assert t.dead[|mid.dead|] == DeadLetter(events[n], maxRetries);
    }
  }

  lemma {:induction false} DeadLettersOnlyGrow(s: ConsumerState, storage: Storage, events: seq<Event>, maxRetries: nat,
                                               readFails: seq<nat -> bool>)
    requires |readFails| == |events|
    ensures s.dead <= AfterEvents(s, storage, events, maxRetries, readFails).dead
    decreases |events|
  {
    hide EverSucceeds, Storage.ViewOf;
    if events != [] {
      DeadLettersOnlyGrow(s, storage, events[..|events| - 1], maxRetries, readFails[..|events| - 1]);
    }
  }
}
