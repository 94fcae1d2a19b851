/** Every handler, left alone, reaches its end, and what its replica then shows: the
    put of a publish, a yank, a governance change or an event really comes. */
module Completion {
  import opened Registry
  import opened Replication
  import Convergence

  lemma RunTwo(s: State, a: Step, b: Step)
    ensures Run(s, [a, b]) == Do(Do(s, a), b)
  {
    hide Do;
    RunOneMore(s, [], a);
    RunOneMore(s, [a], b);
    assert [] + [a] == [a] && [a] + [b] == [a, b];
  }

  /** The index of one replica with one entry put. */
  function WithPut(s: State, r: nat, k: Key, e: Entry): map<nat, Index>
    requires r in s.indexes
  {
    s.indexes[r := s.indexes[r][k := e]]
  }

  lemma PublishStarts(s: State, tid: nat, r: nat, record: Record, release: bool)
    requires r in s.indexes && tid !in s.handlers && (record.Coordinates() !in s.storage.tags || release)
    ensures var k := record.Coordinates();
            var t := Do(s, Publish(tid, r, record, release));
            && t.storage.tags == (if k in s.storage.tags then s.storage.tags else s.storage.tags[k := record])
            && t == s.(storage := s.storage.(tags := t.storage.tags), handlers := s.handlers[tid := Handler(r, TagStored(k))])
  {
  }

  lemma PublishEnds(s: State, tid: nat, r: nat, k: Key)
    requires r in s.indexes && k in s.storage.tags && s.storage.tags[k].Coordinates() == k
    requires tid in s.handlers && s.handlers[tid] == Handler(r, TagStored(k))
    ensures var a := Advance(tid, k);
            Do(Do(s, a), a) == s.(indexes := WithPut(s, r, k, Parsed(s.storage.tags[k])), handlers := s.handlers[tid := Handler(r, Finished)])
  {
    var a := Advance(tid, k);
    assert Do(s, a) == At(s, tid, r, TagRead(s.storage.tags[k]));
  }

  /** A publish of a new version, or a release of any, ends with the stored record
      shown without sidecars. */
  lemma PublishCompletes(s: State, tid: nat, r: nat, record: Record, release: bool) returns (steps: seq<Step>)
    requires s.storage.Filed() && r in s.indexes && tid !in s.handlers && (record.Coordinates() !in s.storage.tags || release)
    ensures steps != [] && steps[0] == Publish(tid, r, record, release)
    ensures forall i :: 1 <= i < |steps| ==> steps[i].Advance? && steps[i].tid == tid
    ensures var k := record.Coordinates();
            var t := Run(s, steps);
            && t.storage.tags == (if k in s.storage.tags then s.storage.tags else s.storage.tags[k := record])
            && t == s.(storage := s.storage.(tags := t.storage.tags), indexes := WithPut(s, r, k, Parsed(t.storage.tags[k])),
                       handlers := s.handlers[tid := Handler(r, Finished)])
  {
    hide Do;
    var k := record.Coordinates();
    var a := Advance(tid, k);
    steps := [Publish(tid, r, record, release), a, a];
    Convergence.RunThree(s, steps[0], a, a);
    PublishStarts(s, tid, r, record, release);
    PublishEnds(Do(s, steps[0]), tid, r, k);
  }

  lemma StatusSteps(s: State, tid: nat, r: nat, k: Key, status: Status)
    requires r in s.indexes && k in s.indexes[r] && s.indexes[r][k].Coordinates() == k && tid !in s.handlers
    ensures var a := Advance(tid, k);
            Do(Do(Do(s, SetStatus(tid, r, k, status)), a), a)
            == s.(storage := s.storage.(statuses := s.storage.statuses[k := status]), statusesStored := s.statusesStored + {(k, status)},
                  indexes := WithPut(s, r, k, s.indexes[r][k].(status := status)), handlers := s.handlers[tid := Handler(r, Finished)])
  {
    var e, a := s.indexes[r][k], Advance(tid, k);
    var s1 := Do(s, SetStatus(tid, r, k, status));
    assert s1 == At(s, tid, r, StatusChosen(e, status));
    assert Do(s1, a) == At(StoreStatus(s, k, status), tid, r, StatusStored(e, status));
  }

  /** A yank or unyank of a shown version ends with the status stored and the entry
      seen at the start shown with it. */
  lemma StatusCompletes(s: State, tid: nat, r: nat, k: Key, status: Status) returns (steps: seq<Step>)
    requires Safe(s) && r in s.indexes && k in s.indexes[r] && tid !in s.handlers
    ensures steps != [] && steps[0] == SetStatus(tid, r, k, status)
    ensures forall i :: 1 <= i < |steps| ==> steps[i].Advance? && steps[i].tid == tid
    ensures Run(s, steps)
            == s.(storage := s.storage.(statuses := s.storage.statuses[k := status]), statusesStored := s.statusesStored + {(k, status)},
                  indexes := WithPut(s, r, k, s.indexes[r][k].(status := status)), handlers := s.handlers[tid := Handler(r, Finished)])
  {
    hide Do, Safe;
    var a := Advance(tid, k);
    steps := [SetStatus(tid, r, k, status), a, a];
    Convergence.RunThree(s, steps[0], a, a);
    ShownIsLegit(s, r, k);
    StatusSteps(s, tid, r, k, status);
  }

  lemma EventReads(s: State, tid: nat, r: nat, k: Key)
    requires s.storage.Filed() && r in s.indexes && k in s.storage.tags && tid !in s.handlers
    ensures var a := Advance(tid, k);
            Do(Do(Do(s, TakeEvent(tid, r, k)), a), a)
            == At(s, tid, r, EventStatusRead(ApplyStatus(Parsed(s.storage.tags[k]), s.storage.StatusOf(k))))
  {
    var a := Advance(tid, k);
    var s1 := Do(s, TakeEvent(tid, r, k));
    assert s1 == At(s, tid, r, EventTaken(k));
    assert Do(s1, a) == At(s, tid, r, EventTagRead(Parsed(s.storage.tags[k])));
  }

  lemma EventPuts(s: State, tid: nat, r: nat, k: Key)
    requires s.storage.Filed() && r in s.indexes && k in s.storage.tags
    requires tid in s.handlers
             && s.handlers[tid] == Handler(r, EventStatusRead(ApplyStatus(Parsed(s.storage.tags[k]), s.storage.StatusOf(k))))
    ensures var a := Advance(tid, k);
            Do(Do(s, a), a) == s.(indexes := WithPut(s, r, k, s.storage.ViewOf(k)), handlers := s.handlers[tid := Handler(r, Finished)])
  {
    var a := Advance(tid, k);
    assert Do(s, a) == At(s, tid, r, EventReady(s.storage.ViewOf(k)));
  }

  /** An event for a stored version ends with what storage prescribes shown. */
  lemma EventCompletes(s: State, tid: nat, r: nat, k: Key) returns (steps: seq<Step>)
    requires s.storage.Filed() && r in s.indexes && k in s.storage.tags && tid !in s.handlers
    ensures steps != [] && steps[0] == TakeEvent(tid, r, k)
    ensures forall i :: 1 <= i < |steps| ==> steps[i].Advance? && steps[i].tid == tid
    ensures Run(s, steps)
            == s.(indexes := WithPut(s, r, k, s.storage.ViewOf(k)), handlers := s.handlers[tid := Handler(r, Finished)])
  {
    hide Do, Storage.ViewOf;
    var a := Advance(tid, k);
    var first, last := [TakeEvent(tid, r, k), a, a], [a, a];
    steps := first + last;
    Convergence.RunThree(s, first[0], a, a);
    EventReads(s, tid, r, k);
    RunInTwoParts(s, first, last);
    RunTwo(Run(s, first), a, a);
    EventPuts(Run(s, first), tid, r, k);
  }

  /** One replica shows the record over the given versions of a skill, and every other
      entry as before; nothing else has changed but that the handler is done. */
  ghost predicate Governed(s: State, t: State, tid: nat, r: nat, id: string, left: set<string>, g: Governance)
    requires r in s.indexes
  {
    && r in t.indexes && t.indexes[r].Keys == s.indexes[r].Keys
    && (forall k :: k in s.indexes[r] ==>
          t.indexes[r][k] == if k.id == id && k.version in left then s.indexes[r][k].(governance := g) else s.indexes[r][k])
    && t == s.(indexes := s.indexes[r := t.indexes[r]], handlers := s.handlers[tid := Handler(r, Finished)])
  }

  ghost predicate FiledAt(s: State, r: nat) {
    r in s.indexes && forall k :: k in s.indexes[r] ==> s.indexes[r][k].Coordinates() == k
  }

  lemma GovernOne(s: State, tid: nat, r: nat, id: string, g: Governance, left: set<string>, v: string)
    requires FiledAt(s, r) && v in left && Key(id, v) in s.indexes[r]
    requires tid in s.handlers && s.handlers[tid] == Handler(r, Governing(id, g, left))
    ensures var a := Advance(tid, Key(id, v));
            Do(Do(s, a), a)
            == s.(indexes := WithPut(s, r, Key(id, v), s.indexes[r][Key(id, v)].(governance := g)),
                  handlers := s.handlers[tid := Handler(r, Governing(id, g, left - {v}))])
  {
    var a, k := Advance(tid, Key(id, v)), Key(id, v);
    assert Do(s, a) == At(s, tid, r, GovernedVersion(id, g, left - {v}, s.indexes[r][k]));
  }

  lemma {:induction false} GovernRest(s: State, tid: nat, r: nat, id: string, g: Governance, left: set<string>) returns (steps: seq<Step>)
    requires FiledAt(s, r) && forall v :: v in left ==> Key(id, v) in s.indexes[r]
    requires tid in s.handlers && s.handlers[tid] == Handler(r, Governing(id, g, left))
    ensures forall i :: 0 <= i < |steps| ==> steps[i].Advance? && steps[i].tid == tid
    ensures Governed(s, Run(s, steps), tid, r, id, left, g)
    decreases left
  {
    if left == {} {
      steps := [Advance(tid, Key(id, ""))];
      RunOneMore(s, [], steps[0]);
      assert [] + [steps[0]] == steps;
      assert s.indexes[r := s.indexes[r]] == s.indexes;
    } else {
      hide Do;
      var v :| v in left;
      var a := Advance(tid, Key(id, v));
      GovernOne(s, tid, r, id, g, left, v);
      RunTwo(s, a, a);
      var t := Run(s, [a, a]);
      var rest := GovernRest(t, tid, r, id, g, left - {v});
      steps := [a, a] + rest;
      RunInTwoParts(s, [a, a], rest);
      GovernedTogether(s, t, Run(s, steps), tid, r, id, g, left, v);
    }
  }

  lemma GovernedTogether(s: State, t: State, u: State, tid: nat, r: nat, id: string, g: Governance, left: set<string>, v: string)
    requires r in s.indexes && v in left && Key(id, v) in s.indexes[r]
    requires t == s.(indexes := WithPut(s, r, Key(id, v), s.indexes[r][Key(id, v)].(governance := g)),
                     handlers := s.handlers[tid := Handler(r, Governing(id, g, left - {v}))])
    requires Governed(t, u, tid, r, id, left - {v}, g)
    ensures Governed(s, u, tid, r, id, left, g)
  {
    forall k | k in s.indexes[r]
      ensures u.indexes[r][k] == if k.id == id && k.version in left then s.indexes[r][k].(governance := g) else s.indexes[r][k]
    {
      if k.id == id && k.version == v {
        assert k == Key(id, v);
      }
    }
  }

  lemma GovernanceStarts(s: State, tid: nat, r: nat, id: string, g: Governance)
    requires r in s.indexes && tid !in s.handlers
    ensures var versions := set k | k in s.indexes[r] && k.id == id :: k.version;
            Do(Do(s, SetGovernance(tid, r, id, g)), Advance(tid, Key(id, "")))
            == StoreGovernance(s, id, g).(handlers := s.handlers[tid := Handler(r, Governing(id, g, versions))])
  {
    var s1 := Do(s, SetGovernance(tid, r, id, g));
    assert s1 == At(StoreGovernance(s, id, g), tid, r, GovernanceStored(id, g));
  }

  /** A governance change ends with the record stored and shown on every version of
      the skill that the replica showed; all other entries stay. */
  lemma GovernanceCompletes(s: State, tid: nat, r: nat, id: string, g: Governance) returns (steps: seq<Step>)
    requires Safe(s) && r in s.indexes && tid !in s.handlers
    ensures steps != [] && steps[0] == SetGovernance(tid, r, id, g)
    ensures forall i :: 1 <= i < |steps| ==> steps[i].Advance? && steps[i].tid == tid
    ensures var t := Run(s, steps);
            && r in t.indexes && t.indexes[r].Keys == s.indexes[r].Keys
            && (forall k :: k in s.indexes[r] ==>
                  t.indexes[r][k] == if k.id == id then s.indexes[r][k].(governance := g) else s.indexes[r][k])
            && t == s.(storage := s.storage.(governance := s.storage.governance[id := g]), governanceStored := s.governanceStored + {(id, g)},
                       indexes := s.indexes[r := t.indexes[r]], handlers := s.handlers[tid := Handler(r, Finished)])
  {
    hide Do;
    var first, second := SetGovernance(tid, r, id, g), Advance(tid, Key(id, ""));
    var versions := set k | k in s.indexes[r] && k.id == id :: k.version;
    GovernanceStarts(s, tid, r, id, g);
    RunTwo(s, first, second);
    var t := Run(s, [first, second]);
    ShownIsFiled(s, r);
    forall v | v in versions
      ensures Key(id, v) in t.indexes[r]
    {
      var k :| k in s.indexes[r] && k.id == id && k.version == v;
      assert k == Key(id, v);
    }
    var rest := GovernRest(t, tid, r, id, g, versions);
    steps := [first, second] + rest;
    RunInTwoParts(s, [first, second], rest);
  }

  lemma ShownIsFiled(s: State, r: nat)
    requires Safe(s) && r in s.indexes
    ensures FiledAt(s, r)
  {
    forall k | k in s.indexes[r]
      ensures s.indexes[r][k].Coordinates() == k
    {
      ShownIsLegit(s, r, k);
    }
  }

  lemma ReplicaStarts(s: State, tid: nat, r: nat)
    requires r !in s.indexes && tid !in s.handlers
    ensures Do(s, StartReplica(tid, r)) == At(s, tid, r, Harvesting(true, s.storage.tags.Keys, map[]))
  {
  }

  /** A replica that starts, left alone, goes live with the storage view. */
  lemma StartCompletes(s: State, tid: nat, r: nat) returns (steps: seq<Step>)
    requires s.storage.Filed() && r !in s.indexes && tid !in s.handlers
    ensures steps != [] && steps[0] == StartReplica(tid, r)
    ensures Run(s, steps) == s.(indexes := s.indexes[r := s.storage.View()], handlers := s.handlers[tid := Handler(r, Finished)])
  {
    hide Do, Storage.View, Convergence.Harvested;
    var start, last := StartReplica(tid, r), Advance(tid, Key("", ""));
    ReplicaStarts(s, tid, r);
    RunOneMore(s, [], start);
    assert [] + [start] == [start];
    var s1 := Run(s, [start]);
    Convergence.NothingHarvested(s.storage);
    var harvest := Convergence.HarvestRest(s1, tid, r, true, s.storage.tags.Keys, map[]);
    RunInTwoParts(s, [start], harvest);
    steps := [start] + harvest + [last];
    RunOneMore(s, [start] + harvest, last);
    var s2 := Run(s, [start] + harvest);
    Convergence.GoesLive(s2, tid, r, s.storage.View(), last.choice);
  }
}
