/** Usage counting: a counter per replica, drained into one shared counts file
    by a read-modify-write flush that is not atomic across replicas. */
module Usage {

  type Counts = map<string, nat>

  function CountOf(c: Counts, id: string): nat {
    if id in c then c[id] else 0
  }

  function Merged(a: Counts, b: Counts): Counts {
    map id | id in a.Keys + b.Keys :: CountOf(a, id) + CountOf(b, id)
  }

  class UsageFile {
    var counts: Counts

    constructor (counts: Counts)
      ensures this.counts == counts
    {
      this.counts := counts;
    }
  }

  class UsageCounter {
    var counts: Counts

    constructor ()
      ensures counts == map[]
    {
      counts := map[];
    }

    method Record(id: string)
      modifies this
      ensures counts == old(counts)[id := CountOf(old(counts), id) + 1]
    {
      counts := counts[id := CountOf(counts, id) + 1];
    }

    /** Hands out what was counted since the last drain, exactly once. */
    method Drain() returns (drained: Counts)
      modifies this
      ensures drained == old(counts) && counts == map[]
    {
      drained := counts;
      counts := map[];
    }
  }

  /** One uninterrupted flush moves every counted use into the file: nothing is
      lost and nothing is counted twice. */
  method FlushUsageCounts(counter: UsageCounter, file: UsageFile)
    modifies counter, file
    ensures counter.counts == map[]
    ensures forall id :: CountOf(file.counts, id) == CountOf(old(file.counts), id) + CountOf(old(counter.counts), id)
    ensures old(counter.counts) == map[] ==> file.counts == old(file.counts)
    ensures file.counts.Keys == old(file.counts.Keys) + old(counter.counts.Keys)
  {
    var delta := counter.Drain();
    if delta == map[] {
      return;
    }
    var current := file.counts;
    var rest := delta.Keys;
    while rest != {}
      invariant rest <= delta.Keys
      invariant current.Keys == file.counts.Keys + (delta.Keys - rest)
      invariant forall id :: CountOf(current, id) == CountOf(file.counts, id) + (if id in rest then 0 else CountOf(delta, id))
      decreases rest
    {
      var id :| id in rest;
      current := current[id := CountOf(current, id) + delta[id]];
      rest := rest - {id};
    }
    file.counts := current;
  }

  // Many replicas: each flush is a drain, a read and a write, interleaved freely.

  /** How far the flush of one replica has come. */
  datatype Flush = Idle | Drained(delta: Counts) | HasRead(delta: Counts, current: Counts)

  datatype Replica = Replica(counter: Counts, flush: Flush)

  /** `recorded` remembers every use that was ever recorded. */
  datatype State = State(replicas: seq<Replica>, durable: Counts, recorded: Counts)

  datatype Step =
    | RecordUse(replica: nat, id: string)
    | StartFlush(replica: nat)
    | ReadFile(replica: nat)
    | WriteFile(replica: nat)
    // A flush that raises loses what it had drained; a crash loses the counter too.
    | AbortFlush(replica: nat)
    | Restart(replica: nat)

  function Do(s: State, step: Step): State {
    if step.replica >= |s.replicas| then s
    else
      var r := s.replicas[step.replica];
      match step
      case RecordUse(i, id) =>
        s.(replicas := s.replicas[i := r.(counter := r.counter[id := CountOf(r.counter, id) + 1])],
           recorded := s.recorded[id := CountOf(s.recorded, id) + 1])
      case StartFlush(i) =>
        if r.flush != Idle || r.counter == map[] then s
        else s.(replicas := s.replicas[i := Replica(map[], Drained(r.counter))])
      case ReadFile(i) =>
        if !r.flush.Drained? then s
        else s.(replicas := s.replicas[i := r.(flush := HasRead(r.flush.delta, s.durable))])
      case WriteFile(i) =>
        if !r.flush.HasRead? then s
        else s.(replicas := s.replicas[i := r.(flush := Idle)], durable := Merged(r.flush.current, r.flush.delta))
      case AbortFlush(i) => s.(replicas := s.replicas[i := r.(flush := Idle)])
      case Restart(i) => s.(replicas := s.replicas[i := Replica(map[], Idle)])
  }

  function Run(s: State, steps: seq<Step>): State
    decreases |steps|
  {
    if steps == [] then s else Do(Run(s, steps[..|steps| - 1]), steps[|steps| - 1])
  }

  /** `n` fresh replicas over a file left by earlier runs. */
  function Started(n: nat, file: Counts): State {
    State(seq(n, _ => Replica(map[], Idle)), file, file)
  }

  /** A flush left alone does what `FlushUsageCounts` does: every use the replica has
      counted is added to the file, and the replica starts again from nothing. */
  lemma FlushAlone(s: State, i: nat)
    requires i < |s.replicas| && s.replicas[i].flush.Idle? && s.replicas[i].counter != map[]
    ensures var t := Run(s, [StartFlush(i), ReadFile(i), WriteFile(i)]);
            && t.replicas == s.replicas[i := Replica(map[], Idle)] && t.recorded == s.recorded
            && forall id :: CountOf(t.durable, id) == CountOf(s.durable, id) + CountOf(s.replicas[i].counter, id)
  {
    var counted := s.replicas[i].counter;
    var steps := [StartFlush(i), ReadFile(i), WriteFile(i)];
    var s1 := Do(s, steps[0]);
    assert s1 == s.(replicas := s.replicas[i := Replica(map[], Drained(counted))]);
    var s2 := Do(s1, steps[1]);
    assert s2 == s.(replicas := s.replicas[i := Replica(map[], HasRead(counted, s.durable))]);
    var s3 := Do(s2, steps[2]);
    assert s3 == s.(replicas := s.replicas[i := Replica(map[], Idle)], durable := Merged(s.durable, counted));
    hide Do;
    assert steps[..2][..1] == steps[..1] && steps[..1][..0] == [];
    assert Run(s, steps[..1]) == Do(s, steps[0]);
    assert Run(s, steps[..2]) == Do(Run(s, steps[..1]), steps[1]);
    assert Run(s, steps) == Do(Run(s, steps[..2]), steps[2]);
  }

  /** Uses of `id` that one replica has counted but not yet written. */
  function PendingAt(r: Replica, id: string): nat {
    CountOf(r.counter, id) + if r.flush.Idle? then 0 else CountOf(r.flush.delta, id)
  }

  function Pending(rs: seq<Replica>, id: string): nat {
    if rs == [] then 0 else Pending(rs[..|rs| - 1], id) + PendingAt(rs[|rs| - 1], id)
  }

  lemma {:induction false} PendingUpdate(rs: seq<Replica>, i: nat, r: Replica, id: string)
    requires i < |rs|
    ensures Pending(rs[i := r], id) == Pending(rs, id) - PendingAt(rs[i], id) + PendingAt(r, id)
    decreases |rs|
  {
    var n := |rs| - 1;
    if i == n {
      assert rs[i := r][..n] == rs[..n];
    } else {
      PendingUpdate(rs[..n], i, r, id);
      assert rs[i := r][..n] == rs[..n][i := r];
    }
  }

  /** Neither the file nor any value read from it overlaps what is still pending. */
  ghost predicate NeverOver(s: State) {
    forall id ::
      && CountOf(s.durable, id) + Pending(s.replicas, id) <= CountOf(s.recorded, id)
      && forall i :: 0 <= i < |s.replicas| && s.replicas[i].flush.HasRead? ==>
           CountOf(s.replicas[i].flush.current, id) + Pending(s.replicas, id) <= CountOf(s.recorded, id)
  }

  lemma DoNeverOver(s: State, step: Step)
    requires NeverOver(s)
    ensures NeverOver(Do(s, step))
  {
    var t := Do(s, step);
    if t != s {
      var i := step.replica;
      forall id
        ensures CountOf(t.durable, id) + Pending(t.replicas, id) <= CountOf(t.recorded, id)
        ensures forall j :: 0 <= j < |t.replicas| && t.replicas[j].flush.HasRead? ==>
                  CountOf(t.replicas[j].flush.current, id) + Pending(t.replicas, id) <= CountOf(t.recorded, id)
      {
        PendingUpdate(s.replicas, i, t.replicas[i], id);
        assert t.replicas == s.replicas[i := t.replicas[i]];
        PendingIncludes(s.replicas, i, id);
        assert forall j :: 0 <= j < |s.replicas| && j != i ==> t.replicas[j] == s.replicas[j];
      }
    }
  }

  lemma {:induction false} PendingIncludes(rs: seq<Replica>, i: nat, id: string)
    requires i < |rs|
    ensures PendingAt(rs[i], id) <= Pending(rs, id)
    decreases |rs|
  {
    if i < |rs| - 1 {
      PendingIncludes(rs[..|rs| - 1], i, id);
    }
  }

  lemma {:induction false} NothingPending(n: nat, file: Counts, id: string)
    ensures Pending(Started(n, file).replicas, id) == 0
    decreases n
  {
    if n > 0 {
      NothingPending(n - 1, file, id);
      assert Started(n, file).replicas[..n - 1] == Started(n - 1, file).replicas;
    }
  }

  /** Any number of replicas, any interleaving: the file never claims more uses
      than were recorded, even counting everything that is still to be written. */
  lemma {:induction false} DurableNeverExceedsRecorded(n: nat, file: Counts, steps: seq<Step>)
    ensures NeverOver(Run(Started(n, file), steps))
    decreases |steps|
  {
    if steps == [] {
      forall id
        ensures CountOf(Started(n, file).durable, id) + Pending(Started(n, file).replicas, id) <= CountOf(Started(n, file).recorded, id)
      {
        NothingPending(n, file, id);
      }
    } else {
      DurableNeverExceedsRecorded(n, file, steps[..|steps| - 1]);
      DoNeverOver(Run(Started(n, file), steps[..|steps| - 1]), steps[|steps| - 1]);
    }
  }

  /** Recorded uses that are neither durable nor pending. */
  function Lost(s: State, id: string): int {
    CountOf(s.recorded, id) - CountOf(s.durable, id) - Pending(s.replicas, id)
  }

  /** What a step destroys: pending uses of a replica that restarts, or the drained
      ones of a flush that raises. */
  function Dropped(s: State, step: Step, id: string): nat {
    if step.replica >= |s.replicas| then 0
    else
      var r := s.replicas[step.replica];
      if step.Restart? then PendingAt(r, id)
      else if step.AbortFlush? && !r.flush.Idle? then CountOf(r.flush.delta, id)
      else 0
  }

  /** What a write overwrites: by as much as the file has moved since the flush read it. */
  function Overwritten(s: State, step: Step, id: string): int {
    if step.WriteFile? && step.replica < |s.replicas| && s.replicas[step.replica].flush.HasRead?
    then CountOf(s.durable, id) - CountOf(s.replicas[step.replica].flush.current, id)
    else 0
  }

  /** Exactly where uses get lost, and how many. */
  lemma LossLaw(s: State, step: Step, id: string)
    ensures Lost(Do(s, step), id) == Lost(s, id) + Overwritten(s, step, id) + Dropped(s, step, id)
  {
    var t := Do(s, step);
    if t != s {
      PendingUpdate(s.replicas, step.replica, t.replicas[step.replica], id);
    }
  }

  /** All that the steps of a run have destroyed. */
  function DroppedInRun(s: State, steps: seq<Step>, id: string): nat
    decreases |steps|
  {
    if steps == [] then 0
    else
      var n := |steps| - 1;
      DroppedInRun(s, steps[..n], id) + Dropped(Run(s, steps[..n]), steps[n], id)
  }

  /** No flush writes over a file that changed after it was read. */
  ghost predicate Undisturbed(s: State, steps: seq<Step>)
    decreases |steps|
  {
    steps == [] ||
    var n := |steps| - 1;
    var before := Run(s, steps[..n]);
    && Undisturbed(s, steps[..n])
    && (steps[n].WriteFile? && steps[n].replica < |before.replicas| && before.replicas[steps[n].replica].flush.HasRead? ==>
          before.replicas[steps[n].replica].flush.current == before.durable)
  }

  /** Undisturbed flushes lose nothing but what restarts and raised flushes destroy. */
  lemma {:induction false} UndisturbedConserves(n: nat, file: Counts, steps: seq<Step>, id: string)
    requires Undisturbed(Started(n, file), steps)
    ensures Lost(Run(Started(n, file), steps), id) == DroppedInRun(Started(n, file), steps, id)
    decreases |steps|
  {
    if steps == [] {
      NothingPending(n, file, id);
    } else {
      var front := steps[..|steps| - 1];
      UndisturbedConserves(n, file, front, id);
      LossLaw(Run(Started(n, file), front), steps[|steps| - 1], id);
    }
  }

  /** With one replica every flush is undisturbed: recorded is always durable plus
      pending plus what restarts and raised flushes have destroyed. */
  lemma OneReplicaConserves(file: Counts, steps: seq<Step>, id: string)
    ensures var s := Run(Started(1, file), steps);
            CountOf(s.recorded, id) == CountOf(s.durable, id) + Pending(s.replicas, id) + DroppedInRun(Started(1, file), steps, id)
  {
    OneReplicaIsUndisturbed(file, steps);
    UndisturbedConserves(1, file, steps, id);
  }

  /** In a run of completed records and flushes nothing is destroyed. */
  lemma {:induction false} NothingDroppedWithoutCrash(s: State, steps: seq<Step>, id: string)
    requires forall i :: 0 <= i < |steps| ==> !steps[i].Restart? && !steps[i].AbortFlush?
    ensures DroppedInRun(s, steps, id) == 0
    decreases |steps|
  {
    if steps != [] {
      NothingDroppedWithoutCrash(s, steps[..|steps| - 1], id);
    }
  }

  lemma {:induction false} OneReplicaIsUndisturbed(file: Counts, steps: seq<Step>)
    ensures Undisturbed(Started(1, file), steps)
    ensures var s := Run(Started(1, file), steps);
            |s.replicas| == 1 && (s.replicas[0].flush.HasRead? ==> s.replicas[0].flush.current == s.durable)
    decreases |steps|
  {
    if steps != [] {
      OneReplicaIsUndisturbed(file, steps[..|steps| - 1]);
    }
  }

  /** Both replicas have recorded one use and drained it. */
  lemma BothDrain(id: string)
    ensures var one: Counts := map[id := 1];
            var s := Do(Do(Do(Do(Started(2, map[]), RecordUse(0, id)), RecordUse(1, id)), StartFlush(0)), StartFlush(1));
            && s.replicas == [Replica(map[], Drained(one)), Replica(map[], Drained(one))]
            && s.durable == map[] && CountOf(s.recorded, id) == 2
  {
    var one: Counts := map[id := 1];
    var s1 := Do(Started(2, map[]), RecordUse(0, id));
    assert s1.replicas[0].counter == one && s1.replicas[1] == Replica(map[], Idle);
    var s2 := Do(s1, RecordUse(1, id));
    assert s2.replicas == [Replica(one, Idle), Replica(one, Idle)];
  }

  /** Both read the file before either writes it. */
  lemma BothWrite(s: State, id: string)
    requires s.replicas == [Replica(map[], Drained(map[id := 1])), Replica(map[], Drained(map[id := 1]))] && s.durable == map[]
    ensures var t := Do(Do(Do(Do(s, ReadFile(0)), ReadFile(1)), WriteFile(0)), WriteFile(1));
            && t.replicas == [Replica(map[], Idle), Replica(map[], Idle)]
            && CountOf(t.durable, id) == 1 && t.recorded == s.recorded
  {
    var one: Counts := map[id := 1];
    var s2 := Do(Do(s, ReadFile(0)), ReadFile(1));
    assert s2.replicas == [Replica(map[], HasRead(one, map[])), Replica(map[], HasRead(one, map[]))];
    var s3 := Do(s2, WriteFile(0));
    assert s3.replicas[1] == Replica(map[], HasRead(one, map[]));
  }

  /** With two replicas the same is false: two overlapping flushes lose a use. */
  lemma TwoReplicasCanLose(id: string) returns (steps: seq<Step>)
    ensures Lost(Run(Started(2, map[]), steps), id) == 1
    ensures Pending(Run(Started(2, map[]), steps).replicas, id) == 0
  {
    hide Do;
    steps := [RecordUse(0, id), RecordUse(1, id), StartFlush(0), StartFlush(1), ReadFile(0), ReadFile(1), WriteFile(0), WriteFile(1)];
    RunEight(Started(2, map[]), steps);
    BothDrain(id);
    BothWrite(Do(Do(Do(Do(Started(2, map[]), steps[0]), steps[1]), steps[2]), steps[3]), id);
    assert Pending(Run(Started(2, map[]), steps).replicas[..1], id) == 0;
  }

  lemma RunEight(s: State, t: seq<Step>)
    requires |t| == 8
    ensures Run(s, t) == Do(Do(Do(Do(Do(Do(Do(Do(s, t[0]), t[1]), t[2]), t[3]), t[4]), t[5]), t[6]), t[7])
  {
    hide Do;
    assert t[..7][..6] == t[..6] && t[..6][..5] == t[..5] && t[..5][..4] == t[..4] && t[..4][..3] == t[..3];
    assert t[..3][..2] == t[..2] && t[..2][..1] == t[..1] && t[..1][..0] == t[..0] == [];
    assert Run(s, t[..1]) == Do(s, t[0]);
    assert Run(s, t[..2]) == Do(Run(s, t[..1]), t[1]);
    assert Run(s, t[..3]) == Do(Run(s, t[..2]), t[2]);
    assert Run(s, t[..4]) == Do(Run(s, t[..3]), t[3]);
    assert Run(s, t[..5]) == Do(Run(s, t[..4]), t[4]);
    assert Run(s, t[..6]) == Do(Run(s, t[..5]), t[5]);
    assert Run(s, t[..7]) == Do(Run(s, t[..6]), t[6]);
  }
}
