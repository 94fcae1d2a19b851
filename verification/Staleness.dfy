/** When what a replica is about to show is stale: for each kind of put, and, for
    repairs, in terms of the reads that the reconcile made earlier in the run. */
module Staleness {
  import opened Registry
  import opened Replication

  function ShownStatus(storage: Storage, k: Key): Status {
    if k in storage.statuses then storage.statuses[k] else Active
  }

  function ShownGovernance(storage: Storage, id: string): Governance {
    if id in storage.governance then storage.governance[id] else UNGOVERNED
  }

  /** The entry a handler is about to put, when a put is what it does next. */
  function Carried(task: Task): Option<Entry> {
    match task
    case TagRead(record) => Some(Parsed(record))
    case StatusStored(e, status) => Some(e.(status := status))
    case GovernedVersion(_, g, _, e) => Some(ApplyGovernance(e, Some(g)))
    case EventReady(e) => Some(e)
    case RepairFound(_, _, e) => Some(e)
    case _ => None
  }

  /** The put of any handler, whatever its kind and whatever ran before, leaves its
      key as storage prescribes exactly when the status and governance it carries
      are the stored ones, or the defaults where nothing is stored. */
  lemma PutShowsViewIff(s: State, tid: nat, choice: Key)
    requires Safe(s) && tid in s.handlers && s.handlers[tid].replica in s.indexes
    requires Carried(s.handlers[tid].task).Some?
    ensures var e := Carried(s.handlers[tid].task).value;
            var k := e.Coordinates();
            var shown := IndexOf(Proceed(s, tid, choice), s.handlers[tid].replica);
            && k in s.storage.tags && k in shown
            && (shown[k] == s.storage.ViewOf(k)
                <==> e.status == ShownStatus(s.storage, k) && e.governance == ShownGovernance(s.storage, k.id))
  {
    hide LegitIndex, StoredIsRemembered;
    HandlerIsLegit(s, tid);
    CarriedIsStored(FactsOf(s), s.handlers[tid].task);
    PutShowsCarried(s, tid, choice);
  }

  lemma CarriedIsStored(f: Facts, task: Task)
    requires LegitTask(f, task) && Carried(task).Some?
    ensures var e := Carried(task).value; e.Coordinates() in f.tags && f.tags[e.Coordinates()] == e.record
  {
    hide LegitIndex;
  }

  lemma PutShowsCarried(s: State, tid: nat, choice: Key)
    requires tid in s.handlers && s.handlers[tid].replica in s.indexes && Carried(s.handlers[tid].task).Some?
    ensures var e := Carried(s.handlers[tid].task).value;
            var shown := IndexOf(Proceed(s, tid, choice), s.handlers[tid].replica);
            e.Coordinates() in shown && shown[e.Coordinates()] == e
  {
  }

  // Tracing a put back to the reads and writes it rests on.

  function StateAt(start: State, steps: seq<Step>, i: nat): State
    requires i <= |steps|
  {
    Run(start, steps[..i])
  }

  /** From state `i` on, `tid` has been one and the same handler: a handler's name can
      be taken again only after it was gone. */
  ghost predicate Steady(start: State, steps: seq<Step>, tid: nat, i: nat)
    requires i <= |steps|
  {
    forall m :: i <= m <= |steps| ==> tid in StateAt(start, steps, m).handlers
  }

  /** What a single step of handler `tid` reads or writes. */
  predicate StatusReadIn(s: State, step: Step, tid: nat, k: Key) {
    && step.Advance? && step.tid == tid && tid in s.handlers
    && var task := s.handlers[tid].task;
       (task.HarvestedTag? || task.EventTagRead?) && task.entry.Coordinates() == k
  }

  predicate GovernanceReadIn(s: State, step: Step, tid: nat, k: Key) {
    && step.Advance? && step.tid == tid && tid in s.handlers
    && var task := s.handlers[tid].task;
       (task.HarvestedStatus? || task.EventStatusRead?) && task.entry.Coordinates() == k
  }

  /** The handler sees the entry that its replica shows: a yank when it starts, a
      governance change when it comes to that version. */
  predicate EntrySeenIn(s: State, step: Step, tid: nat, k: Key) {
    || (step.SetStatus? && step.tid == tid && step.k == k && tid !in s.handlers
        && step.replica in s.indexes && k in s.indexes[step.replica])
    || (step.Advance? && step.tid == tid && tid in s.handlers && s.handlers[tid].task.Governing?
        && k == Key(s.handlers[tid].task.id, step.choice.version) && k in IndexOf(s, s.handlers[tid].replica))
  }

  predicate StatusWrittenIn(s: State, step: Step, tid: nat, k: Key, status: Status) {
    && step.Advance? && step.tid == tid && tid in s.handlers
    && s.handlers[tid].task.StatusChosen? && s.handlers[tid].task.entry.Coordinates() == k && s.handlers[tid].task.status == status
  }

  predicate GovernanceWrittenIn(s: State, step: Step, tid: nat, id: string, g: Governance) {
    step.SetGovernance? && step.tid == tid && step.id == id && step.governance == g && tid !in s.handlers && step.replica in s.indexes
  }

  function ReplicaOf(s: State, step: Step): nat {
    if step.SetStatus? then step.replica
    else if step.Advance? && step.tid in s.handlers then s.handlers[step.tid].replica
    else 0
  }

  /** Where an entry's status comes from. */
  datatype Source = ReadAt(i: nat) | SeenAt(i: nat) | WrittenAt(i: nat)

  /** Step `from.i` of the run, by the same handler as now, read, saw or wrote `status` for `k`. */
  ghost predicate StatusFrom(start: State, steps: seq<Step>, tid: nat, k: Key, status: Status, from: Source) {
    && from.i < |steps| && Steady(start, steps, tid, from.i + 1)
    && var s, step := StateAt(start, steps, from.i), steps[from.i];
       match from
       case ReadAt(_) => StatusReadIn(s, step, tid, k) && status == ShownStatus(s.storage, k)
       case SeenAt(_) => EntrySeenIn(s, step, tid, k) && k in IndexOf(s, ReplicaOf(s, step)) && status == IndexOf(s, ReplicaOf(s, step))[k].status
       case WrittenAt(_) => StatusWrittenIn(s, step, tid, k, status)
  }

  ghost predicate GovernanceFrom(start: State, steps: seq<Step>, tid: nat, k: Key, g: Governance, from: Source) {
    && from.i < |steps| && Steady(start, steps, tid, from.i + 1)
    && var s, step := StateAt(start, steps, from.i), steps[from.i];
       match from
       case ReadAt(_) => GovernanceReadIn(s, step, tid, k) && g == ShownGovernance(s.storage, k.id)
       case SeenAt(_) => EntrySeenIn(s, step, tid, k) && k in IndexOf(s, ReplicaOf(s, step)) && g == IndexOf(s, ReplicaOf(s, step))[k].governance
       case WrittenAt(_) => GovernanceWrittenIn(s, step, tid, k.id, g)
  }

  ghost predicate HasStatus(start: State, steps: seq<Step>, tid: nat, e: Entry, from: Source) {
    StatusFrom(start, steps, tid, e.Coordinates(), e.status, from)
  }

  ghost predicate HasGovernance(start: State, steps: seq<Step>, tid: nat, e: Entry, from: Source) {
    GovernanceFrom(start, steps, tid, e.Coordinates(), e.governance, from)
  }

  ghost predicate StatusRead(start: State, steps: seq<Step>, tid: nat, e: Entry) {
    exists from: Source :: from.ReadAt? && HasStatus(start, steps, tid, e, from)
  }

  ghost predicate FullyRead(start: State, steps: seq<Step>, tid: nat, e: Entry) {
    StatusRead(start, steps, tid, e) && exists from: Source :: from.ReadAt? && HasGovernance(start, steps, tid, e, from)
  }

  /** Status and governance were seen together, in one entry that the replica showed. */
  ghost predicate Seen(start: State, steps: seq<Step>, tid: nat, e: Entry) {
    exists from: Source :: from.SeenAt? && HasStatus(start, steps, tid, e, from) && HasGovernance(start, steps, tid, e, from)
  }

  ghost predicate StatusWritten(start: State, steps: seq<Step>, tid: nat, k: Key, status: Status) {
    exists from: Source :: from.WrittenAt? && StatusFrom(start, steps, tid, k, status, from)
  }

  ghost predicate GovernanceWritten(start: State, steps: seq<Step>, tid: nat, id: string, g: Governance) {
    exists i :: 0 <= i < |steps| && Steady(start, steps, tid, i + 1) && GovernanceWrittenIn(StateAt(start, steps, i), steps[i], tid, id, g)
  }

  ghost predicate TruthRead(start: State, steps: seq<Step>, tid: nat, truth: Index) {
    forall k :: k in truth ==> truth[k].Coordinates() == k && FullyRead(start, steps, tid, truth[k])
  }

  /** Everything a handler carries rests on its own steps in this run. */
  ghost predicate TaskTraced(start: State, steps: seq<Step>, tid: nat, task: Task) {
    match task
    case StatusChosen(e, _) => Seen(start, steps, tid, e)
    case StatusStored(e, status) => Seen(start, steps, tid, e) && StatusWritten(start, steps, tid, e.Coordinates(), status)
    case GovernanceStored(id, g) => GovernanceWritten(start, steps, tid, id, g)
    case Governing(id, g, _) => GovernanceWritten(start, steps, tid, id, g)
    case GovernedVersion(id, g, _, e) => GovernanceWritten(start, steps, tid, id, g) && Seen(start, steps, tid, e)
    case EventTagRead(e) => e.status == Active && e.governance == UNGOVERNED
    case EventStatusRead(e) => StatusRead(start, steps, tid, e) && e.governance == UNGOVERNED
    case EventReady(e) => FullyRead(start, steps, tid, e)
    case Harvesting(_, _, truth) => TruthRead(start, steps, tid, truth)
    case HarvestedTag(_, _, truth, e) => TruthRead(start, steps, tid, truth) && e.status == Active && e.governance == UNGOVERNED
    case HarvestedStatus(_, _, truth, e) =>
      TruthRead(start, steps, tid, truth) && StatusRead(start, steps, tid, e) && e.governance == UNGOVERNED
    case Repairing(_, truth) => TruthRead(start, steps, tid, truth)
    case RepairFound(_, truth, e) => TruthRead(start, steps, tid, truth) && FullyRead(start, steps, tid, e)
    case _ => true
  }

  lemma Prefixes(start: State, steps: seq<Step>, step: Step)
    ensures forall m :: 0 <= m <= |steps| ==> StateAt(start, steps + [step], m) == StateAt(start, steps, m)
    ensures StateAt(start, steps + [step], |steps| + 1) == Do(Run(start, steps), step)
    ensures StateAt(start, steps, |steps|) == Run(start, steps)
  {
    hide Do;
    forall m | 0 <= m <= |steps|
      ensures (steps + [step])[..m] == steps[..m]
    {
    }
    assert steps[..|steps|] == steps;
    assert (steps + [step])[..|steps| + 1] == steps + [step];
    RunOneMore(start, steps, step);
  }

  lemma SteadyLasts(start: State, steps: seq<Step>, step: Step, tid: nat, i: nat)
    requires i <= |steps| && Steady(start, steps, tid, i) && tid in Do(Run(start, steps), step).handlers
    ensures Steady(start, steps + [step], tid, i)
  {
    hide Do, Run, StateAt;
    Prefixes(start, steps, step);
  }

  lemma SteadyNow(start: State, steps: seq<Step>, step: Step, tid: nat)
    requires tid in Do(Run(start, steps), step).handlers
    ensures Steady(start, steps + [step], tid, |steps| + 1)
    ensures StateAt(start, steps + [step], |steps|) == Run(start, steps)
  {
    hide Do, Run, StateAt;
    Prefixes(start, steps, step);
  }

  /** A source stays one as long as its handler is there. */
  lemma SourceLasts(start: State, steps: seq<Step>, step: Step, tid: nat, from: Source)
    requires tid in Do(Run(start, steps), step).handlers
    ensures forall k, status :: StatusFrom(start, steps, tid, k, status, from) ==> StatusFrom(start, steps + [step], tid, k, status, from)
    ensures forall k, g :: GovernanceFrom(start, steps, tid, k, g, from) ==> GovernanceFrom(start, steps + [step], tid, k, g, from)
  {
    hide Do, Run, StateAt, StatusReadIn, GovernanceReadIn, EntrySeenIn, StatusWrittenIn, GovernanceWrittenIn, ReplicaOf, IndexOf, Steady;
    Prefixes(start, steps, step);
    if from.i < |steps| && Steady(start, steps, tid, from.i + 1) {
      SteadyLasts(start, steps, step, tid, from.i + 1);
    }
  }

  lemma EntryLasts(start: State, steps: seq<Step>, step: Step, tid: nat, e: Entry)
    requires tid in Do(Run(start, steps), step).handlers
    ensures StatusRead(start, steps, tid, e) ==> StatusRead(start, steps + [step], tid, e)
    ensures FullyRead(start, steps, tid, e) ==> FullyRead(start, steps + [step], tid, e)
    ensures Seen(start, steps, tid, e) ==> Seen(start, steps + [step], tid, e)
  {
    hide Do, Run, StatusFrom, GovernanceFrom;
    forall from: Source
      ensures HasStatus(start, steps, tid, e, from) ==> HasStatus(start, steps + [step], tid, e, from)
      ensures HasGovernance(start, steps, tid, e, from) ==> HasGovernance(start, steps + [step], tid, e, from)
    {
      SourceLasts(start, steps, step, tid, from);
    }
  }

  lemma WritesLast(start: State, steps: seq<Step>, step: Step, tid: nat)
    requires tid in Do(Run(start, steps), step).handlers
    ensures forall k, status :: StatusWritten(start, steps, tid, k, status) ==> StatusWritten(start, steps + [step], tid, k, status)
    ensures forall id, g :: GovernanceWritten(start, steps, tid, id, g) ==> GovernanceWritten(start, steps + [step], tid, id, g)
  {
    hide Do, Run, StatusFrom, GovernanceWrittenIn, Steady, StateAt;
    forall k, status | StatusWritten(start, steps, tid, k, status)
      ensures StatusWritten(start, steps + [step], tid, k, status)
    {
      var from: Source :| from.WrittenAt? && StatusFrom(start, steps, tid, k, status, from);
      SourceLasts(start, steps, step, tid, from);
    }
    Prefixes(start, steps, step);
    forall id, g | GovernanceWritten(start, steps, tid, id, g)
      ensures GovernanceWritten(start, steps + [step], tid, id, g)
    {
      var i :| 0 <= i < |steps| && Steady(start, steps, tid, i + 1) && GovernanceWrittenIn(StateAt(start, steps, i), steps[i], tid, id, g);
      SteadyLasts(start, steps, step, tid, i + 1);
      assert (steps + [step])[i] == steps[i];
    }
  }

  lemma TruthLasts(start: State, steps: seq<Step>, step: Step, tid: nat, truth: Index)
    requires tid in Do(Run(start, steps), step).handlers && TruthRead(start, steps, tid, truth)
    ensures TruthRead(start, steps + [step], tid, truth)
  {
    hide Do, Run, FullyRead;
    forall k | k in truth
      ensures FullyRead(start, steps + [step], tid, truth[k])
    {
      EntryLasts(start, steps, step, tid, truth[k]);
    }
  }

  /** What a handler carries stays traced while the handler is there. */
  lemma TaskLasts(start: State, steps: seq<Step>, step: Step, tid: nat, task: Task)
    requires TaskTraced(start, steps, tid, task) && tid in Do(Run(start, steps), step).handlers
    ensures TaskTraced(start, steps + [step], tid, task)
  {
    hide Do, Run, TruthRead, StatusRead, FullyRead, Seen, StatusWritten, GovernanceWritten;
    WritesLast(start, steps, step, tid);
    if task.Harvesting? || task.HarvestedTag? || task.HarvestedStatus? || task.Repairing? || task.RepairFound? {
      TruthLasts(start, steps, step, tid, task.truth);
    }
    match task
    case StatusChosen(e, _) => EntryLasts(start, steps, step, tid, e);
    case StatusStored(e, _) => EntryLasts(start, steps, step, tid, e);
    case GovernedVersion(_, _, _, e) => EntryLasts(start, steps, step, tid, e);
    case EventStatusRead(e) => EntryLasts(start, steps, step, tid, e);
    case EventReady(e) => EntryLasts(start, steps, step, tid, e);
    case HarvestedStatus(_, _, _, e) => EntryLasts(start, steps, step, tid, e);
    case RepairFound(_, _, e) => EntryLasts(start, steps, step, tid, e);
    case _ =>
  }

  // One step at a time.

  lemma StatusReadNow(start: State, steps: seq<Step>, tid: nat, choice: Key, e: Entry)
    requires StatusReadIn(Run(start, steps), Advance(tid, choice), tid, e.Coordinates())
    requires e.status == ShownStatus(Run(start, steps).storage, e.Coordinates())
    requires tid in Do(Run(start, steps), Advance(tid, choice)).handlers
    ensures StatusRead(start, steps + [Advance(tid, choice)], tid, e)
  {
    hide Do, Run, StateAt, StatusReadIn, Steady;
    var step := Advance(tid, choice);
    SteadyNow(start, steps, step, tid);
    assert HasStatus(start, steps + [step], tid, e, ReadAt(|steps|));
  }

  lemma GovernanceReadNow(start: State, steps: seq<Step>, tid: nat, choice: Key, e: Entry)
    requires GovernanceReadIn(Run(start, steps), Advance(tid, choice), tid, e.Coordinates())
    requires e.governance == ShownGovernance(Run(start, steps).storage, e.record.id)
    requires tid in Do(Run(start, steps), Advance(tid, choice)).handlers
    requires StatusRead(start, steps + [Advance(tid, choice)], tid, e)
    ensures FullyRead(start, steps + [Advance(tid, choice)], tid, e)
  {
    hide Do, Run, StateAt, GovernanceReadIn, Steady, StatusRead;
    var step := Advance(tid, choice);
    SteadyNow(start, steps, step, tid);
    assert HasGovernance(start, steps + [step], tid, e, ReadAt(|steps|));
  }

  lemma SeenNow(start: State, steps: seq<Step>, step: Step, tid: nat, e: Entry)
    requires var s := Run(start, steps);
             && EntrySeenIn(s, step, tid, e.Coordinates())
             && e.Coordinates() in IndexOf(s, ReplicaOf(s, step)) && e == IndexOf(s, ReplicaOf(s, step))[e.Coordinates()]
    requires tid in Do(Run(start, steps), step).handlers
    ensures Seen(start, steps + [step], tid, e)
  {
    hide Do, Run, StateAt, EntrySeenIn, Steady;
    SteadyNow(start, steps, step, tid);
    assert HasStatus(start, steps + [step], tid, e, SeenAt(|steps|)) && HasGovernance(start, steps + [step], tid, e, SeenAt(|steps|));
  }

  lemma StatusWrittenNow(start: State, steps: seq<Step>, tid: nat, choice: Key, k: Key, status: Status)
    requires StatusWrittenIn(Run(start, steps), Advance(tid, choice), tid, k, status)
    requires tid in Do(Run(start, steps), Advance(tid, choice)).handlers
    ensures StatusWritten(start, steps + [Advance(tid, choice)], tid, k, status)
  {
    hide Do, Run, StateAt, StatusWrittenIn, Steady;
    var step := Advance(tid, choice);
    SteadyNow(start, steps, step, tid);
    assert StatusFrom(start, steps + [step], tid, k, status, WrittenAt(|steps|));
  }

  lemma GovernanceWrittenNow(start: State, steps: seq<Step>, step: Step, tid: nat, id: string, g: Governance)
    requires GovernanceWrittenIn(Run(start, steps), step, tid, id, g) && tid in Do(Run(start, steps), step).handlers
    ensures GovernanceWritten(start, steps + [step], tid, id, g)
  {
    hide Do, Run, StateAt, GovernanceWrittenIn, Steady;
    SteadyNow(start, steps, step, tid);
  }

  lemma SameStatusRead(start: State, steps: seq<Step>, tid: nat, e: Entry, read: Entry)
    requires StatusRead(start, steps, tid, e) && read.record == e.record && read.status == e.status
    ensures StatusRead(start, steps, tid, read)
  {
    hide Run, StatusFrom;
    var from: Source :| from.ReadAt? && HasStatus(start, steps, tid, e, from);
    assert HasStatus(start, steps, tid, read, from);
  }

  lemma TruthExtends(start: State, steps: seq<Step>, tid: nat, truth: Index, e: Entry)
    requires TruthRead(start, steps, tid, truth) && FullyRead(start, steps, tid, e)
    ensures TruthRead(start, steps, tid, truth[e.Coordinates() := e])
  {
    hide FullyRead;
  }

  lemma MemberRead(start: State, steps: seq<Step>, tid: nat, truth: Index, k: Key)
    requires TruthRead(start, steps, tid, truth) && k in truth
    ensures FullyRead(start, steps, tid, truth[k])
  {
    hide FullyRead;
  }

  lemma AdvanceProceeds(s: State, tid: nat, choice: Key)
    requires tid in s.handlers
    ensures Do(s, Advance(tid, choice)) == Proceed(s, tid, choice) && tid in Proceed(s, tid, choice).handlers
  {
  }

  /** A handler's own step, while it publishes, yanks or governs. */
  lemma WriterStepTraces(start: State, steps: seq<Step>, tid: nat, choice: Key)
    requires var s := Run(start, steps);
             tid in s.handlers && Safe(s) && TaskTraced(start, steps, tid, s.handlers[tid].task)
    requires var task := Run(start, steps).handlers[tid].task;
             task.TagStored? || task.TagRead? || task.StatusChosen? || task.StatusStored?
             || task.GovernanceStored? || task.Governing? || task.GovernedVersion?
    ensures TaskTraced(start, steps + [Advance(tid, choice)], tid, Proceed(Run(start, steps), tid, choice).handlers[tid].task)
  {
    hide Run, Safe, Do, StatusRead, FullyRead, Seen, StatusWritten, GovernanceWritten;
    var step := Advance(tid, choice);
    var s := Run(start, steps);
    AdvanceProceeds(s, tid, choice);
    WritesLast(start, steps, step, tid);
    match s.handlers[tid].task
    case TagStored(_) =>
    case TagRead(_) =>
    case StatusChosen(e, status) =>
      EntryLasts(start, steps, step, tid, e);
      StatusWrittenNow(start, steps, tid, choice, e.Coordinates(), status);
    case StatusStored(_, _) =>
    case GovernanceStored(_, _) =>
    case Governing(id, g, versions) =>
      var r := s.handlers[tid].replica;
      var k := Key(id, choice.version);
      if choice.version in versions && k in IndexOf(s, r) {
        ShownIsLegit(s, r, k);
        SeenNow(start, steps, step, tid, IndexOf(s, r)[k]);
      }
    case GovernedVersion(_, _, _, _) =>
  }

  lemma ConsumerStepTraces(start: State, steps: seq<Step>, tid: nat, choice: Key)
    requires var s := Run(start, steps);
             tid in s.handlers && TaskTraced(start, steps, tid, s.handlers[tid].task)
    requires var task := Run(start, steps).handlers[tid].task;
             task.EventTaken? || task.EventTagRead? || task.EventStatusRead? || task.EventReady?
    ensures TaskTraced(start, steps + [Advance(tid, choice)], tid, Proceed(Run(start, steps), tid, choice).handlers[tid].task)
  {
    hide Run, Do, StatusRead, FullyRead;
    var step := Advance(tid, choice);
    var s := Run(start, steps);
    AdvanceProceeds(s, tid, choice);
    match s.handlers[tid].task
    case EventTaken(_) =>
    case EventTagRead(e) =>
      StatusReadNow(start, steps, tid, choice, ApplyStatus(e, s.storage.StatusOf(e.Coordinates())));
    case EventStatusRead(e) =>
      var read := ApplyGovernance(e, s.storage.GovernanceOf(e.record.id));
      EntryLasts(start, steps, step, tid, e);
      SameStatusRead(start, steps + [step], tid, e, read);
      GovernanceReadNow(start, steps, tid, choice, read);
    case EventReady(_) =>
  }

  lemma ReconcileStepTraces(start: State, steps: seq<Step>, tid: nat, choice: Key)
    requires var s := Run(start, steps);
             tid in s.handlers && TaskTraced(start, steps, tid, s.handlers[tid].task)
    requires var task := Run(start, steps).handlers[tid].task;
             task.Harvesting? || task.HarvestedTag? || task.HarvestedStatus? || task.Repairing? || task.RepairFound?
    ensures TaskTraced(start, steps + [Advance(tid, choice)], tid, Proceed(Run(start, steps), tid, choice).handlers[tid].task)
  {
    hide Run, Do, TruthRead, StatusRead, FullyRead;
    var step := Advance(tid, choice);
    var s := Run(start, steps);
    AdvanceProceeds(s, tid, choice);
    TruthLasts(start, steps, step, tid, s.handlers[tid].task.truth);
    match s.handlers[tid].task
    case Harvesting(_, _, _) =>
    case HarvestedTag(_, _, truth, e) =>
      StatusReadNow(start, steps, tid, choice, ApplyStatus(e, s.storage.StatusOf(e.Coordinates())));
    case HarvestedStatus(_, _, truth, e) =>
      var read := ApplyGovernance(e, s.storage.GovernanceOf(e.record.id));
      EntryLasts(start, steps, step, tid, e);
      SameStatusRead(start, steps + [step], tid, e, read);
      GovernanceReadNow(start, steps, tid, choice, read);
      TruthExtends(start, steps + [step], tid, truth, read);
    case Repairing(left, truth) =>
      if choice in left && choice in truth {
        MemberRead(start, steps + [step], tid, truth, choice);
      }
    case RepairFound(_, _, _) =>
  }

  lemma OwnStepTraces(start: State, steps: seq<Step>, tid: nat, choice: Key)
    requires var s := Run(start, steps);
             tid in s.handlers && Safe(s) && TaskTraced(start, steps, tid, s.handlers[tid].task)
    ensures TaskTraced(start, steps + [Advance(tid, choice)], tid, Proceed(Run(start, steps), tid, choice).handlers[tid].task)
  {
    hide Run, Do, Safe, TaskTraced, Proceed;
    var s := Run(start, steps);
    var task := s.handlers[tid].task;
    if task.EventTaken? || task.EventTagRead? || task.EventStatusRead? || task.EventReady? {
      ConsumerStepTraces(start, steps, tid, choice);
    } else if task.Harvesting? || task.HarvestedTag? || task.HarvestedStatus? || task.Repairing? || task.RepairFound? {
      ReconcileStepTraces(start, steps, tid, choice);
    } else if task.Reconciled? || task.Finished? {
      NothingCarried(start, steps + [Advance(tid, choice)], tid, task);
      DoneStays(s, tid, choice);
    } else {
      WriterStepTraces(start, steps, tid, choice);
    }
  }

  lemma DoneStays(s: State, tid: nat, choice: Key)
    requires tid in s.handlers && (s.handlers[tid].task.Reconciled? || s.handlers[tid].task.Finished?)
    ensures Proceed(s, tid, choice) == s
  {
  }

  /** A task that a handler begins or ends with and that carries nothing. */
  lemma NothingCarried(start: State, steps: seq<Step>, tid: nat, task: Task)
    requires task.Reconciled? || task.Finished? || task.TagStored? || task.EventTaken? || (task.Harvesting? && task.truth == map[])
    ensures TaskTraced(start, steps, tid, task)
  {
  }

  /** What a step does to a handler that it does not advance. */
  lemma OthersUntouched(s: State, step: Step, tid: nat)
    requires Safe(s) && tid in Do(s, step).handlers && !(step.Advance? && step.tid == tid)
    ensures var task := Do(s, step).handlers[tid].task;
            || (tid in s.handlers && Do(s, step).handlers[tid] == s.handlers[tid])
            || (tid !in s.handlers && (task.TagStored? || task.EventTaken? || (task.Harvesting? && task.truth == map[])))
            || (task.StatusChosen? && EntrySeenIn(s, step, tid, task.entry.Coordinates()) && ReplicaOf(s, step) in s.indexes
                && task.entry.Coordinates() in IndexOf(s, ReplicaOf(s, step))
                && task.entry == IndexOf(s, ReplicaOf(s, step))[task.entry.Coordinates()])
            || (task.GovernanceStored? && GovernanceWrittenIn(s, step, tid, task.id, task.governance))
  {
    if step.SetStatus? && tid !in s.handlers && step.replica in s.indexes && step.k in s.indexes[step.replica] {
      ShownIsLegit(s, step.replica, step.k);
    }
    hide Safe, Proceed;
    if step.Advance? && step.tid in s.handlers {
      ProceedTouchesOne(s, step.tid, step.choice);
    }
  }

  lemma OtherStepTraces(start: State, steps: seq<Step>, step: Step, tid: nat)
    requires var s := Run(start, steps); Safe(s) && (tid in s.handlers ==> TaskTraced(start, steps, tid, s.handlers[tid].task))
    requires tid in Do(Run(start, steps), step).handlers && !(step.Advance? && step.tid == tid)
    ensures TaskTraced(start, steps + [step], tid, Do(Run(start, steps), step).handlers[tid].task)
  {
    hide Run, Do, Safe, TaskTraced, EntrySeenIn, GovernanceWrittenIn, ReplicaOf, IndexOf;
    var s := Run(start, steps);
    var task := Do(s, step).handlers[tid].task;
    OthersUntouched(s, step, tid);
    if tid in s.handlers && Do(s, step).handlers[tid] == s.handlers[tid] {
      TaskLasts(start, steps, step, tid, task);
    } else if task.StatusChosen? {
      SeenNow(start, steps, step, tid, task.entry);
      ChosenTraced(start, steps + [step], tid, task);
    } else if task.GovernanceStored? {
      GovernanceWrittenNow(start, steps, step, tid, task.id, task.governance);
      ChosenTraced(start, steps + [step], tid, task);
    } else {
      NothingCarried(start, steps + [step], tid, task);
    }
  }

  lemma ChosenTraced(start: State, steps: seq<Step>, tid: nat, task: Task)
    requires (task.StatusChosen? && Seen(start, steps, tid, task.entry))
             || (task.GovernanceStored? && GovernanceWritten(start, steps, tid, task.id, task.governance))
    ensures TaskTraced(start, steps, tid, task)
  {
  }

  /** Throughout every run, what handlers carry rests on their own steps in it. */
  lemma {:induction false} RunIsTraced(start: State, steps: seq<Step>, tid: nat)
    requires Initial(start) && tid in Run(start, steps).handlers
    ensures TaskTraced(start, steps, tid, Run(start, steps).handlers[tid].task)
    decreases |steps|
  {
    hide Do, Safe, TaskTraced, Proceed;
    if steps != [] {
      var front, step := steps[..|steps| - 1], steps[|steps| - 1];
      assert steps == front + [step];
      var s := Run(start, front);
      if tid in s.handlers {
        RunIsTraced(start, front, tid);
      }
      InitialIsSafe(start);
      RunIsSafe(start, front);
      if step.Advance? && step.tid == tid {
        AdvancedWasThere(s, tid, step.choice);
        AdvanceProceeds(s, tid, step.choice);
        OwnStepTraces(start, front, tid, step.choice);
      } else {
        OtherStepTraces(start, front, step, tid);
      }
    }
  }

  lemma AdvancedWasThere(s: State, tid: nat, choice: Key)
    requires tid in Do(s, Advance(tid, choice)).handlers
    ensures tid in s.handlers
  {
  }

  // Exactly when a put is stale.

  /** After the put of `tid` its replica shows something else than storage prescribes. */
  ghost predicate PutsStale(s: State, tid: nat, choice: Key)
    requires tid in s.handlers && Carried(s.handlers[tid].task).Some?
  {
    var k := Carried(s.handlers[tid].task).value.Coordinates();
    var shown := IndexOf(Proceed(s, tid, choice), s.handlers[tid].replica);
    !(k in s.storage.tags && k in shown && shown[k] == s.storage.ViewOf(k))
  }

  /** What was put aside at the put is all that decides it. */
  lemma CarriedDecides(start: State, steps: seq<Step>, tid: nat, choice: Key)
    requires Initial(start)
    requires var s := Run(start, steps);
             tid in s.handlers && Carried(s.handlers[tid].task).Some? && s.handlers[tid].replica in s.indexes
    ensures var s := Run(start, steps);
            var e := Carried(s.handlers[tid].task).value;
            && TaskTraced(start, steps, tid, s.handlers[tid].task) && LegitTask(FactsOf(s), s.handlers[tid].task)
            && (PutsStale(s, tid, choice)
                <==> ShownStatus(s.storage, e.Coordinates()) != e.status || ShownGovernance(s.storage, e.record.id) != e.governance)
  {
    hide Run, Safe, Proceed, TaskTraced, ShownStatus, ShownGovernance, LegitTask;
    var s := Run(start, steps);
    InitialIsSafe(start);
    RunIsSafe(start, steps);
    RunIsTraced(start, steps, tid);
    HandlerIsLegit(s, tid);
    PutShowsViewIff(s, tid, choice);
  }

  /** The put of a reconcile or of an event is stale iff what the sidecars say has
      changed since the two reads that this handler made of them. */
  lemma ReadPutIsStaleIff(start: State, steps: seq<Step>, tid: nat, choice: Key)
    requires Initial(start)
    requires var s := Run(start, steps);
             tid in s.handlers && s.handlers[tid].replica in s.indexes
             && (s.handlers[tid].task.RepairFound? || s.handlers[tid].task.EventReady?)
    ensures var s := Run(start, steps);
            var k := s.handlers[tid].task.entry.Coordinates();
            exists i, j :: 0 <= i < |steps| && 0 <= j < |steps|
              && Steady(start, steps, tid, i + 1) && StatusReadIn(StateAt(start, steps, i), steps[i], tid, k)
              && Steady(start, steps, tid, j + 1) && GovernanceReadIn(StateAt(start, steps, j), steps[j], tid, k)
              && (PutsStale(s, tid, choice)
                  <==> ShownStatus(s.storage, k) != ShownStatus(StateAt(start, steps, i).storage, k)
                       || ShownGovernance(s.storage, k.id) != ShownGovernance(StateAt(start, steps, j).storage, k.id))
  {
    hide Run, PutsStale, StateAt, Steady, StatusReadIn, GovernanceReadIn, ShownStatus, ShownGovernance, TruthRead, LegitTask;
    CarriedDecides(start, steps, tid, choice);
    var e := Run(start, steps).handlers[tid].task.entry;
    assert FullyRead(start, steps, tid, e);
    var a: Source :| a.ReadAt? && HasStatus(start, steps, tid, e, a);
    var b: Source :| b.ReadAt? && HasGovernance(start, steps, tid, e, b);
    assert StatusReadIn(StateAt(start, steps, a.i), steps[a.i], tid, e.Coordinates());
    assert GovernanceReadIn(StateAt(start, steps, b.i), steps[b.i], tid, e.Coordinates());
  }

  /** The put of a yank or unyank is stale iff the status has changed since this
      handler wrote it, or the governance record is not the one that the replica
      showed when the handler began. */
  lemma StatusPutIsStaleIff(start: State, steps: seq<Step>, tid: nat, choice: Key)
    requires Initial(start)
    requires var s := Run(start, steps);
             tid in s.handlers && s.handlers[tid].replica in s.indexes && s.handlers[tid].task.StatusStored?
    ensures var s := Run(start, steps);
            var task := s.handlers[tid].task;
            var k := task.entry.Coordinates();
            exists i, j :: 0 <= i < |steps| && 0 <= j < |steps|
              && Steady(start, steps, tid, i + 1) && StatusWrittenIn(StateAt(start, steps, i), steps[i], tid, k, task.status)
              && Steady(start, steps, tid, j + 1) && EntrySeenIn(StateAt(start, steps, j), steps[j], tid, k)
              && var seen := IndexOf(StateAt(start, steps, j), ReplicaOf(StateAt(start, steps, j), steps[j]));
                 && k in seen
                 && (PutsStale(s, tid, choice)
                     <==> ShownStatus(s.storage, k) != task.status || ShownGovernance(s.storage, k.id) != seen[k].governance)
  {
    hide Run, PutsStale, StateAt, Steady, StatusWrittenIn, EntrySeenIn, ShownStatus, ShownGovernance, IndexOf, ReplicaOf, LegitTask;
    CarriedDecides(start, steps, tid, choice);
    var task := Run(start, steps).handlers[tid].task;
    var k := task.entry.Coordinates();
    var a: Source :| a.WrittenAt? && StatusFrom(start, steps, tid, k, task.status, a);
    var b: Source :| b.SeenAt? && HasStatus(start, steps, tid, task.entry, b) && HasGovernance(start, steps, tid, task.entry, b);
    assert StatusWrittenIn(StateAt(start, steps, a.i), steps[a.i], tid, k, task.status);
    assert EntrySeenIn(StateAt(start, steps, b.i), steps[b.i], tid, k);
  }

  /** The put of a governance change is stale iff the record has changed since this
      handler wrote it, or the status is not the one that the replica showed when the
      handler came to that version. */
  lemma GovernancePutIsStaleIff(start: State, steps: seq<Step>, tid: nat, choice: Key)
    requires Initial(start)
    requires var s := Run(start, steps);
             tid in s.handlers && s.handlers[tid].replica in s.indexes && s.handlers[tid].task.GovernedVersion?
    ensures var s := Run(start, steps);
            var task := s.handlers[tid].task;
            var k := task.entry.Coordinates();
            exists i, j :: 0 <= i < |steps| && 0 <= j < |steps|
              && Steady(start, steps, tid, i + 1) && GovernanceWrittenIn(StateAt(start, steps, i), steps[i], tid, k.id, task.governance)
              && Steady(start, steps, tid, j + 1) && EntrySeenIn(StateAt(start, steps, j), steps[j], tid, k)
              && var seen := IndexOf(StateAt(start, steps, j), ReplicaOf(StateAt(start, steps, j), steps[j]));
                 && k in seen
                 && (PutsStale(s, tid, choice)
                     <==> ShownStatus(s.storage, k) != seen[k].status || ShownGovernance(s.storage, k.id) != task.governance)
  {
    hide Run, PutsStale, StateAt, Steady, GovernanceWrittenIn, EntrySeenIn, ShownStatus, ShownGovernance, IndexOf, ReplicaOf;
    CarriedDecides(start, steps, tid, choice);
    var task := Run(start, steps).handlers[tid].task;
    var k := task.entry.Coordinates();
    assert k.id == task.id;
    var i :| 0 <= i < |steps| && Steady(start, steps, tid, i + 1)
             && GovernanceWrittenIn(StateAt(start, steps, i), steps[i], tid, task.id, task.governance);
    var b: Source :| b.SeenAt? && HasStatus(start, steps, tid, task.entry, b) && HasGovernance(start, steps, tid, task.entry, b);
    assert EntrySeenIn(StateAt(start, steps, b.i), steps[b.i], tid, k);
  }
}
