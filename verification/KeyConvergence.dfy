/** Convergence of one version on one replica: whatever goes on for other versions
    and elsewhere, a reconcile settles the key once nothing writes or puts it. */
module KeyConvergence {
  import opened Registry
  import opened Replication

  /** A step that starts nothing that would write the key or put it from elsewhere
      than storage: publishes of the key only on other replicas, no status of the
      key and no governance of its skill. */
  ghost predicate Leaves(step: Step, k: Key, r: nat) {
    match step
    case Publish(_, replica, record, _) => record.Coordinates() == k ==> replica != r
    case SetStatus(_, _, key, _) => key != k
    case SetGovernance(_, _, id, _) => id != k.id
    case _ => true
  }

  ghost predicate AllLeave(steps: seq<Step>, k: Key, r: nat) {
    forall i :: 0 <= i < |steps| ==> Leaves(steps[i], k, r)
  }

  /** A handler that has not yet read or decided anything about the key. */
  ghost predicate Undecided(k: Key, task: Task) {
    match task
    case TagStored(key) => key != k
    case TagRead(record) => record.Coordinates() != k
    case StatusChosen(e, _) => e.Coordinates() != k
    case StatusStored(e, _) => e.Coordinates() != k
    case GovernanceStored(id, _) => id != k.id
    case Governing(id, _, _) => id != k.id
    case GovernedVersion(id, _, _, _) => id != k.id
    case EventTaken(_) => true
    case EventTagRead(e) => e.Coordinates() != k
    case EventStatusRead(e) => e.Coordinates() != k
    case EventReady(e) => e.Coordinates() != k
    case Harvesting(_, left, truth) => k in left && k !in truth
    case HarvestedTag(_, left, truth, e) => k in left && k !in truth && e.Coordinates() != k
    case HarvestedStatus(_, left, truth, e) => k in left && k !in truth && e.Coordinates() != k
    case Repairing(_, _) => false
    case RepairFound(_, _, _) => false
    case Reconciled => false
    case Finished => true
  }

  function ShownAt(index: Index, k: Key): Option<Entry> {
    if k in index then Some(index[k]) else None
  }

  /** What a handler of the replica may know about the key while it is left alone. */
  ghost predicate KeyCalm(storage: Storage, k: Key, shown: Option<Entry>, task: Task)
    requires k in storage.tags
  {
    var tagged := Parsed(storage.tags[k]);
    var rated := ApplyStatus(tagged, storage.StatusOf(k));
    var view := storage.ViewOf(k);
    match task
    case EventTagRead(e) => e.Coordinates() == k ==> e == tagged
    case EventStatusRead(e) => e.Coordinates() == k ==> e == rated
    case EventReady(e) => e.Coordinates() == k ==> e == view
    case Harvesting(_, left, truth) => Collected(k, view, left, truth)
    case HarvestedTag(_, left, truth, e) =>
      if e.Coordinates() == k then e == tagged && (k in truth ==> truth[k] == view) else Collected(k, view, left, truth)
    case HarvestedStatus(_, left, truth, e) =>
      if e.Coordinates() == k then e == rated && (k in truth ==> truth[k] == view) else Collected(k, view, left, truth)
    case Repairing(left, truth) => Repairs(k, view, shown, left, truth)
    case RepairFound(left, truth, e) =>
      if e.Coordinates() == k then e == view && k in truth && truth[k] == view else Repairs(k, view, shown, left, truth)
    case Reconciled => shown == Some(view)
    case _ => Undecided(k, task)
  }

  ghost predicate Collected(k: Key, view: Entry, left: set<Key>, truth: Index) {
    (k in truth ==> truth[k] == view) && (k !in left ==> k in truth)
  }

  ghost predicate Repairs(k: Key, view: Entry, shown: Option<Entry>, left: set<Key>, truth: Index) {
    k in truth && truth[k] == view && (k !in left ==> shown == Some(view))
  }

  /** No handler anywhere is about to write the key, and all on the replica are calm. */
  ghost predicate LeftAlone(s: State, k: Key, r: nat) {
    && k in s.storage.tags
    && (forall tid :: tid in s.handlers && s.handlers[tid].task.StatusChosen? ==> s.handlers[tid].task.entry.Coordinates() != k)
    && forall tid :: tid in s.handlers && s.handlers[tid].replica == r ==>
         Fits(s, k, r, s.handlers[tid].task)
  }

  predicate Starts(task: Task) {
    (task.Harvesting? || task.HarvestedTag? || task.HarvestedStatus?) && task.starting
  }

  /** A calm task of the replica, which is live unless the task is to start it. */
  ghost predicate Fits(s: State, k: Key, r: nat, task: Task)
    requires k in s.storage.tags
  {
    (Starts(task) || r in s.indexes) && KeyCalm(s.storage, k, ShownAt(IndexOf(s, r), k), task)
  }

  ghost predicate OwnFits(s: State, k: Key, r: nat, replica: nat, task: Task)
    requires k in s.storage.tags
  {
    && (task.StatusChosen? ==> task.entry.Coordinates() != k)
    && (replica == r ==> Fits(s, k, r, task))
  }

  /** Storage says the same about the key. */
  ghost predicate SameAt(a: Storage, b: Storage, k: Key) {
    && (k in a.tags <==> k in b.tags) && (k in a.tags && k in b.tags ==> a.tags[k] == b.tags[k])
    && a.StatusOf(k) == b.StatusOf(k) && a.GovernanceOf(k.id) == b.GovernanceOf(k.id)
  }

  lemma SameView(a: Storage, b: Storage, k: Key)
    requires SameAt(a, b, k) && k in a.tags
    ensures k in b.tags && a.ViewOf(k) == b.ViewOf(k)
  {
  }

  /** What a step may do to the key on the replica: nothing, or show what storage prescribes. */
  ghost predicate ShowsOrKeeps(s: State, t: State, k: Key, r: nat)
    requires k in s.storage.tags
  {
    || ShownAt(IndexOf(t, r), k) == ShownAt(IndexOf(s, r), k)
    || ShownAt(IndexOf(t, r), k) == Some(s.storage.ViewOf(k))
  }

  lemma CalmKept(a: Storage, b: Storage, k: Key, before: Option<Entry>, after: Option<Entry>, task: Task)
    requires k in a.tags && SameAt(a, b, k) && KeyCalm(a, k, before, task)
    requires after == before || after == Some(a.ViewOf(k))
    ensures k in b.tags && KeyCalm(b, k, after, task)
  {
    SameView(a, b, k);
    hide Storage.ViewOf;
  }

  /** A step that moves one handler on and does to the key nothing but show what
      storage prescribes leaves it alone. */
  lemma OneTaskChanges(s: State, t: State, k: Key, r: nat, tid: nat)
    requires LeftAlone(s, k, r) && SameAt(s.storage, t.storage, k) && k in t.storage.tags && ShowsOrKeeps(s, t, k, r)
    requires s.indexes.Keys <= t.indexes.Keys
    requires forall i :: i in t.handlers && i != tid ==> i in s.handlers && t.handlers[i] == s.handlers[i]
    requires tid in t.handlers ==> OwnFits(t, k, r, t.handlers[tid].replica, t.handlers[tid].task)
    ensures LeftAlone(t, k, r)
  {
    hide KeyCalm, IndexOf, Storage.ViewOf;
    forall i | i in t.handlers && t.handlers[i].replica == r
      ensures Fits(t, k, r, t.handlers[i].task)
    {
      if i != tid {
        CalmKept(s.storage, t.storage, k, ShownAt(IndexOf(s, r), k), ShownAt(IndexOf(t, r), k), s.handlers[i].task);
      }
    }
  }

  lemma GotoLeaves(s: State, k: Key, r: nat, tid: nat, replica: nat, task: Task)
    requires LeftAlone(s, k, r) && k in s.storage.tags && OwnFits(s, k, r, replica, task)
    ensures LeftAlone(At(s, tid, replica, task), k, r)
  {
    hide KeyCalm, Storage.ViewOf, LeftAlone;
    var t := At(s, tid, replica, task);
    StaysFitting(s, t, k, r, replica, task);
    OthersAreKept(s, t, k, r);
    OneTaskChanges(s, t, k, r, tid);
  }

  lemma OthersAreKept(s: State, t: State, k: Key, r: nat)
    requires LeftAlone(s, k, r) && t.storage == s.storage && t.indexes == s.indexes
    ensures k in t.storage.tags && SameAt(s.storage, t.storage, k) && ShowsOrKeeps(s, t, k, r)
  {
  }

  lemma StaysFitting(s: State, t: State, k: Key, r: nat, replica: nat, task: Task)
    requires k in s.storage.tags && OwnFits(s, k, r, replica, task) && t.storage == s.storage && t.indexes == s.indexes
    ensures OwnFits(t, k, r, replica, task)
  {
    hide KeyCalm;
  }

  /** A store write that does not concern the key. */
  lemma StoreLeaves(s: State, u: State, k: Key, r: nat, tid: nat, replica: nat, task: Task)
    requires LeftAlone(s, k, r) && u.indexes == s.indexes && u.handlers == s.handlers && SameAt(s.storage, u.storage, k)
    requires k in u.storage.tags && OwnFits(u, k, r, replica, task)
    ensures LeftAlone(At(u, tid, replica, task), k, r)
  {
    hide KeyCalm, Storage.ViewOf;
    var t := At(u, tid, replica, task);
    StaysFitting(u, t, k, r, replica, task);
    OneTaskChanges(s, t, k, r, tid);
  }

  /** A put of another key, or of what storage prescribes. */
  lemma PutLeaves(s: State, k: Key, r: nat, tid: nat, replica: nat, e: Entry, task: Task)
    requires LeftAlone(s, k, r) && (replica == r && e.Coordinates() == k ==> e == s.storage.ViewOf(k))
    requires OwnFits(WithEntry(s, replica, e), k, r, replica, task)
    ensures LeftAlone(At(WithEntry(s, replica, e), tid, replica, task), k, r)
  {
    hide KeyCalm, Storage.ViewOf;
    var u := WithEntry(s, replica, e);
    var t := At(u, tid, replica, task);
    StaysFitting(u, t, k, r, replica, task);
    PutShowsOrKeeps(s, k, r, replica, e);
    OneTaskChanges(s, t, k, r, tid);
  }

  lemma PutShowsOrKeeps(s: State, k: Key, r: nat, replica: nat, e: Entry)
    requires k in s.storage.tags && (replica == r && e.Coordinates() == k ==> e == s.storage.ViewOf(k))
    ensures var u := WithEntry(s, replica, e);
            && u.storage == s.storage && u.indexes.Keys == s.indexes.Keys
            && (ShownAt(IndexOf(u, r), k) == ShownAt(IndexOf(s, r), k) || ShownAt(IndexOf(u, r), k) == Some(s.storage.ViewOf(k)))
  {
    hide Storage.ViewOf;
  }

  /** A handler's task and what is known about it. */
  lemma OwnFacts(s: State, k: Key, r: nat, tid: nat)
    requires Safe(s) && LeftAlone(s, k, r) && tid in s.handlers
    ensures LegitTask(FactsOf(s), s.handlers[tid].task) && s.storage.Filed()
    ensures OwnFits(s, k, r, s.handlers[tid].replica, s.handlers[tid].task)
  {
    hide LegitTask, KeyCalm;
  }

  lemma PublisherLeaves(s: State, k: Key, r: nat, tid: nat, choice: Key)
    requires Safe(s) && LeftAlone(s, k, r) && tid in s.handlers
    requires var task := s.handlers[tid].task; task.TagStored? || task.TagRead? || task.StatusChosen? || task.StatusStored?
    ensures LeftAlone(Proceed(s, tid, choice), k, r)
  {
    hide Safe, LeftAlone, LegitIndex, Storage.ViewOf;
    OwnFacts(s, k, r, tid);
    IsStored(s, k, r);
    var Handler(replica, task) := s.handlers[tid];
    match task
    case TagStored(key) =>
      GotoLeaves(s, k, r, tid, replica, if key in s.storage.tags then TagRead(s.storage.tags[key]) else Finished);
    case TagRead(record) => PutLeaves(s, k, r, tid, replica, Parsed(record), Finished);
    case StatusChosen(e, status) =>
      StoreLeaves(s, StoreStatus(s, e.Coordinates(), status), k, r, tid, replica, StatusStored(e, status));
    case StatusStored(e, status) => PutLeaves(s, k, r, tid, replica, e.(status := status), Finished);
  }

  lemma IsStored(s: State, k: Key, r: nat)
    requires LeftAlone(s, k, r)
    ensures k in s.storage.tags
  {
  }

  lemma GovernanceLeaves(s: State, k: Key, r: nat, tid: nat, choice: Key)
    requires Safe(s) && LeftAlone(s, k, r) && tid in s.handlers
    requires var task := s.handlers[tid].task; task.GovernanceStored? || task.Governing? || task.GovernedVersion?
    ensures LeftAlone(Proceed(s, tid, choice), k, r)
  {
    hide Safe, LeftAlone, LegitIndex, Storage.ViewOf;
    OwnFacts(s, k, r, tid);
    IsStored(s, k, r);
    var Handler(replica, task) := s.handlers[tid];
    match task
    case GovernanceStored(id, g) =>
      GotoLeaves(s, k, r, tid, replica, Governing(id, g, set key | key in IndexOf(s, replica) && key.id == id :: key.version));
    case Governing(id, g, versions) =>
      if versions == {} {
        GotoLeaves(s, k, r, tid, replica, Finished);
      } else if choice.version in versions {
        var key := Key(id, choice.version);
        GotoLeaves(s, k, r, tid, replica,
                   if key in IndexOf(s, replica) then GovernedVersion(id, g, versions - {key.version}, IndexOf(s, replica)[key])
                   else Governing(id, g, versions - {key.version}));
      }
    case GovernedVersion(id, g, versions, e) =>
      PutLeaves(s, k, r, tid, replica, ApplyGovernance(e, Some(g)), Governing(id, g, versions));
  }

  lemma EventLeaves(s: State, k: Key, r: nat, tid: nat, choice: Key)
    requires Safe(s) && LeftAlone(s, k, r) && tid in s.handlers
    requires var task := s.handlers[tid].task; task.EventTaken? || task.EventTagRead? || task.EventStatusRead? || task.EventReady?
    ensures LeftAlone(Proceed(s, tid, choice), k, r)
  {
    hide Safe, LeftAlone, LegitIndex, Legit, IndexOf, ShownAt;
    OwnFacts(s, k, r, tid);
    IsStored(s, k, r);
    var Handler(replica, task) := s.handlers[tid];
    match task
    case EventTaken(key) =>
      GotoLeaves(s, k, r, tid, replica, if key in s.storage.tags then EventTagRead(Parsed(s.storage.tags[key])) else Finished);
    case EventTagRead(e) =>
      GotoLeaves(s, k, r, tid, replica, EventStatusRead(ApplyStatus(e, s.storage.StatusOf(e.Coordinates()))));
    case EventStatusRead(e) =>
      GotoLeaves(s, k, r, tid, replica, EventReady(ApplyGovernance(e, s.storage.GovernanceOf(e.record.id))));
    case EventReady(e) => PutLeaves(s, k, r, tid, replica, e, Finished);
  }

  lemma HarvestLeaves(s: State, k: Key, r: nat, tid: nat, choice: Key)
    requires Safe(s) && LeftAlone(s, k, r) && tid in s.handlers
    requires var task := s.handlers[tid].task; task.Harvesting? || task.HarvestedTag? || task.HarvestedStatus?
    ensures LeftAlone(Proceed(s, tid, choice), k, r)
  {
    hide Safe, LeftAlone, LegitIndex, Legit, IndexOf, ShownAt;
    OwnFacts(s, k, r, tid);
    IsStored(s, k, r);
    var Handler(replica, task) := s.handlers[tid];
    match task
    case Harvesting(starting, left, truth) =>
      if left == {} {
        if starting {
          StartLeaves(s, k, r, tid, replica, truth);
        } else {
          GotoLeaves(s, k, r, tid, replica, Repairing(truth.Keys, truth));
        }
      } else if choice in left && choice in s.storage.tags {
        GotoLeaves(s, k, r, tid, replica, HarvestedTag(starting, left - {choice}, truth, Parsed(s.storage.tags[choice])));
      }
    case HarvestedTag(starting, left, truth, e) =>
      GotoLeaves(s, k, r, tid, replica, HarvestedStatus(starting, left, truth, ApplyStatus(e, s.storage.StatusOf(e.Coordinates()))));
    case HarvestedStatus(starting, left, truth, e) =>
      var read := ApplyGovernance(e, s.storage.GovernanceOf(e.record.id));
      GotoLeaves(s, k, r, tid, replica, Harvesting(starting, left, truth[e.Coordinates() := read]));
  }

  /** A replica goes live with what it has collected. */
  lemma StartLeaves(s: State, k: Key, r: nat, tid: nat, replica: nat, truth: Index)
    requires LeftAlone(s, k, r) && k in s.storage.tags
    requires replica == r ==> k in truth && truth[k] == s.storage.ViewOf(k)
    ensures LeftAlone(At(WithReplica(s, replica, truth), tid, replica, Finished), k, r)
  {
    hide KeyCalm, Storage.ViewOf, LeftAlone;
    var u := WithReplica(s, replica, truth);
    var t := At(u, tid, replica, Finished);
    FinishedFits(t, k, r, replica);
    OneTaskChanges(s, t, k, r, tid);
  }

  lemma FinishedFits(s: State, k: Key, r: nat, replica: nat)
    requires k in s.storage.tags && replica in s.indexes
    ensures OwnFits(s, k, r, replica, Finished)
  {
  }

  lemma RepairLeaves(s: State, k: Key, r: nat, tid: nat, choice: Key)
    requires Safe(s) && LeftAlone(s, k, r) && tid in s.handlers
    requires s.handlers[tid].task.Repairing? || s.handlers[tid].task.RepairFound?
    ensures LeftAlone(Proceed(s, tid, choice), k, r)
  {
    hide Safe, LeftAlone, Storage.ViewOf, OwnFits;
    OwnFacts(s, k, r, tid);
    IsStored(s, k, r);
    var Handler(replica, task) := s.handlers[tid];
    match task
    case Repairing(left, truth) =>
      if left == {} {
        RepairedFits(s, k, r, replica, truth);
        GotoLeaves(s, k, r, tid, replica, Reconciled);
      } else if choice in left && choice in truth {
        ComparedFits(s, k, r, replica, left, truth, choice);
        GotoLeaves(s, k, r, tid, replica, Compared(IndexOf(s, replica), left, truth, choice));
      }
    case RepairFound(left, truth, e) =>
      RepairFits(s, k, r, replica, left, truth, e);
      PutLeaves(s, k, r, tid, replica, e, Repairing(left, truth));
  }

  function Compared(index: Index, left: set<Key>, truth: Index, choice: Key): Task
    requires choice in truth
  {
    if choice in index && index[choice] == truth[choice] then Repairing(left - {choice}, truth)
    else RepairFound(left - {choice}, truth, truth[choice])
  }

  lemma RepairedFits(s: State, k: Key, r: nat, replica: nat, truth: Index)
    requires k in s.storage.tags && OwnFits(s, k, r, replica, Repairing({}, truth))
    ensures OwnFits(s, k, r, replica, Reconciled)
  {
  }

  lemma ComparedFits(s: State, k: Key, r: nat, replica: nat, left: set<Key>, truth: Index, choice: Key)
    requires k in s.storage.tags && OwnFits(s, k, r, replica, Repairing(left, truth))
    requires choice in left && choice in truth && truth[choice].Coordinates() == choice
    ensures OwnFits(s, k, r, replica, Compared(IndexOf(s, replica), left, truth, choice))
  {
    hide Storage.ViewOf, IndexOf;
  }

  lemma RepairFits(s: State, k: Key, r: nat, replica: nat, left: set<Key>, truth: Index, e: Entry)
    requires k in s.storage.tags && OwnFits(s, k, r, replica, RepairFound(left, truth, e))
    ensures replica == r && e.Coordinates() == k ==> e == s.storage.ViewOf(k)
    ensures OwnFits(WithEntry(s, replica, e), k, r, replica, Repairing(left, truth))
  {
    hide Storage.ViewOf;
  }

  lemma ProceedLeaves(s: State, k: Key, r: nat, tid: nat, choice: Key)
    requires Safe(s) && LeftAlone(s, k, r) && tid in s.handlers
    ensures LeftAlone(Proceed(s, tid, choice), k, r)
  {
    hide Safe, LeftAlone;
    var task := s.handlers[tid].task;
    if task.TagStored? || task.TagRead? || task.StatusChosen? || task.StatusStored? {
      PublisherLeaves(s, k, r, tid, choice);
    } else if task.GovernanceStored? || task.Governing? || task.GovernedVersion? {
      GovernanceLeaves(s, k, r, tid, choice);
    } else if task.EventTaken? || task.EventTagRead? || task.EventStatusRead? || task.EventReady? {
      EventLeaves(s, k, r, tid, choice);
    } else if task.Harvesting? || task.HarvestedTag? || task.HarvestedStatus? {
      HarvestLeaves(s, k, r, tid, choice);
    } else if task.Repairing? || task.RepairFound? {
      RepairLeaves(s, k, r, tid, choice);
    }
  }

  lemma DoLeaves(s: State, k: Key, r: nat, step: Step)
    requires Safe(s) && LeftAlone(s, k, r) && Leaves(step, k, r)
    ensures LeftAlone(Do(s, step), k, r)
  {
    hide Safe, LeftAlone, Storage.ViewOf, Proceed, IndexOf, ShownAt;
    IsStored(s, k, r);
    match step
    case Publish(tid, replica, record, release) =>
      if tid !in s.handlers && replica in s.indexes {
        var task := TagStored(record.Coordinates());
        if record.Coordinates() !in s.storage.tags {
          FreshWriteLeaves(s, StoreTag(s, record), k, r, tid, replica, task);
        } else if release {
          GotoLeaves(s, k, r, tid, replica, task);
        }
      }
    case SetStatus(tid, replica, key, status) =>
      if tid !in s.handlers && replica in s.indexes && key in s.indexes[replica] {
        ShownHasKey(s, replica, key);
        GotoLeaves(s, k, r, tid, replica, StatusChosen(s.indexes[replica][key], status));
      }
    case SetGovernance(tid, replica, id, g) =>
      if tid !in s.handlers && replica in s.indexes {
        FreshWriteLeaves(s, StoreGovernance(s, id, g), k, r, tid, replica, GovernanceStored(id, g));
      }
    case TakeEvent(tid, replica, key) =>
      if tid !in s.handlers && replica in s.indexes {
        GotoLeaves(s, k, r, tid, replica, EventTaken(key));
      }
    case StartReplica(tid, replica) =>
      if tid !in s.handlers && replica !in s.indexes {
        GotoLeaves(s, k, r, tid, replica, Harvesting(true, s.storage.tags.Keys, map[]));
      }
    case StartReconcile(tid, replica) =>
      if tid !in s.handlers && replica in s.indexes {
        GotoLeaves(s, k, r, tid, replica, Harvesting(false, s.storage.tags.Keys, map[]));
      }
    case Advance(tid, choice) =>
      if tid in s.handlers {
        ProceedLeaves(s, k, r, tid, choice);
      }
    case Abandon(tid) => AbandonLeaves(s, k, r, tid);
  }

  lemma FreshWriteLeaves(s: State, u: State, k: Key, r: nat, tid: nat, replica: nat, task: Task)
    requires LeftAlone(s, k, r) && u.indexes == s.indexes && u.handlers == s.handlers && SameAt(s.storage, u.storage, k)
    requires k in u.storage.tags && !task.StatusChosen? && Undecided(k, task) && (task.TagStored? || task.GovernanceStored?) && replica in s.indexes
    ensures LeftAlone(At(u, tid, replica, task), k, r)
  {
    hide LeftAlone;
    StoreLeaves(s, u, k, r, tid, replica, task);
  }

  lemma ShownHasKey(s: State, r: nat, key: Key)
    requires Safe(s) && r in s.indexes && key in s.indexes[r]
    ensures s.indexes[r][key].Coordinates() == key
  {
    ShownIsLegit(s, r, key);
  }

  lemma AbandonLeaves(s: State, k: Key, r: nat, tid: nat)
    requires LeftAlone(s, k, r)
    ensures LeftAlone(s.(handlers := s.handlers - {tid}), k, r)
  {
    hide KeyCalm;
    var t := s.(handlers := s.handlers - {tid});
    forall i | i in t.handlers && t.handlers[i].replica == r
      ensures Fits(t, k, r, t.handlers[i].task)
    {
      assert Fits(s, k, r, s.handlers[i].task);
    }
  }

  lemma {:induction false} RunLeaves(s: State, k: Key, r: nat, steps: seq<Step>)
    requires Safe(s) && LeftAlone(s, k, r) && AllLeave(steps, k, r)
    ensures LeftAlone(Run(s, steps), k, r) && SameAt(s.storage, Run(s, steps).storage, k)
    decreases |steps|
  {
    hide Safe, LeftAlone, Do, Leaves;
    if steps != [] {
      var n := |steps| - 1;
      var mid := Run(s, steps[..n]);
      RunLeaves(s, k, r, steps[..n]);
      RunIsSafe(s, steps[..n]);
      DoLeaves(mid, k, r, steps[n]);
      StorageKeepsKey(mid, k, r, steps[n]);
    }
  }

  lemma StorageKeepsKey(s: State, k: Key, r: nat, step: Step)
    requires LeftAlone(s, k, r) && Leaves(step, k, r)
    ensures SameAt(s.storage, Do(s, step).storage, k)
  {
    hide KeyCalm, IndexOf;
  }

  // Where it starts.

  /** Every handler's replica is live unless the handler is to start it. */
  ghost predicate Housed(s: State) {
    forall tid :: tid in s.handlers ==> Starts(s.handlers[tid].task) || s.handlers[tid].replica in s.indexes
  }

  lemma StartingGoesOn(s: State, tid: nat, choice: Key)
    requires tid in s.handlers && Starts(s.handlers[tid].task)
    ensures var t := Proceed(s, tid, choice);
            tid in t.handlers && (Starts(t.handlers[tid].task) || t.handlers[tid].replica in t.indexes)
  {
    hide Parsed, ApplyStatus, ApplyGovernance, IndexOf;
  }

  lemma ProceedStaysHoused(s: State, tid: nat, choice: Key)
    requires tid in s.handlers && (Starts(s.handlers[tid].task) || s.handlers[tid].replica in s.indexes)
    ensures var t := Proceed(s, tid, choice);
            && t.handlers.Keys == s.handlers.Keys && s.indexes.Keys <= t.indexes.Keys
            && (forall i :: i in s.handlers && i != tid ==> t.handlers[i] == s.handlers[i])
            && (Starts(t.handlers[tid].task) || t.handlers[tid].replica in t.indexes)
  {
    hide Proceed;
    ProceedTouchesOne(s, tid, choice);
    if Starts(s.handlers[tid].task) {
      StartingGoesOn(s, tid, choice);
    }
  }

  lemma {:induction false} RunIsHoused(initial: State, steps: seq<Step>)
    requires Initial(initial)
    ensures Housed(Run(initial, steps))
    decreases |steps|
  {
    hide Proceed;
    if steps != [] {
      var n := |steps| - 1;
      var s := Run(initial, steps[..n]);
      RunIsHoused(initial, steps[..n]);
      if steps[n].Advance? && steps[n].tid in s.handlers {
        ProceedStaysHoused(s, steps[n].tid, steps[n].choice);
      }
    }
  }

  /** No handler anywhere is about to write the key, and none on the replica has
      read or decided anything about it. */
  ghost predicate Unclaimed(s: State, k: Key, r: nat) {
    && (forall tid :: tid in s.handlers && s.handlers[tid].task.StatusChosen? ==> s.handlers[tid].task.entry.Coordinates() != k)
    && forall tid :: tid in s.handlers && s.handlers[tid].replica == r ==> Undecided(k, s.handlers[tid].task)
  }

  lemma UndecidedIsCalm(storage: Storage, k: Key, shown: Option<Entry>, task: Task)
    requires k in storage.tags && Undecided(k, task)
    ensures KeyCalm(storage, k, shown, task)
  {
  }

  lemma UnclaimedIsLeftAlone(s: State, k: Key, r: nat)
    requires Housed(s) && Unclaimed(s, k, r) && k in s.storage.tags
    ensures LeftAlone(s, k, r)
  {
    hide KeyCalm, Undecided;
    forall tid | tid in s.handlers && s.handlers[tid].replica == r
      ensures Fits(s, k, r, s.handlers[tid].task)
    {
      UndecidedIsCalm(s.storage, k, ShownAt(IndexOf(s, r), k), s.handlers[tid].task);
    }
  }

  /** Convergence of one version on one replica, beside any traffic for others:
      once nothing writes the key and nothing but storage reads puts it on the
      replica, a reconcile completed since then makes it show what storage
      prescribes, and so it stays. */
  lemma KeyConverges(initial: State, history: seq<Step>, quiet: seq<Step>, k: Key, r: nat, tid: nat)
    requires Initial(initial)
    requires var s := Run(initial, history); k in s.storage.tags && Unclaimed(s, k, r)
    requires AllLeave(quiet, k, r)
    requires var t := Run(Run(initial, history), quiet);
             tid in t.handlers && t.handlers[tid] == Handler(r, Reconciled)
    ensures var s := Run(initial, history);
            var t := Run(s, quiet);
            && k in t.storage.tags && t.storage.ViewOf(k) == s.storage.ViewOf(k)
            && k in IndexOf(t, r) && IndexOf(t, r)[k] == t.storage.ViewOf(k)
  {
    hide Safe, Unclaimed, LeftAlone, AllLeave, SameAt, Housed, Do;
    var s := Run(initial, history);
    var t := Run(s, quiet);
    InitialIsSafe(initial);
    RunIsSafe(initial, history);
    RunIsHoused(initial, history);
    UnclaimedIsLeftAlone(s, k, r);
    RunLeaves(s, k, r, quiet);
    SameView(s.storage, t.storage, k);
    ReconciledShows(t, k, r, tid);
  }

  lemma ReconciledShows(s: State, k: Key, r: nat, tid: nat)
    requires LeftAlone(s, k, r) && tid in s.handlers && s.handlers[tid] == Handler(r, Reconciled)
    ensures k in s.storage.tags && k in IndexOf(s, r) && IndexOf(s, r)[k] == s.storage.ViewOf(k)
  {
    hide Storage.ViewOf;
    assert Fits(s, k, r, s.handlers[tid].task);
  }
}
