/** What replication guarantees once writers stop: one complete reconcile brings
    a replica exactly to the storage view, whatever was put before. */
module Convergence {
  import opened Registry
  import opened Replication
  import IndexStore
  import Reconciliation
  import Versions

  /** Steps that do not write to the store or put what was read before. */
  ghost predicate Calm(step: Step) {
    !step.Publish? && !step.SetStatus? && !step.SetGovernance?
  }

  ghost predicate AllCalm(steps: seq<Step>) {
    forall i :: 0 <= i < |steps| ==> Calm(steps[i])
  }

  /** The index shows what storage prescribes for `k`. */
  ghost predicate Settled(view: Index, index: Index, k: Key) {
    k in view && k in index && index[k] == view[k]
  }

  ghost predicate SettledExcept(view: Index, index: Index, left: set<Key>) {
    forall k :: k in view && k !in left ==> Settled(view, index, k)
  }

  ghost predicate Prescribed(view: Index, e: Entry) {
    e.Coordinates() in view && view[e.Coordinates()] == e
  }

  /** `truth` is the part of the view that has been harvested so far. */
  ghost predicate Harvested(view: Index, left: set<Key>, truth: Index) {
    truth.Keys == view.Keys - left && forall k :: k in truth ==> truth[k] == view[k]
  }

  /** A handler that was started after the writers stopped carries only what storage prescribes. */
  ghost predicate CalmTask(storage: Storage, view: Index, index: Index, task: Task) {
    match task
    case EventTaken(k) => true
    case EventTagRead(e) => TagRead(storage, e)
    case EventStatusRead(e) => StatusRead(storage, e)
    case EventReady(e) => Prescribed(view, e)
    case Harvesting(_, left, truth) => Harvested(view, left, truth)
    case HarvestedTag(_, left, truth, e) =>
      Harvested(view, left + {e.Coordinates()}, truth) && TagRead(storage, e) && e.Coordinates() !in left
    case HarvestedStatus(_, left, truth, e) =>
      Harvested(view, left + {e.Coordinates()}, truth) && StatusRead(storage, e) && e.Coordinates() !in left
    case Repairing(left, truth) => truth == view && SettledExcept(view, index, left)
    case RepairFound(left, truth, e) =>
      truth == view && Prescribed(view, e) && SettledExcept(view, index, left + {e.Coordinates()})
    case Reconciled => SettledExcept(view, index, {})
    case Finished => true
    case _ => false
  }

  ghost predicate TagRead(storage: Storage, e: Entry) {
    e.Coordinates() in storage.tags && e == Parsed(storage.tags[e.Coordinates()])
  }

  ghost predicate StatusRead(storage: Storage, e: Entry) {
    var k := e.Coordinates();
    k in storage.tags && e == ApplyStatus(Parsed(storage.tags[k]), storage.StatusOf(k))
  }

  predicate StartsReplica(task: Task) {
    (task.Harvesting? || task.HarvestedTag? || task.HarvestedStatus?) && task.starting
  }

  ghost predicate Settling(storage: Storage, s: State) {
    && s.storage == storage && storage.Filed()
    && (forall tid :: tid in s.handlers ==>
          StartsReplica(s.handlers[tid].task) || s.handlers[tid].replica in s.indexes)
    && forall tid :: tid in s.handlers ==>
         CalmTask(storage, storage.View(), IndexOf(s, s.handlers[tid].replica), s.handlers[tid].task)
  }

  /** An index change that loses nothing that was settled. */
  ghost predicate Improves(view: Index, before: Index, after: Index) {
    forall k :: Settled(view, before, k) ==> Settled(view, after, k)
  }

  lemma CalmTaskImproves(storage: Storage, view: Index, before: Index, after: Index, task: Task)
    requires CalmTask(storage, view, before, task) && Improves(view, before, after)
    ensures CalmTask(storage, view, after, task)
  {
    hide TagRead, StatusRead, Prescribed, Harvested;
  }

  lemma SettlingUpdate(storage: Storage, s: State, t: State, tid: nat, r: nat, task: Task)
    requires Settling(storage, s)
    requires t.storage == storage && t.handlers == s.handlers[tid := Handler(r, task)]
    requires s.indexes.Keys <= t.indexes.Keys && (StartsReplica(task) || r in t.indexes)
    requires forall i :: i != r ==> IndexOf(t, i) == IndexOf(s, i)
    requires Improves(storage.View(), IndexOf(s, r), IndexOf(t, r))
    requires CalmTask(storage, storage.View(), IndexOf(t, r), task)
    ensures Settling(storage, t)
  {
    hide CalmTask, Improves, Storage.View, IndexOf;
    forall i | i in t.handlers
      ensures CalmTask(storage, storage.View(), IndexOf(t, t.handlers[i].replica), t.handlers[i].task)
    {
      if i != tid && s.handlers[i].replica == r {
        CalmTaskImproves(storage, storage.View(), IndexOf(s, r), IndexOf(t, r), s.handlers[i].task);
      }
    }
  }

  lemma SettlingGoto(storage: Storage, s: State, tid: nat, r: nat, task: Task)
    requires Settling(storage, s) && (StartsReplica(task) || r in s.indexes)
    requires CalmTask(storage, storage.View(), IndexOf(s, r), task)
    ensures Settling(storage, At(s, tid, r, task))
  {
    hide CalmTask, Storage.View;
    SettlingUpdate(storage, s, At(s, tid, r, task), tid, r, task);
  }

  lemma SettlingPut(storage: Storage, s: State, tid: nat, r: nat, e: Entry, task: Task)
    requires Settling(storage, s) && Prescribed(storage.View(), e) && r in s.indexes
    requires CalmTask(storage, storage.View(), IndexOf(WithEntry(s, r, e), r), task)
    ensures Settling(storage, At(WithEntry(s, r, e), tid, r, task))
  {
    hide CalmTask, Storage.View;
    var t := At(WithEntry(s, r, e), tid, r, task);
    SettlingUpdate(storage, s, t, tid, r, task);
  }

  lemma SettlingInstall(storage: Storage, s: State, tid: nat, r: nat)
    requires Settling(storage, s)
    ensures Settling(storage, At(WithReplica(s, r, storage.View()), tid, r, Finished))
  {
    hide Storage.View;
    SettlingUpdate(storage, s, At(WithReplica(s, r, storage.View()), tid, r, Finished), tid, r, Finished);
  }

  lemma ReadsCompose(storage: Storage, e: Entry)
    requires storage.Filed()
    ensures TagRead(storage, e) ==> StatusRead(storage, ApplyStatus(e, storage.StatusOf(e.Coordinates())))
    ensures StatusRead(storage, e) ==> Prescribed(storage.View(), ApplyGovernance(e, storage.GovernanceOf(e.record.id)))
  {
  }

  lemma TagIsRead(storage: Storage, k: Key)
    requires storage.Filed() && k in storage.tags
    ensures TagRead(storage, Parsed(storage.tags[k])) && Parsed(storage.tags[k]).Coordinates() == k
    ensures storage.View().Keys == storage.tags.Keys
  {
  }

  lemma HarvestedAll(view: Index, truth: Index)
    requires Harvested(view, {}, truth)
    ensures truth == view
  {
  }

  lemma EventSettles(storage: Storage, s: State, tid: nat, choice: Key)
    requires Settling(storage, s) && tid in s.handlers
    requires var task := s.handlers[tid].task; task.EventTaken? || task.EventTagRead? || task.EventStatusRead? || task.EventReady?
    ensures Settling(storage, Proceed(s, tid, choice))
  {
    hide Settling, Storage.View, TagRead, StatusRead, Prescribed, IndexOf, SettledExcept;
    var Handler(r, task) := s.handlers[tid];
    SettlingFacts(storage, s, tid);
    match task
    case EventTaken(k) =>
      if k in storage.tags {
        TagIsRead(storage, k);
        SettlingGoto(storage, s, tid, r, EventTagRead(Parsed(storage.tags[k])));
      } else {
        SettlingGoto(storage, s, tid, r, Finished);
      }
    case EventTagRead(e) =>
      ReadsCompose(storage, e);
      SettlingGoto(storage, s, tid, r, EventStatusRead(ApplyStatus(e, storage.StatusOf(e.Coordinates()))));
    case EventStatusRead(e) =>
      ReadsCompose(storage, e);
      SettlingGoto(storage, s, tid, r, EventReady(ApplyGovernance(e, storage.GovernanceOf(e.record.id))));
    case EventReady(e) => SettlingPut(storage, s, tid, r, e, Finished);
  }

  lemma HarvestSettles(storage: Storage, s: State, tid: nat, choice: Key)
    requires Settling(storage, s) && tid in s.handlers
    requires var task := s.handlers[tid].task; task.Harvesting? || task.HarvestedTag? || task.HarvestedStatus?
    ensures Settling(storage, Proceed(s, tid, choice))
  {
    hide Settling, Storage.View, TagRead, StatusRead, Harvested, Prescribed, IndexOf, SettledExcept;
    var Handler(r, task) := s.handlers[tid];
    var view := storage.View();
    SettlingFacts(storage, s, tid);
    match task
    case Harvesting(starting, left, truth) =>
      if left == {} {
        HarvestedAll(view, truth);
        if starting {
          SettlingInstall(storage, s, tid, r);
        } else {
          NothingSettled(view, IndexOf(s, r));
          SettlingGoto(storage, s, tid, r, Repairing(truth.Keys, truth));
        }
      } else if choice in left && choice in storage.tags {
        TagIsRead(storage, choice);
        assert left - {choice} + {choice} == left;
        SettlingGoto(storage, s, tid, r, HarvestedTag(starting, left - {choice}, truth, Parsed(storage.tags[choice])));
      }
    case HarvestedTag(starting, left, truth, e) =>
      ReadsCompose(storage, e);
      SettlingGoto(storage, s, tid, r, HarvestedStatus(starting, left, truth, ApplyStatus(e, storage.StatusOf(e.Coordinates()))));
    case HarvestedStatus(starting, left, truth, e) =>
      ReadsCompose(storage, e);
      var read := ApplyGovernance(e, storage.GovernanceOf(e.record.id));
      HarvestOne(view, left, truth, read);
      SettlingGoto(storage, s, tid, r, Harvesting(starting, left, truth[e.Coordinates() := read]));
  }

  lemma RepairSettles(storage: Storage, s: State, tid: nat, choice: Key)
    requires Settling(storage, s) && tid in s.handlers
    requires s.handlers[tid].task.Repairing? || s.handlers[tid].task.RepairFound?
    ensures Settling(storage, Proceed(s, tid, choice))
  {
    hide Settling, Storage.View, Prescribed, IndexOf, SettledExcept;
    var Handler(r, task) := s.handlers[tid];
    var view := storage.View();
    SettlingFacts(storage, s, tid);
    match task
    case Repairing(left, truth) =>
      if left == {} {
        SettlingGoto(storage, s, tid, r, Reconciled);
      } else if choice in left && choice in truth {
        if choice in IndexOf(s, r) && IndexOf(s, r)[choice] == truth[choice] {
          MatchIsSettled(view, IndexOf(s, r), left, choice);
          SettlingGoto(storage, s, tid, r, Repairing(left - {choice}, truth));
        } else {
          ViewIsFiled(storage, choice);
          assert left - {choice} + {choice} == left;
          SettlingGoto(storage, s, tid, r, RepairFound(left - {choice}, truth, truth[choice]));
        }
      }
    case RepairFound(left, truth, e) =>
      PutSettles(storage, s, r, e, left);
      SettlingPut(storage, s, tid, r, e, Repairing(left, truth));
  }

  lemma NothingSettled(view: Index, index: Index)
    ensures SettledExcept(view, index, view.Keys)
  {
  }

  lemma MatchIsSettled(view: Index, index: Index, left: set<Key>, k: Key)
    requires SettledExcept(view, index, left) && k in view && k in index && index[k] == view[k]
    ensures SettledExcept(view, index, left - {k})
  {
  }

  lemma ProceedSettles(storage: Storage, s: State, tid: nat, choice: Key)
    requires Settling(storage, s) && tid in s.handlers
    ensures Settling(storage, Proceed(s, tid, choice))
  {
    SettlingFacts(storage, s, tid);
    match s.handlers[tid].task
    case EventTaken(_) => EventSettles(storage, s, tid, choice);
    case EventTagRead(_) => EventSettles(storage, s, tid, choice);
    case EventStatusRead(_) => EventSettles(storage, s, tid, choice);
    case EventReady(_) => EventSettles(storage, s, tid, choice);
    case Harvesting(_, _, _) => HarvestSettles(storage, s, tid, choice);
    case HarvestedTag(_, _, _, _) => HarvestSettles(storage, s, tid, choice);
    case HarvestedStatus(_, _, _, _) => HarvestSettles(storage, s, tid, choice);
    case Repairing(_, _) => RepairSettles(storage, s, tid, choice);
    case RepairFound(_, _, _) => RepairSettles(storage, s, tid, choice);
    case Reconciled =>
    case Finished =>
  }

  lemma SettlingFacts(storage: Storage, s: State, tid: nat)
    requires Settling(storage, s) && tid in s.handlers
    ensures s.storage == storage && storage.Filed()
    ensures StartsReplica(s.handlers[tid].task) || s.handlers[tid].replica in s.indexes
    ensures CalmTask(storage, storage.View(), IndexOf(s, s.handlers[tid].replica), s.handlers[tid].task)
  {
  }

  lemma HarvestOne(view: Index, left: set<Key>, truth: Index, e: Entry)
    requires Harvested(view, left + {e.Coordinates()}, truth) && Prescribed(view, e) && e.Coordinates() !in left
    ensures Harvested(view, left, truth[e.Coordinates() := e])
  {
  }

  lemma ViewIsFiled(storage: Storage, k: Key)
    requires storage.Filed() && k in storage.View()
    ensures storage.View()[k].Coordinates() == k && Prescribed(storage.View(), storage.View()[k])
  {
  }

  lemma PutSettles(storage: Storage, s: State, r: nat, e: Entry, left: set<Key>)
    requires Prescribed(storage.View(), e) && r in s.indexes
    requires SettledExcept(storage.View(), IndexOf(s, r), left + {e.Coordinates()})
    ensures SettledExcept(storage.View(), IndexOf(WithEntry(s, r, e), r), left)
  {
    hide Storage.View;
  }

  lemma DoSettles(storage: Storage, s: State, step: Step)
    requires Settling(storage, s) && Calm(step)
    ensures Settling(storage, Do(s, step))
  {
    hide Settling, CalmTask, Storage.View;
    StorageKept(storage, s);
    NothingHarvested(storage);
    match step
    case TakeEvent(tid, r, k) =>
      if tid !in s.handlers && r in s.indexes {
        EventsAreCalm(storage, s, r, k);
        SettlingGoto(storage, s, tid, r, EventTaken(k));
      }
    case StartReplica(tid, r) =>
      if tid !in s.handlers && r !in s.indexes {
        HarvestIsCalm(storage, s, r, true);
        SettlingGoto(storage, s, tid, r, Harvesting(true, storage.tags.Keys, map[]));
      }
    case StartReconcile(tid, r) =>
      if tid !in s.handlers && r in s.indexes {
        HarvestIsCalm(storage, s, r, false);
        SettlingGoto(storage, s, tid, r, Harvesting(false, storage.tags.Keys, map[]));
      }
    case Advance(tid, choice) =>
      if tid in s.handlers {
        ProceedSettles(storage, s, tid, choice);
      }
    case Abandon(tid) => SettlingAbandon(storage, s, tid);
  }

  lemma StorageKept(storage: Storage, s: State)
    requires Settling(storage, s)
    ensures s.storage == storage
  {
  }

  lemma NothingHarvested(storage: Storage)
    ensures Harvested(storage.View(), storage.tags.Keys, map[])
  {
  }

  lemma EventsAreCalm(storage: Storage, s: State, r: nat, k: Key)
    ensures CalmTask(storage, storage.View(), IndexOf(s, r), EventTaken(k))
  {
  }

  lemma HarvestIsCalm(storage: Storage, s: State, r: nat, starting: bool)
    ensures CalmTask(storage, storage.View(), IndexOf(s, r), Harvesting(starting, storage.tags.Keys, map[]))
  {
    NothingHarvested(storage);
  }

  lemma SettlingAbandon(storage: Storage, s: State, tid: nat)
    requires Settling(storage, s)
    ensures Settling(storage, s.(handlers := s.handlers - {tid}))
  {
  }

  lemma {:induction false} RunSettles(storage: Storage, s: State, steps: seq<Step>)
    requires Settling(storage, s) && AllCalm(steps)
    ensures Settling(storage, Run(s, steps))
    decreases |steps|
  {
    hide Settling, Do;
    if steps != [] {
      var n := |steps| - 1;
      RunSettles(storage, s, steps[..n]);
      DoSettles(storage, Run(s, steps[..n]), steps[n]);
    }
  }

  /** Convergence: after any run at all, once no handler is in flight and only
      reading handlers start, a completed reconcile leaves its replica equal to
      the storage view. */
  lemma ReconcileConverges(initial: State, history: seq<Step>, quiet: seq<Step>, tid: nat)
    requires Initial(initial) && Run(initial, history).handlers == map[]
    requires AllCalm(quiet)
    requires var t := Run(Run(initial, history), quiet); tid in t.handlers && t.handlers[tid].task == Reconciled
    ensures var t := Run(Run(initial, history), quiet);
            && t.storage == Run(initial, history).storage
            && IndexOf(t, t.handlers[tid].replica) == t.storage.View()
  {
    hide Safe, Do, Grows, Storage.View;
    var s := Run(initial, history);
    var t := Run(s, quiet);
    InitialIsSafe(initial);
    RunIsSafe(initial, history);
    RunIsSafe(s, quiet);
    StoreIsFiled(s);
    RunSettles(s.storage, s, quiet);
    StorageKept(s.storage, t);
    SettlingFacts(s.storage, t, tid);
    SettledMeansEqual(s.storage, t, t.handlers[tid].replica);
  }

  lemma StoreIsFiled(s: State)
    requires Safe(s)
    ensures s.storage.Filed()
  {
  }

  lemma SettledMeansEqual(storage: Storage, t: State, r: nat)
    requires Safe(t) && t.storage == storage
    requires SettledExcept(storage.View(), IndexOf(t, r), {})
    ensures IndexOf(t, r) == storage.View()
  {
    hide LegitTask, StoredIsRemembered;
    var index := IndexOf(t, r);
    forall k
      ensures k in index <==> k in storage.View()
      ensures k in index ==> index[k] == storage.View()[k]
    {
      if k in index {
        ShownIsLegit(t, r, k);
      }
      if k in storage.View() {
        assert Settled(storage.View(), index, k);
      }
    }
  }

  /** The ids that a read of an index returns: its cached listing, or all ids. */
  ghost function ReadIds(index: Index, cache: Option<set<string>>): set<string> {
    if cache.Some? then cache.value else IndexStore.IdsOf(index)
  }

  /** Two converged replicas resolve everything alike, and their checksums, taken over
      what their reads return, are equal exactly when those are the same ids: always
      when each cache is exact or absent, but not when one of them hides an id. */
  lemma ConvergedReplicasAgree(initial: State, history: seq<Step>, quiet: seq<Step>, a: nat, b: nat,
                               cacheA: Option<set<string>>, cacheB: Option<set<string>>,
                               hash: string -> string, lib: Versions.Library, id: string, constraint: Option<string>)
    requires Initial(initial) && Run(initial, history).handlers == map[]
    requires AllCalm(quiet)
    requires var t := Run(Run(initial, history), quiet);
             && a in t.handlers && t.handlers[a].task == Reconciled
             && b in t.handlers && t.handlers[b].task == Reconciled
             && ReadIds(IndexOf(t, t.handlers[a].replica), cacheA) <= IndexStore.IdsOf(IndexOf(t, t.handlers[a].replica))
             && ReadIds(IndexOf(t, t.handlers[b].replica), cacheB) <= IndexStore.IdsOf(IndexOf(t, t.handlers[b].replica))
    ensures var t := Run(Run(initial, history), quiet);
            var p, q := IndexOf(t, t.handlers[a].replica), IndexOf(t, t.handlers[b].replica);
            var x, y := ReadIds(p, cacheA), ReadIds(q, cacheB);
            && p == q
            && (x == y ==> Reconciliation.ListedChecksum(hash, p, x) == Reconciliation.ListedChecksum(hash, q, y))
            && (Reconciliation.Injective(hash) && Reconciliation.Printable(p) ==>
                  (Reconciliation.ListedChecksum(hash, p, x) == Reconciliation.ListedChecksum(hash, q, y) <==> x == y))
            && (cacheA in {None, Some(IndexStore.IdsOf(p))} && cacheB in {None, Some(IndexStore.IdsOf(q))} ==> x == y)
            && IndexStore.ResolveAmong(lib, IndexStore.VersionsOf(p, id), constraint)
               == IndexStore.ResolveAmong(lib, IndexStore.VersionsOf(q, id), constraint)
  {
    hide Initial, Do, IndexStore.ResolveAmong, IndexStore.VersionsOf, IndexStore.IdsOf, Reconciliation.ListedChecksum,
         Reconciliation.Injective, Reconciliation.Printable;
    ReconcileConverges(initial, history, quiet, a);
    ReconcileConverges(initial, history, quiet, b);
    var t := Run(Run(initial, history), quiet);
    var p := IndexOf(t, t.handlers[a].replica);
    if Reconciliation.Injective(hash) && Reconciliation.Printable(p) {
      Reconciliation.ListedChecksumIff(hash, p, ReadIds(p, cacheA), ReadIds(p, cacheB));
    }
  }

  lemma RunThree(s: State, a: Step, b: Step, c: Step)
    ensures Run(s, [a, b, c]) == Do(Do(Do(s, a), b), c)
  {
    hide Do;
    RunOneMore(s, [], a);
    RunOneMore(s, [a], b);
    RunOneMore(s, [a, b], c);
    assert [] + [a] == [a] && [a] + [b] == [a, b] && [a, b] + [c] == [a, b, c];
  }

  /** Reading one tag with its sidecars takes three steps. */
  lemma HarvestStep(s: State, tid: nat, r: nat, starting: bool, left: set<Key>, truth: Index, k: Key) returns (steps: seq<Step>)
    requires s.storage.Filed() && k in left && k in s.storage.tags
    requires tid in s.handlers && s.handlers[tid] == Handler(r, Harvesting(starting, left, truth))
    ensures AllCalm(steps)
    ensures Run(s, steps) == At(s, tid, r, Harvesting(starting, left - {k}, truth[k := s.storage.ViewOf(k)]))
  {
    hide Storage.ViewOf, Do;
    var step := Advance(tid, k);
    steps := [step, step, step];
    RunThree(s, step, step, step);
    var e := Parsed(s.storage.tags[k]);
    var e2 := ApplyStatus(e, s.storage.StatusOf(k));
    HarvestReadsTag(s, tid, r, starting, left, truth, k);
    var s1 := At(s, tid, r, HarvestedTag(starting, left - {k}, truth, e));
    HarvestReadsSidecars(s1, tid, r, starting, left - {k}, truth, e, k);
    assert s.storage.ViewOf(k) == ApplyGovernance(e2, s.storage.GovernanceOf(k.id)) by { ViewIsOverlay(s.storage, k); }
  }

  lemma ViewIsOverlay(storage: Storage, k: Key)
    requires k in storage.tags
    ensures storage.ViewOf(k)
            == ApplyGovernance(ApplyStatus(Parsed(storage.tags[k]), storage.StatusOf(k)), storage.GovernanceOf(k.id))
  {
  }

  lemma HarvestReadsTag(s: State, tid: nat, r: nat, starting: bool, left: set<Key>, truth: Index, k: Key)
    requires k in left && k in s.storage.tags
    requires tid in s.handlers && s.handlers[tid] == Handler(r, Harvesting(starting, left, truth))
    ensures Do(s, Advance(tid, k)) == At(s, tid, r, HarvestedTag(starting, left - {k}, truth, Parsed(s.storage.tags[k])))
  {
  }

  lemma HarvestReadsSidecars(s: State, tid: nat, r: nat, starting: bool, left: set<Key>, truth: Index, e: Entry, k: Key)
    requires e.Coordinates() == k
    requires tid in s.handlers && s.handlers[tid] == Handler(r, HarvestedTag(starting, left, truth, e))
    ensures Do(Do(s, Advance(tid, k)), Advance(tid, k))
            == At(s, tid, r, Harvesting(starting, left, truth[k :=
                 ApplyGovernance(ApplyStatus(e, s.storage.StatusOf(k)), s.storage.GovernanceOf(k.id))]))
  {
    assert Do(s, Advance(tid, k)) == At(s, tid, r, HarvestedStatus(starting, left, truth, ApplyStatus(e, s.storage.StatusOf(k))));
  }

  lemma {:induction false} HarvestRest(s: State, tid: nat, r: nat, starting: bool, left: set<Key>, truth: Index) returns (steps: seq<Step>)
    requires s.storage.Filed() && left <= s.storage.tags.Keys && Harvested(s.storage.View(), left, truth)
    requires tid in s.handlers && s.handlers[tid] == Handler(r, Harvesting(starting, left, truth))
    ensures AllCalm(steps)
    ensures Run(s, steps) == At(s, tid, r, Harvesting(starting, {}, s.storage.View()))
    decreases left
  {
    if left == {} {
      steps := [];
      HarvestedAll(s.storage.View(), truth);
      assert s.handlers[tid := s.handlers[tid]] == s.handlers;
    } else {
      var k :| k in left;
      var first := HarvestStep(s, tid, r, starting, left, truth, k);
      var t := Run(s, first);
      var rest := HarvestRest(t, tid, r, starting, left - {k}, truth[k := s.storage.ViewOf(k)]);
      steps := first + rest;
      RunInTwoParts(s, first, rest);
      assert Run(s, steps) == At(t, tid, r, Harvesting(starting, {}, s.storage.View()));
    }
  }

  lemma ComparesEqual(s: State, tid: nat, r: nat, left: set<Key>, truth: Index, k: Key)
    requires k in left && k in truth && r in s.indexes && k in s.indexes[r] && s.indexes[r][k] == truth[k]
    requires tid in s.handlers && s.handlers[tid] == Handler(r, Repairing(left, truth))
    ensures Do(s, Advance(tid, k)) == At(s, tid, r, Repairing(left - {k}, truth))
  {
  }

  lemma ComparesDifferent(s: State, tid: nat, r: nat, left: set<Key>, truth: Index, k: Key)
    requires k in left && k in truth && r in s.indexes && !(k in s.indexes[r] && s.indexes[r][k] == truth[k])
    requires tid in s.handlers && s.handlers[tid] == Handler(r, Repairing(left, truth))
    ensures Do(s, Advance(tid, k)) == At(s, tid, r, RepairFound(left - {k}, truth, truth[k]))
  {
  }

  lemma PutsRepair(s: State, tid: nat, r: nat, left: set<Key>, truth: Index, e: Entry, choice: Key)
    requires tid in s.handlers && s.handlers[tid] == Handler(r, RepairFound(left, truth, e))
    ensures Do(s, Advance(tid, choice)) == At(WithEntry(s, r, e), tid, r, Repairing(left, truth))
  {
  }

  /** Comparing one key takes one step, and a put when it differs. */
  lemma RepairStep(s: State, tid: nat, r: nat, left: set<Key>, truth: Index, k: Key) returns (steps: seq<Step>)
    requires k in left && k in truth && truth[k].Coordinates() == k && r in s.indexes
    requires tid in s.handlers && s.handlers[tid] == Handler(r, Repairing(left, truth))
    ensures AllCalm(steps)
    ensures Run(s, steps) == At(WithEntry(s, r, truth[k]), tid, r, Repairing(left - {k}, truth))
  {
    hide Do;
    var step := Advance(tid, k);
    RunOneMore(s, [], step);
    RunOneMore(s, [step], step);
    assert [] + [step] == [step];
    if k in s.indexes[r] && s.indexes[r][k] == truth[k] {
      steps := [step];
      ComparesEqual(s, tid, r, left, truth, k);
      assert s.indexes[r][k := truth[k]] == s.indexes[r];
      assert s.indexes[r := s.indexes[r]] == s.indexes;
    } else {
      steps := [step] + [step];
      ComparesDifferent(s, tid, r, left, truth, k);
      PutsRepair(Do(s, step), tid, r, left - {k}, truth, truth[k], k);
    }
  }

  lemma FinishesRepair(s: State, tid: nat, r: nat, truth: Index, choice: Key)
    requires r in s.indexes && tid in s.handlers && s.handlers[tid] == Handler(r, Repairing({}, truth))
    ensures Do(s, Advance(tid, choice)) == At(s, tid, r, Reconciled)
  {
  }

  /** The index with the truth laid over it, except where repairs are still left. */
  ghost function RepairedIndex(before: Index, truth: Index, left: set<Key>): Index {
    before + (truth - (truth.Keys - left))
  }

  lemma RepairOneThenRest(before: Index, truth: Index, left: set<Key>, k: Key)
    requires k in left && k in truth
    ensures RepairedIndex(before[k := truth[k]], truth, left - {k}) == RepairedIndex(before, truth, left)
    ensures RepairedIndex(before, truth, {}) == before
  {
  }

  lemma {:induction false} RepairRest(s: State, tid: nat, r: nat, left: set<Key>, truth: Index) returns (steps: seq<Step>)
    requires left <= truth.Keys && r in s.indexes && forall k :: k in truth ==> truth[k].Coordinates() == k
    requires tid in s.handlers && s.handlers[tid] == Handler(r, Repairing(left, truth))
    ensures AllCalm(steps)
    ensures Run(s, steps) == At(s.(indexes := s.indexes[r := RepairedIndex(s.indexes[r], truth, left)]), tid, r, Reconciled)
    decreases left
  {
    hide Do;
    if left == {} {
      steps := [Advance(tid, Key("", ""))];
      RunOneMore(s, [], steps[0]);
      assert [] + [steps[0]] == steps;
      FinishesRepair(s, tid, r, truth, Key("", ""));
      assert RepairedIndex(s.indexes[r], truth, {}) == s.indexes[r];
      assert s.indexes[r := s.indexes[r]] == s.indexes;
    } else {
      hide RepairedIndex;
      var k :| k in left;
      var first := RepairStep(s, tid, r, left, truth, k);
      var t := Run(s, first);
      var rest := RepairRest(t, tid, r, left - {k}, truth);
      steps := first + rest;
      RunInTwoParts(s, first, rest);
      RepairOneThenRest(s.indexes[r], truth, left, k);
    }
  }

  lemma RepairsWhole(before: Index, truth: Index)
    ensures RepairedIndex(before, truth, truth.Keys) == before + truth
  {
  }

  /** Left alone, a reconcile always completes, and its effect is the one that
      the sequential `Reconcile` promises. */
  lemma ReconcileCompletes(s: State, tid: nat, r: nat) returns (steps: seq<Step>)
    requires s.storage.Filed() && r in s.indexes && tid !in s.handlers
    ensures AllCalm(steps)
    ensures Run(s, steps) == At(s.(indexes := s.indexes[r := s.indexes[r] + s.storage.View()]), tid, r, Reconciled)
  {
    hide Harvested, Storage.View, Do, RepairedIndex;
    var view := s.storage.View();
    var start, next := StartReconcile(tid, r), Advance(tid, Key("", ""));
    var s1 := At(s, tid, r, Harvesting(false, s.storage.tags.Keys, map[]));
    NothingHarvested(s.storage);
    var harvest := HarvestRest(s1, tid, r, false, s.storage.tags.Keys, map[]);
    var s2 := At(s, tid, r, Harvesting(false, {}, view));
    var s3 := At(s, tid, r, Repairing(view.Keys, view));
    forall k | k in view
      ensures view[k].Coordinates() == k
    {
      ViewIsFiled(s.storage, k);
    }
    var repair := RepairRest(s3, tid, r, view.Keys, view);
    RepairsWhole(s.indexes[r], view);
    assert At(s1, tid, r, s2.handlers[tid].task) == s2;
    StartRepairing(s2, tid, r, view, next.choice);
    steps := [start] + harvest + [next] + repair;
    assert Calm(start) && Calm(next);
    ReconcileStarts(s, tid, r);
    assert Do(s, start) == s1;
    RunOneMore(s, [], start);
    assert [] + [start] == [start];
    RunInTwoParts(s, [start], harvest);
    RunOneMore(s, [start] + harvest, next);
    assert Run(s, [start] + harvest) == s2;
    assert Run(s, [start] + harvest + [next]) == s3;
    RunInTwoParts(s, [start] + harvest + [next], repair);
    assert Run(s, steps) == Run(s3, repair);
    assert AllCalm(steps);
  }

  lemma StartRepairing(s: State, tid: nat, r: nat, truth: Index, choice: Key)
    requires tid in s.handlers && s.handlers[tid] == Handler(r, Harvesting(false, {}, truth))
    ensures Do(s, Advance(tid, choice)) == At(s, tid, r, Repairing(truth.Keys, truth))
  {
  }

  /** The publish and release paths put a record without its sidecars. That
      shows what storage prescribes exactly when the sidecars are absent or
      hold the defaults. */
  lemma RecordPutShowsViewIff(storage: Storage, k: Key)
    requires k in storage.tags
    ensures Parsed(storage.tags[k]) == storage.ViewOf(k)
            <==> storage.StatusOf(k) in {None, Some(Active)} && storage.GovernanceOf(k.id) in {None, Some(UNGOVERNED)}
  {
  }

  ghost predicate AllStopped(s: State) {
    forall tid :: tid in s.handlers ==> s.handlers[tid].task.Finished? || s.handlers[tid].task.Reconciled?
  }

  /** Why the claim needs a reconcile started after the writers stopped: one
      that overlaps a yank puts the version back as active, and with every
      handler stopped the replica still offers what storage has yanked. */
  lemma OverlappingReconcileUndoesYank(record: Record, store: Storage) returns (initial: State, steps: seq<Step>)
    requires store == Storage(map[record.Coordinates() := record], map[], map[])
    ensures initial == State(store, {}, {}, map[], map[]) && Initial(initial)
    ensures var t := Run(initial, steps);
            && AllStopped(t)
            && t.storage.StatusOf(record.Coordinates()) == Some(Yanked)
            && record.Coordinates() in IndexOf(t, 0) && IndexOf(t, 0)[record.Coordinates()].status == Active
  {
    var k := record.Coordinates();
    initial := State(store, {}, {}, map[], map[]);
    var prelude, s := ReplicaAndReconcileStart(record, store, initial);
    var rest := YankThenRepair(record, s);
    steps := prelude + rest;
    RunInTwoParts(initial, prelude, rest);
  }

  /** Replica 0 is live and handler 1 has harvested the version while it was active. */
  ghost function Overlapped(record: Record, store: Storage): State {
    var truth: Index := map[record.Coordinates() := Parsed(record)];
    State(store, {}, {}, map[0 := truth],
          map[0 := Handler(0, Finished), 1 := Handler(0, Harvesting(false, {}, truth))])
  }

  lemma ReplicaAndReconcileStart(record: Record, store: Storage, initial: State) returns (steps: seq<Step>, s: State)
    requires store == Storage(map[record.Coordinates() := record], map[], map[])
    requires initial == State(store, {}, {}, map[], map[])
    ensures s == Run(initial, steps) == Overlapped(record, store)
  {
    hide Do, Storage.ViewOf;
    var k := record.Coordinates();
    var live: State;
    NothingStored(record, store);
    steps, live := ReplicaStarts(record, store, initial);
    ReconcileStarts(live, 1, 0);
    var started := OneStep(initial, steps, StartReconcile(1, 0));
    steps := steps + [StartReconcile(1, 0)];
    var harvest := HarvestStep(started, 1, 0, false, {k}, map[], k);
    RunInTwoParts(initial, steps, harvest);
    steps := steps + harvest;
    s := Run(initial, steps);
    assert {k} - {k} == {};
  }

  /** Replica 0 goes live with the one version there is. */
  lemma ReplicaStarts(record: Record, store: Storage, initial: State) returns (steps: seq<Step>, live: State)
    requires store == Storage(map[record.Coordinates() := record], map[], map[])
    requires initial == State(store, {}, {}, map[], map[])
    ensures live == Run(initial, steps)
    ensures live == State(store, {}, {}, map[0 := map[record.Coordinates() := Parsed(record)]], map[0 := Handler(0, Finished)])
  {
    hide Do, Storage.ViewOf;
    var k := record.Coordinates();
    NothingStored(record, store);
    var s0 := OneStep(initial, [], StartReplica(0, 0));
    BootstrapStarts(initial, 0, 0);
    var boot := HarvestStep(s0, 0, 0, true, {k}, map[], k);
    RunInTwoParts(initial, [] + [StartReplica(0, 0)], boot);
    steps := [] + [StartReplica(0, 0)] + boot;
    assert {k} - {k} == {};
    GoesLive(Run(initial, steps), 0, 0, map[k := Parsed(record)], k);
    live := OneStep(initial, steps, Advance(0, k));
    steps := steps + [Advance(0, k)];
  }

  lemma NothingStored(record: Record, store: Storage)
    requires store == Storage(map[record.Coordinates() := record], map[], map[])
    ensures store.ViewOf(record.Coordinates()) == Parsed(record) && store.tags.Keys == {record.Coordinates()}
    ensures store.Filed()
  {
  }

  lemma BootstrapStarts(s: State, tid: nat, r: nat)
    requires tid !in s.handlers && r !in s.indexes
    ensures Do(s, StartReplica(tid, r)) == At(s, tid, r, Harvesting(true, s.storage.tags.Keys, map[]))
  {
  }

  lemma GoesLive(s: State, tid: nat, r: nat, truth: Index, choice: Key)
    requires tid in s.handlers && s.handlers[tid] == Handler(r, Harvesting(true, {}, truth)) && r !in s.indexes
    ensures Do(s, Advance(tid, choice)) == At(s.(indexes := s.indexes[r := truth]), tid, r, Finished)
  {
  }

  lemma ReconcileStarts(s: State, tid: nat, r: nat)
    requires tid !in s.handlers && r in s.indexes
    ensures Do(s, StartReconcile(tid, r)) == At(s, tid, r, Harvesting(false, s.storage.tags.Keys, map[]))
  {
  }

  /** The yank runs to its end; then the reconcile puts back what it harvested. */
  lemma YankThenRepair(record: Record, s: State) returns (steps: seq<Step>)
    requires s == Overlapped(record, Storage(map[record.Coordinates() := record], map[], map[]))
    ensures var t := Run(s, steps);
            && AllStopped(t)
            && t.storage.StatusOf(record.Coordinates()) == Some(Yanked)
            && record.Coordinates() in IndexOf(t, 0) && IndexOf(t, 0)[record.Coordinates()].status == Active
  {
    var k := record.Coordinates();
    var e := Parsed(record);
    var truth: Index := map[k := e];
    var start, yank := SetStatus(2, 0, k, Yanked), Advance(2, k);
    RunThree(s, start, yank, yank);
    YankRuns(record, s);
    var yanked := Run(s, [start, yank, yank]);
    assert truth.Keys == {k};
    StartRepairing(yanked, 1, 0, truth, k);
    var repairing := Do(yanked, Advance(1, k));
    var rest := RepairRest(repairing, 1, 0, {k}, truth);
    RunOneMore(s, [start, yank, yank], Advance(1, k));
    RunInTwoParts(s, [start, yank, yank] + [Advance(1, k)], rest);
    steps := [start, yank, yank] + [Advance(1, k)] + rest;
    hide Do;
    assert Run(s, steps).indexes[0][k] == e;
  }

  lemma YankRuns(record: Record, s: State)
    requires s == Overlapped(record, Storage(map[record.Coordinates() := record], map[], map[]))
    ensures var k, e := record.Coordinates(), Parsed(record);
            var yank := Advance(2, k);
            var yanked := Do(Do(Do(s, SetStatus(2, 0, k, Yanked)), yank), yank);
            && yanked.storage == s.storage.(statuses := map[k := Yanked])
            && yanked.indexes == map[0 := map[k := e.(status := Yanked)]]
            && yanked.handlers == s.handlers[2 := Handler(0, Finished)]
  {
    var k, e := record.Coordinates(), Parsed(record);
    var yank := Advance(2, k);
    var y1 := Do(s, SetStatus(2, 0, k, Yanked));
    assert y1 == At(s, 2, 0, StatusChosen(e, Yanked));
    var y2 := Do(y1, yank);
    assert y2 == At(StoreStatus(s, k, Yanked), 2, 0, StatusStored(e, Yanked));
    assert Do(y2, yank) == At(WithEntry(y2, 0, e.(status := Yanked)), 2, 0, Finished);
    assert map[k := e][k := e.(status := Yanked)] == map[k := e.(status := Yanked)];
  }

  lemma OneStep(initial: State, steps: seq<Step>, step: Step) returns (s: State)
    ensures s == Do(Run(initial, steps), step) == Run(initial, steps + [step])
  {
    RunOneMore(initial, steps, step);
    s := Do(Run(initial, steps), step);
  }
}
