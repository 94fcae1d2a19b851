/** Many replicas over one store: every handler runs as a sequence of single
    store reads, store writes and index puts, interleaved in any order. */
module Replication {
  import opened Registry

  /** What a handler is about to do next. A sidecar's existence test and its
      read count as one read, because sidecars are never removed. */
  datatype Task =
    // Publish and release: read the tag back, then put it without sidecars.
    | TagStored(k: Key)
    | TagRead(record: Record)
    // Yank and unyank: write the status sidecar, then put the entry seen before.
    | StatusChosen(entry: Entry, status: Status)
    | StatusStored(entry: Entry, status: Status)
    // Governance: list the versions shown, then put each one.
    | GovernanceStored(id: string, governance: Governance)
    | Governing(id: string, governance: Governance, versions: set<string>)
    | GovernedVersion(id: string, governance: Governance, versions: set<string>, entry: Entry)
    // Event consumer: tag, status, governance, put.
    | EventTaken(k: Key)
    | EventTagRead(entry: Entry)
    | EventStatusRead(entry: Entry)
    | EventReady(entry: Entry)
    // Rebuilding from storage, to start a replica or to reconcile one.
    | Harvesting(starting: bool, left: set<Key>, truth: Index)
    | HarvestedTag(starting: bool, left: set<Key>, truth: Index, entry: Entry)
    | HarvestedStatus(starting: bool, left: set<Key>, truth: Index, entry: Entry)
    | Repairing(left: set<Key>, truth: Index)
    | RepairFound(left: set<Key>, truth: Index, entry: Entry)
    | Reconciled
    | Finished

  datatype Handler = Handler(replica: nat, task: Task)

  /** `statusesStored` and `governanceStored` remember every sidecar value that
      the store has held. */
  datatype State = State(
    storage: Storage,
    statusesStored: set<(Key, Status)>,
    governanceStored: set<(string, Governance)>,
    indexes: map<nat, Index>,
    handlers: map<nat, Handler>)

  datatype Step =
    | Publish(tid: nat, replica: nat, record: Record, release: bool)
    | SetStatus(tid: nat, replica: nat, k: Key, status: Status)
    | SetGovernance(tid: nat, replica: nat, id: string, governance: Governance)
    | TakeEvent(tid: nat, replica: nat, k: Key)
    | StartReplica(tid: nat, replica: nat)
    | StartReconcile(tid: nat, replica: nat)
    | Advance(tid: nat, choice: Key)
    | Abandon(tid: nat)

  function At(s: State, tid: nat, replica: nat, task: Task): State {
    s.(handlers := s.handlers[tid := Handler(replica, task)])
  }

  function IndexOf(s: State, replica: nat): Index {
    if replica in s.indexes then s.indexes[replica] else map[]
  }

  function WithEntry(s: State, replica: nat, e: Entry): State {
    if replica in s.indexes then s.(indexes := s.indexes[replica := s.indexes[replica][e.Coordinates() := e]]) else s
  }

  /** A rebuilt index goes live unless the replica is live already. */
  function WithReplica(s: State, replica: nat, index: Index): State {
    if replica in s.indexes then s else s.(indexes := s.indexes[replica := index])
  }

  function StoreStatus(s: State, k: Key, status: Status): State {
    s.(storage := s.storage.(statuses := s.storage.statuses[k := status]),
       statusesStored := s.statusesStored + {(k, status)})
  }

  function StoreGovernance(s: State, id: string, g: Governance): State {
    s.(storage := s.storage.(governance := s.storage.governance[id := g]),
       governanceStored := s.governanceStored + {(id, g)})
  }

  function StoreTag(s: State, record: Record): State {
    s.(storage := s.storage.(tags := s.storage.tags[record.Coordinates() := record]))
  }

  /** The effect of the next action of handler `tid`; `choice` resolves its iteration order. */
  function Proceed(s: State, tid: nat, choice: Key): State
    requires tid in s.handlers
  {
    var Handler(r, task) := s.handlers[tid];
    match task
    case TagStored(k) =>
      At(s, tid, r, if k in s.storage.tags then TagRead(s.storage.tags[k]) else Finished)
    case TagRead(record) => At(WithEntry(s, r, Parsed(record)), tid, r, Finished)
    case StatusChosen(e, status) =>
      At(StoreStatus(s, e.Coordinates(), status), tid, r, StatusStored(e, status))
    case StatusStored(e, status) => At(WithEntry(s, r, e.(status := status)), tid, r, Finished)
    case GovernanceStored(id, g) =>
      At(s, tid, r, Governing(id, g, set k | k in IndexOf(s, r) && k.id == id :: k.version))
    case Governing(id, g, left) =>
      if left == {} then At(s, tid, r, Finished)
      else if choice.version !in left then s
      else
        var k := Key(id, choice.version);
        At(s, tid, r,
           if k in IndexOf(s, r) then GovernedVersion(id, g, left - {k.version}, IndexOf(s, r)[k])
           else Governing(id, g, left - {k.version}))
    case GovernedVersion(id, g, left, e) =>
      At(WithEntry(s, r, ApplyGovernance(e, Some(g))), tid, r, Governing(id, g, left))
    case EventTaken(k) =>
      At(s, tid, r, if k in s.storage.tags then EventTagRead(Parsed(s.storage.tags[k])) else Finished)
    case EventTagRead(e) =>
      At(s, tid, r, EventStatusRead(ApplyStatus(e, s.storage.StatusOf(e.Coordinates()))))
    case EventStatusRead(e) =>
      At(s, tid, r, EventReady(ApplyGovernance(e, s.storage.GovernanceOf(e.record.id))))
    case EventReady(e) => At(WithEntry(s, r, e), tid, r, Finished)
    case Harvesting(starting, left, truth) =>
      if left == {} then
        if starting then At(WithReplica(s, r, truth), tid, r, Finished)
        else At(s, tid, r, Repairing(truth.Keys, truth))
      else if choice !in left || choice !in s.storage.tags then s
      else At(s, tid, r, HarvestedTag(starting, left - {choice}, truth, Parsed(s.storage.tags[choice])))
    case HarvestedTag(starting, left, truth, e) =>
      At(s, tid, r, HarvestedStatus(starting, left, truth, ApplyStatus(e, s.storage.StatusOf(e.Coordinates()))))
    case HarvestedStatus(starting, left, truth, e) =>
      At(s, tid, r, Harvesting(starting, left,
                               truth[e.Coordinates() := ApplyGovernance(e, s.storage.GovernanceOf(e.record.id))]))
    case Repairing(left, truth) =>
      if left == {} then At(s, tid, r, Reconciled)
      else if choice !in left || choice !in truth then s
      else if choice in IndexOf(s, r) && IndexOf(s, r)[choice] == truth[choice] then
        At(s, tid, r, Repairing(left - {choice}, truth))
      else At(s, tid, r, RepairFound(left - {choice}, truth, truth[choice]))
    case RepairFound(left, truth, e) => At(WithEntry(s, r, e), tid, r, Repairing(left, truth))
    case Reconciled => s
    case Finished => s
  }

  /** One step; a step that is not enabled changes nothing. */
  function Do(s: State, step: Step): State {
    match step
    case Publish(tid, r, record, release) =>
      if tid in s.handlers || r !in s.indexes then s
      else if record.Coordinates() !in s.storage.tags then
        At(StoreTag(s, record), tid, r, TagStored(record.Coordinates()))
      else if release then At(s, tid, r, TagStored(record.Coordinates()))
      else s
    case SetStatus(tid, r, k, status) =>
      if tid in s.handlers || r !in s.indexes || k !in s.indexes[r] then s
      else At(s, tid, r, StatusChosen(s.indexes[r][k], status))
    case SetGovernance(tid, r, id, g) =>
      if tid in s.handlers || r !in s.indexes then s
      else At(StoreGovernance(s, id, g), tid, r, GovernanceStored(id, g))
    case TakeEvent(tid, r, k) =>
      if tid in s.handlers || r !in s.indexes then s else At(s, tid, r, EventTaken(k))
    case StartReplica(tid, r) =>
      if tid in s.handlers || r in s.indexes then s
      else At(s, tid, r, Harvesting(true, s.storage.tags.Keys, map[]))
    case StartReconcile(tid, r) =>
      if tid in s.handlers || r !in s.indexes then s
      else At(s, tid, r, Harvesting(false, s.storage.tags.Keys, map[]))
    case Advance(tid, choice) =>
      if tid in s.handlers then Proceed(s, tid, choice) else s
    case Abandon(tid) =>
      s.(handlers := s.handlers - {tid})
  }

  function Run(s: State, steps: seq<Step>): State
    decreases |steps|
  {
    if steps == [] then s else Do(Run(s, steps[..|steps| - 1]), steps[|steps| - 1])
  }

  /** A store with whatever was published before, and no replica running yet. */
  ghost predicate Initial(s: State) {
    && s.storage.Filed()
    && s.statusesStored == (set k | k in s.storage.statuses :: (k, s.storage.statuses[k]))
    && s.governanceStored == (set id | id in s.storage.governance :: (id, s.storage.governance[id]))
    && s.indexes == map[] && s.handlers == map[]
  }

  /** The facts that entries are checked against; they only ever grow. */
  datatype Facts = Facts(tags: map<Key, Record>, statuses: set<(Key, Status)>, governance: set<(string, Governance)>)

  function FactsOf(s: State): Facts {
    Facts(s.storage.tags, s.statusesStored, s.governanceStored)
  }

  ghost predicate Within(f: Facts, g: Facts) {
    && (forall k :: k in f.tags ==> k in g.tags && g.tags[k] == f.tags[k])
    && f.statuses <= g.statuses
    && f.governance <= g.governance
  }

  /** The entry is its stored tag with a default or once-stored status and governance. */
  ghost predicate Legit(f: Facts, e: Entry) {
    && e.Coordinates() in f.tags && f.tags[e.Coordinates()] == e.record
    && (e.status == Active || (e.Coordinates(), e.status) in f.statuses)
    && (e.governance == UNGOVERNED || (e.record.id, e.governance) in f.governance)
  }

  ghost predicate LegitIndex(f: Facts, index: Index) {
    forall k :: k in index ==> index[k].Coordinates() == k && Legit(f, index[k])
  }

  ghost predicate LegitTask(f: Facts, task: Task) {
    match task
    case TagStored(k) => k in f.tags
    case TagRead(record) => Legit(f, Parsed(record))
    case StatusChosen(e, status) => Legit(f, e)
    case StatusStored(e, status) => Legit(f, e) && (e.Coordinates(), status) in f.statuses
    case GovernanceStored(id, g) => (id, g) in f.governance
    case Governing(id, g, left) => (id, g) in f.governance
    case GovernedVersion(id, g, left, e) => (id, g) in f.governance && Legit(f, e) && e.record.id == id
    case EventTaken(k) => true
    case EventTagRead(e) => Legit(f, e)
    case EventStatusRead(e) => Legit(f, e)
    case EventReady(e) => Legit(f, e)
    case Harvesting(_, left, truth) => LegitIndex(f, truth)
    case HarvestedTag(_, left, truth, e) => LegitIndex(f, truth) && Legit(f, e)
    case HarvestedStatus(_, left, truth, e) => LegitIndex(f, truth) && Legit(f, e)
    case Repairing(left, truth) => LegitIndex(f, truth)
    case RepairFound(left, truth, e) => LegitIndex(f, truth) && Legit(f, e)
    case Reconciled => true
    case Finished => true
  }

  ghost predicate StoredIsRemembered(s: State) {
    && s.storage.Filed()
    && (forall k :: k in s.storage.statuses ==> (k, s.storage.statuses[k]) in s.statusesStored)
    && (forall id :: id in s.storage.governance ==> (id, s.storage.governance[id]) in s.governanceStored)
  }

  ghost predicate Safe(s: State) {
    && StoredIsRemembered(s)
    && (forall r :: r in s.indexes ==> LegitIndex(FactsOf(s), s.indexes[r]))
    && (forall tid :: tid in s.handlers ==> LegitTask(FactsOf(s), s.handlers[tid].task))
  }

  /** Keys stay shown, and tags and once-stored values stay on record. */
  ghost predicate Grows(s: State, t: State) {
    && Within(FactsOf(s), FactsOf(t))
    && forall r :: r in s.indexes ==> r in t.indexes && s.indexes[r].Keys <= t.indexes[r].Keys
  }

  lemma LegitIndexGrows(f: Facts, g: Facts, index: Index)
    requires Within(f, g) && LegitIndex(f, index)
    ensures LegitIndex(g, index)
  {
  }

  lemma LegitTaskGrows(f: Facts, g: Facts, task: Task)
    requires Within(f, g) && LegitTask(f, task)
    ensures LegitTask(g, task)
  {
    hide LegitIndex;
    if task.Harvesting? || task.HarvestedTag? || task.HarvestedStatus? || task.Repairing? || task.RepairFound? {
      LegitIndexGrows(f, g, task.truth);
    }
  }

  /** A step that replaces one index and one task by legit ones keeps the state safe. */
  lemma SafeUpdate(s: State, t: State, tid: nat, r: nat)
    requires Safe(s) && StoredIsRemembered(t) && Within(FactsOf(s), FactsOf(t))
    requires tid in t.handlers && t.handlers == s.handlers[tid := Handler(r, t.handlers[tid].task)]
    requires t.indexes == s.indexes || (r in t.indexes && t.indexes == s.indexes[r := t.indexes[r]])
    requires r in t.indexes ==> LegitIndex(FactsOf(t), t.indexes[r])
    requires r in s.indexes ==> s.indexes[r].Keys <= t.indexes[r].Keys
    requires LegitTask(FactsOf(t), t.handlers[tid].task)
    ensures Safe(t) && Grows(s, t)
  {
    hide LegitIndex, LegitTask, Within;
    forall i | i in t.indexes
      ensures LegitIndex(FactsOf(t), t.indexes[i])
    {
      if i != r {
        LegitIndexGrows(FactsOf(s), FactsOf(t), s.indexes[i]);
      }
    }
    forall i | i in t.handlers
      ensures LegitTask(FactsOf(t), t.handlers[i].task)
    {
      if i != tid {
        LegitTaskGrows(FactsOf(s), FactsOf(t), s.handlers[i].task);
      }
    }
  }

  lemma LegitIndexPut(f: Facts, index: Index, e: Entry)
    requires LegitIndex(f, index) && Legit(f, e)
    ensures LegitIndex(f, index[e.Coordinates() := e])
  {
  }

  lemma SafeGoto(s: State, tid: nat, r: nat, task: Task)
    requires Safe(s) && LegitTask(FactsOf(s), task)
    ensures Safe(At(s, tid, r, task)) && Grows(s, At(s, tid, r, task))
  {
    hide LegitIndex, LegitTask;
    SafeUpdate(s, At(s, tid, r, task), tid, r);
  }

  lemma SafePut(s: State, tid: nat, r: nat, e: Entry, task: Task)
    requires Safe(s) && Legit(FactsOf(s), e) && LegitTask(FactsOf(s), task)
    ensures var t := At(WithEntry(s, r, e), tid, r, task); Safe(t) && Grows(s, t)
  {
    hide LegitIndex, LegitTask, Legit;
    if r in s.indexes {
      LegitIndexPut(FactsOf(s), s.indexes[r], e);
    }
    SafeUpdate(s, At(WithEntry(s, r, e), tid, r, task), tid, r);
  }

  lemma SafeStart(s: State, tid: nat, r: nat, truth: Index)
    requires Safe(s) && LegitIndex(FactsOf(s), truth)
    ensures var t := At(WithReplica(s, r, truth), tid, r, Finished); Safe(t) && Grows(s, t)
  {
    hide LegitIndex;
    SafeUpdate(s, At(WithReplica(s, r, truth), tid, r, Finished), tid, r);
  }

  /** A store write that only adds facts, followed by a legit task. */
  lemma SafeStore(s: State, u: State, tid: nat, r: nat, task: Task)
    requires Safe(s) && StoredIsRemembered(u) && Within(FactsOf(s), FactsOf(u))
    requires u.indexes == s.indexes && u.handlers == s.handlers
    requires LegitTask(FactsOf(u), task)
    ensures Safe(At(u, tid, r, task)) && Grows(s, At(u, tid, r, task))
  {
    hide LegitIndex, LegitTask, Within;
    if r in s.indexes {
      LegitIndexGrows(FactsOf(s), FactsOf(u), s.indexes[r]);
    }
    var t := At(u, tid, r, task);
    assert FactsOf(t) == FactsOf(u);
    SafeUpdate(s, t, tid, r);
  }

  lemma LegitParsed(s: State, k: Key)
    requires Safe(s) && k in s.storage.tags
    ensures Legit(FactsOf(s), Parsed(s.storage.tags[k])) && s.storage.tags[k].Coordinates() == k
  {
    hide LegitIndex, LegitTask;
  }

  lemma LegitOverlaid(s: State, e: Entry)
    requires Safe(s) && Legit(FactsOf(s), e)
    ensures Legit(FactsOf(s), ApplyStatus(e, s.storage.StatusOf(e.Coordinates())))
    ensures Legit(FactsOf(s), ApplyGovernance(e, s.storage.GovernanceOf(e.record.id)))
  {
    hide LegitIndex, LegitTask;
  }

  lemma ShownIsLegit(s: State, r: nat, k: Key)
    requires Safe(s) && k in IndexOf(s, r)
    ensures Legit(FactsOf(s), IndexOf(s, r)[k]) && IndexOf(s, r)[k].Coordinates() == k
  {
    hide Legit, LegitTask, StoredIsRemembered;
  }

  /** The steps after a publish and around a status change. */
  lemma PublisherIsSafe(s: State, tid: nat, choice: Key)
    requires Safe(s) && tid in s.handlers
    requires var task := s.handlers[tid].task; task.TagStored? || task.TagRead? || task.StatusChosen? || task.StatusStored?
    ensures Safe(Proceed(s, tid, choice)) && Grows(s, Proceed(s, tid, choice))
  {
    hide Safe, Grows, Legit, LegitIndex;
    var Handler(r, task) := s.handlers[tid];
    var f := FactsOf(s);
    HandlerIsLegit(s, tid);
    Unchanged(s);
    var tags := s.storage.tags;
    match task
    case TagStored(k) =>
      if k in tags {
        LegitParsed(s, k);
        SafeGoto(s, tid, r, TagRead(tags[k]));
      } else {
        SafeGoto(s, tid, r, Finished);
      }
    case TagRead(record) => SafePut(s, tid, r, Parsed(record), Finished);
    case StatusChosen(e, status) => SafeStoreStatus(s, tid, r, e, status);
    case StatusStored(e, status) =>
      LegitWithStatus(f, e, status);
      SafePut(s, tid, r, e.(status := status), Finished);
  }

  /** The steps that put a governance record over each version shown. */
  lemma GovernanceIsSafe(s: State, tid: nat, choice: Key)
    requires Safe(s) && tid in s.handlers
    requires var task := s.handlers[tid].task; task.GovernanceStored? || task.Governing? || task.GovernedVersion?
    ensures Safe(Proceed(s, tid, choice)) && Grows(s, Proceed(s, tid, choice))
  {
    hide Safe, Grows, Legit, LegitIndex;
    var Handler(r, task) := s.handlers[tid];
    var f := FactsOf(s);
    HandlerIsLegit(s, tid);
    Unchanged(s);
    match task
    case GovernanceStored(id, g) =>
      SafeGoto(s, tid, r, Governing(id, g, set k | k in IndexOf(s, r) && k.id == id :: k.version));
    case Governing(id, g, versions) =>
      if versions == {} {
        SafeGoto(s, tid, r, Finished);
      } else if choice.version in versions {
        var k := Key(id, choice.version);
        if k in IndexOf(s, r) {
          ShownIsLegit(s, r, k);
          SafeGoto(s, tid, r, GovernedVersion(id, g, versions - {k.version}, IndexOf(s, r)[k]));
        } else {
          SafeGoto(s, tid, r, Governing(id, g, versions - {k.version}));
        }
      }
    case GovernedVersion(id, g, versions, e) =>
      LegitWithGovernance(f, e, g);
      SafePut(s, tid, r, ApplyGovernance(e, Some(g)), Governing(id, g, versions));
  }

  /** The steps of the event consumer. */
  lemma EventIsSafe(s: State, tid: nat, choice: Key)
    requires Safe(s) && tid in s.handlers
    requires var task := s.handlers[tid].task; task.EventTaken? || task.EventTagRead? || task.EventStatusRead? || task.EventReady?
    ensures Safe(Proceed(s, tid, choice)) && Grows(s, Proceed(s, tid, choice))
  {
    hide Safe, Grows, Legit, LegitIndex;
    var Handler(r, task) := s.handlers[tid];
    HandlerIsLegit(s, tid);
    Unchanged(s);
    var tags := s.storage.tags;
    match task
    case EventTaken(k) =>
      if k in tags {
        LegitParsed(s, k);
        SafeGoto(s, tid, r, EventTagRead(Parsed(tags[k])));
      } else {
        SafeGoto(s, tid, r, Finished);
      }
    case EventTagRead(e) =>
      LegitOverlaid(s, e);
      SafeGoto(s, tid, r, EventStatusRead(ApplyStatus(e, s.storage.StatusOf(e.Coordinates()))));
    case EventStatusRead(e) =>
      LegitOverlaid(s, e);
      SafeGoto(s, tid, r, EventReady(ApplyGovernance(e, s.storage.GovernanceOf(e.record.id))));
    case EventReady(e) => SafePut(s, tid, r, e, Finished);
  }

  /** The steps that rebuild an index from storage. */
  lemma HarvestIsSafe(s: State, tid: nat, choice: Key)
    requires Safe(s) && tid in s.handlers
    requires var task := s.handlers[tid].task; task.Harvesting? || task.HarvestedTag? || task.HarvestedStatus?
    ensures Safe(Proceed(s, tid, choice)) && Grows(s, Proceed(s, tid, choice))
  {
    hide Safe, Grows, Legit, LegitIndex;
    var Handler(r, task) := s.handlers[tid];
    var f := FactsOf(s);
    HandlerIsLegit(s, tid);
    Unchanged(s);
    var tags := s.storage.tags;
    match task
    case Harvesting(starting, left, truth) =>
      if left == {} {
        if starting {
          SafeStart(s, tid, r, truth);
        } else {
          SafeGoto(s, tid, r, Repairing(truth.Keys, truth));
        }
      } else if choice in left && choice in tags {
        LegitParsed(s, choice);
        SafeGoto(s, tid, r, HarvestedTag(starting, left - {choice}, truth, Parsed(tags[choice])));
      }
    case HarvestedTag(starting, left, truth, e) =>
      LegitOverlaid(s, e);
      SafeGoto(s, tid, r, HarvestedStatus(starting, left, truth, ApplyStatus(e, s.storage.StatusOf(e.Coordinates()))));
    case HarvestedStatus(starting, left, truth, e) =>
      LegitOverlaid(s, e);
      var read := ApplyGovernance(e, s.storage.GovernanceOf(e.record.id));
      LegitIndexPut(f, truth, read);
      SafeGoto(s, tid, r, Harvesting(starting, left, truth[e.Coordinates() := read]));
  }

  /** The steps that compare and repair. */
  lemma RepairIsSafe(s: State, tid: nat, choice: Key)
    requires Safe(s) && tid in s.handlers
    requires var task := s.handlers[tid].task; task.Repairing? || task.RepairFound?
    ensures Safe(Proceed(s, tid, choice)) && Grows(s, Proceed(s, tid, choice))
  {
    hide Safe, Grows, Legit, LegitIndex;
    var Handler(r, task) := s.handlers[tid];
    var f := FactsOf(s);
    HandlerIsLegit(s, tid);
    Unchanged(s);
    match task
    case Repairing(left, truth) =>
      if left == {} {
        SafeGoto(s, tid, r, Reconciled);
      } else if choice in left && choice in truth {
        LegitMember(f, truth, choice);
        SafeGoto(s, tid, r, Repairing(left - {choice}, truth));
        SafeGoto(s, tid, r, RepairFound(left - {choice}, truth, truth[choice]));
      }
    case RepairFound(left, truth, e) => SafePut(s, tid, r, e, Repairing(left, truth));
  }

  /** Whatever a handler does next keeps the state safe and only adds to the facts. */
  lemma ProceedIsSafe(s: State, tid: nat, choice: Key)
    requires Safe(s) && tid in s.handlers
    ensures Safe(Proceed(s, tid, choice)) && Grows(s, Proceed(s, tid, choice))
  {
    hide Safe, Grows, Proceed;
    var task := s.handlers[tid].task;
    if task.TagStored? || task.TagRead? || task.StatusChosen? || task.StatusStored? {
      PublisherIsSafe(s, tid, choice);
    } else if task.GovernanceStored? || task.Governing? || task.GovernedVersion? {
      GovernanceIsSafe(s, tid, choice);
    } else if task.EventTaken? || task.EventTagRead? || task.EventStatusRead? || task.EventReady? {
      EventIsSafe(s, tid, choice);
    } else if task.Harvesting? || task.HarvestedTag? || task.HarvestedStatus? {
      HarvestIsSafe(s, tid, choice);
    } else if task.Repairing? || task.RepairFound? {
      RepairIsSafe(s, tid, choice);
    } else {
      FinishedIsSafe(s, tid, choice);
    }
  }

  lemma FinishedIsSafe(s: State, tid: nat, choice: Key)
    requires Safe(s) && tid in s.handlers && (s.handlers[tid].task.Reconciled? || s.handlers[tid].task.Finished?)
    ensures Safe(Proceed(s, tid, choice)) && Grows(s, Proceed(s, tid, choice))
  {
    hide Safe, Grows;
    Unchanged(s);
  }

  lemma CollectorTouchesOne(s: State, tid: nat, choice: Key)
    requires tid in s.handlers
    requires var task := s.handlers[tid].task; task.Harvesting? || task.HarvestedTag? || task.HarvestedStatus? || task.Repairing?
    ensures var t := Proceed(s, tid, choice);
            && t.handlers.Keys == s.handlers.Keys && s.indexes.Keys <= t.indexes.Keys
            && (forall i :: i in s.handlers && i != tid ==> t.handlers[i] == s.handlers[i])
            && t.handlers[tid].replica == s.handlers[tid].replica
  {
    hide Parsed, ApplyStatus, ApplyGovernance, IndexOf;
  }

  lemma ReaderTouchesOne(s: State, tid: nat, choice: Key)
    requires tid in s.handlers
    requires var task := s.handlers[tid].task;
             task.TagStored? || task.StatusChosen? || task.GovernanceStored? || task.Governing? || task.EventTaken? || task.EventTagRead?
             || task.EventStatusRead? || task.Reconciled? || task.Finished?
    ensures var t := Proceed(s, tid, choice);
            && t.handlers.Keys == s.handlers.Keys && s.indexes.Keys <= t.indexes.Keys
            && (forall i :: i in s.handlers && i != tid ==> t.handlers[i] == s.handlers[i])
            && t.handlers[tid].replica == s.handlers[tid].replica
  {
    hide Parsed, ApplyStatus, ApplyGovernance, IndexOf;
  }

  lemma PutterTouchesOne(s: State, tid: nat, choice: Key)
    requires tid in s.handlers
    requires var task := s.handlers[tid].task;
             task.TagRead? || task.StatusStored? || task.GovernedVersion? || task.EventReady? || task.RepairFound?
    ensures var t := Proceed(s, tid, choice);
            && t.handlers.Keys == s.handlers.Keys && s.indexes.Keys <= t.indexes.Keys
            && (forall i :: i in s.handlers && i != tid ==> t.handlers[i] == s.handlers[i])
            && t.handlers[tid].replica == s.handlers[tid].replica
  {
    hide Parsed, ApplyStatus, ApplyGovernance, IndexOf;
  }

  /** A handler's step changes no other handler and takes no replica down. */
  lemma ProceedTouchesOne(s: State, tid: nat, choice: Key)
    requires tid in s.handlers
    ensures var t := Proceed(s, tid, choice);
            && t.handlers.Keys == s.handlers.Keys && s.indexes.Keys <= t.indexes.Keys
            && (forall i :: i in s.handlers && i != tid ==> t.handlers[i] == s.handlers[i])
            && t.handlers[tid].replica == s.handlers[tid].replica
  {
    hide Proceed;
    var task := s.handlers[tid].task;
    if task.Harvesting? || task.HarvestedTag? || task.HarvestedStatus? || task.Repairing? {
      CollectorTouchesOne(s, tid, choice);
    } else if task.TagRead? || task.StatusStored? || task.GovernedVersion? || task.EventReady? || task.RepairFound? {
      PutterTouchesOne(s, tid, choice);
    } else {
      ReaderTouchesOne(s, tid, choice);
    }
  }

  lemma HandlerIsLegit(s: State, tid: nat)
    requires Safe(s) && tid in s.handlers
    ensures LegitTask(FactsOf(s), s.handlers[tid].task)
  {
  }

  lemma Unchanged(s: State)
    ensures Grows(s, s)
  {
  }

  lemma LegitMember(f: Facts, index: Index, k: Key)
    requires LegitIndex(f, index) && k in index
    ensures Legit(f, index[k])
  {
  }

  lemma LegitWithStatus(f: Facts, e: Entry, status: Status)
    requires Legit(f, e) && (e.Coordinates(), status) in f.statuses
    ensures Legit(f, e.(status := status))
  {
  }

  lemma LegitWithGovernance(f: Facts, e: Entry, g: Governance)
    requires Legit(f, e) && (e.record.id, g) in f.governance
    ensures Legit(f, ApplyGovernance(e, Some(g)))
  {
  }

  lemma LegitGrows(f: Facts, g: Facts, e: Entry)
    requires Within(f, g) && Legit(f, e)
    ensures Legit(g, e)
  {
  }

  lemma SafeStoreStatus(s: State, tid: nat, r: nat, e: Entry, status: Status)
    requires Safe(s) && Legit(FactsOf(s), e)
    ensures var t := At(StoreStatus(s, e.Coordinates(), status), tid, r, StatusStored(e, status));
            Safe(t) && Grows(s, t)
  {
    hide LegitIndex, Legit;
    var u := StoreStatus(s, e.Coordinates(), status);
    LegitGrows(FactsOf(s), FactsOf(u), e);
    SafeStore(s, u, tid, r, StatusStored(e, status));
  }

  lemma DoIsSafe(s: State, step: Step)
    requires Safe(s)
    ensures Safe(Do(s, step)) && Grows(s, Do(s, step))
  {
    hide Legit, LegitIndex, Proceed;
    Unchanged(s);
    match step
    case Publish(tid, r, record, release) =>
      if tid !in s.handlers && r in s.indexes {
        if record.Coordinates() !in s.storage.tags {
          SafeStore(s, StoreTag(s, record), tid, r, TagStored(record.Coordinates()));
        } else if release {
          SafeGoto(s, tid, r, TagStored(record.Coordinates()));
        }
      }
    case SetStatus(tid, r, k, status) =>
      if tid !in s.handlers && r in s.indexes && k in s.indexes[r] {
        ShownIsLegit(s, r, k);
        SafeGoto(s, tid, r, StatusChosen(s.indexes[r][k], status));
      }
    case SetGovernance(tid, r, id, g) =>
      if tid !in s.handlers && r in s.indexes {
        SafeStore(s, StoreGovernance(s, id, g), tid, r, GovernanceStored(id, g));
      }
    case TakeEvent(tid, r, k) =>
      SafeGoto(s, tid, r, EventTaken(k));
    case StartReplica(tid, r) =>
      LegitEmpty(FactsOf(s));
      SafeGoto(s, tid, r, Harvesting(true, s.storage.tags.Keys, map[]));
    case StartReconcile(tid, r) =>
      LegitEmpty(FactsOf(s));
      SafeGoto(s, tid, r, Harvesting(false, s.storage.tags.Keys, map[]));
    case Advance(tid, choice) =>
      if tid in s.handlers {
        ProceedIsSafe(s, tid, choice);
      }
    case Abandon(tid) =>
  }

  lemma LegitEmpty(f: Facts)
    ensures LegitIndex(f, map[])
  {
  }

  lemma GrowsTransitive(s: State, t: State, u: State)
    requires Grows(s, t) && Grows(t, u)
    ensures Grows(s, u)
  {
  }

  lemma {:induction false} RunIsSafe(s: State, steps: seq<Step>)
    requires Safe(s)
    ensures Safe(Run(s, steps)) && Grows(s, Run(s, steps))
    decreases |steps|
  {
    hide Safe, Grows;
    if steps == [] {
      Unchanged(s);
    } else {
      var front := steps[..|steps| - 1];
      RunIsSafe(s, front);
      DoIsSafe(Run(s, front), steps[|steps| - 1]);
      GrowsTransitive(s, Run(s, front), Run(s, steps));
    }
  }

  lemma RunOneMore(s: State, steps: seq<Step>, step: Step)
    ensures Run(s, steps + [step]) == Do(Run(s, steps), step)
  {
    hide Do;
    assert (steps + [step])[..|steps + [step]| - 1] == steps;
  }

  lemma {:induction false} RunInTwoParts(s: State, a: seq<Step>, b: seq<Step>)
    ensures Run(s, a + b) == Run(Run(s, a), b)
    decreases |b|
  {
    hide Do;
    if b == [] {
      assert a + b == a;
    } else {
      var front := b[..|b| - 1];
      assert (a + b)[..|a + b| - 1] == a + front;
      RunInTwoParts(s, a, front);
    }
  }

  lemma InitialIsSafe(s: State)
    requires Initial(s)
    ensures Safe(s)
  {
  }

  /** The store held `status` for `k` at some moment of the run. */
  ghost predicate StatusWasStored(s: State, steps: seq<Step>, k: Key, status: Status) {
    exists i :: 0 <= i <= |steps| && Run(s, steps[..i]).storage.StatusOf(k) == Some(status)
  }

  ghost predicate GovernanceWasStored(s: State, steps: seq<Step>, id: string, g: Governance) {
    exists i :: 0 <= i <= |steps| && Run(s, steps[..i]).storage.GovernanceOf(id) == Some(g)
  }

  /** A step remembers a sidecar value only by storing it. */
  lemma NewFactsAreStored(s: State, step: Step)
    ensures forall k, v :: (k, v) in Do(s, step).statusesStored ==>
                             (k, v) in s.statusesStored || Do(s, step).storage.StatusOf(k) == Some(v)
    ensures forall id, g :: (id, g) in Do(s, step).governanceStored ==>
                              (id, g) in s.governanceStored || Do(s, step).storage.GovernanceOf(id) == Some(g)
  {
  }

  lemma {:induction false} RememberedWasStored(s: State, steps: seq<Step>)
    requires Initial(s)
    ensures forall k, v :: (k, v) in Run(s, steps).statusesStored ==> StatusWasStored(s, steps, k, v)
    ensures forall id, g :: (id, g) in Run(s, steps).governanceStored ==> GovernanceWasStored(s, steps, id, g)
    decreases |steps|
  {
    hide Do;
    if steps == [] {
      assert Run(s, steps[..0]) == s;
    } else {
      var n := |steps| - 1;
      var front := steps[..n];
      RememberedWasStored(s, front);
      NewFactsAreStored(Run(s, front), steps[n]);
      assert steps[..|steps|] == steps;
      forall k, v | (k, v) in Run(s, steps).statusesStored
        ensures StatusWasStored(s, steps, k, v)
      {
        if (k, v) in Run(s, front).statusesStored {
          var i :| 0 <= i <= n && Run(s, front[..i]).storage.StatusOf(k) == Some(v);
          assert front[..i] == steps[..i];
        }
      }
      forall id, g | (id, g) in Run(s, steps).governanceStored
        ensures GovernanceWasStored(s, steps, id, g)
      {
        if (id, g) in Run(s, front).governanceStored {
          var i :| 0 <= i <= n && Run(s, front[..i]).storage.GovernanceOf(id) == Some(g);
          assert front[..i] == steps[..i];
        }
      }
    }
  }

  /** Safety of every interleaving: what a replica shows has a stored tag, its
      record is that tag, and its sidecar values are defaults or were stored. */
  lemma EveryEntryShownWasStored(s: State, steps: seq<Step>, r: nat, k: Key)
    requires Initial(s) && k in IndexOf(Run(s, steps), r)
    ensures var t := Run(s, steps);
            var e := IndexOf(t, r)[k];
            && e.Coordinates() == k && k in t.storage.tags && e.record == t.storage.tags[k]
            && (e.status == Active || StatusWasStored(s, steps, k, e.status))
            && (e.governance == UNGOVERNED || GovernanceWasStored(s, steps, k.id, e.governance))
  {
    hide Safe, Do, StatusWasStored, GovernanceWasStored;
    InitialIsSafe(s);
    RunIsSafe(s, steps);
    ShownIsLegit(Run(s, steps), r, k);
    RememberedWasStored(s, steps);
  }

  /** Tags never change or vanish, and a shown version stays shown with the same record. */
  lemma ShownRecordsAreForever(s: State, earlier: seq<Step>, later: seq<Step>, r: nat, k: Key)
    requires Initial(s)
    ensures k in Run(s, earlier).storage.tags ==>
              k in Run(s, earlier + later).storage.tags
              && Run(s, earlier + later).storage.tags[k] == Run(s, earlier).storage.tags[k]
    ensures k in IndexOf(Run(s, earlier), r) ==>
              k in IndexOf(Run(s, earlier + later), r)
              && IndexOf(Run(s, earlier + later), r)[k].record == IndexOf(Run(s, earlier), r)[k].record
  {
    hide Safe, Do;
    InitialIsSafe(s);
    RunIsSafe(s, earlier);
    RunIsSafe(Run(s, earlier), later);
    RunInTwoParts(s, earlier, later);
    if k in IndexOf(Run(s, earlier), r) {
      ShownIsLegit(Run(s, earlier), r, k);
      ShownIsLegit(Run(s, earlier + later), r, k);
    }
  }
}
