/** The sorted-id cache of one index when several threads put and read: a put writes
    its entry and then drops the cache; a read checks, sorts, stores and copies. A
    sorted listing is modelled by the set of ids it holds. */
module IdCache {
  import opened Registry

  datatype Thread =
    | Entered(id: string) // the entry is written, the cache not yet dropped
    | Sorting
    | Sorted(listing: set<string>)
    | Copying
    | Returned(ids: set<string>)
    | Raised // copied a cache that was not there any more

  datatype State = State(ids: set<string>, cache: Option<set<string>>, threads: map<nat, Thread>)

  datatype Step = Put(tid: nat, id: string) | Read(tid: nat) | Advance(tid: nat)

  const EMPTY := State({}, None, map[])

  function At(s: State, tid: nat, thread: Thread): State {
    s.(threads := s.threads[tid := thread])
  }

  function Do(s: State, step: Step): State {
    match step
    case Put(tid, id) => if tid in s.threads then s else At(s, tid, Entered(id)).(ids := s.ids + {id})
    case Read(tid) => if tid in s.threads then s else At(s, tid, if s.cache.None? then Sorting else Copying)
    case Advance(tid) =>
      if tid !in s.threads then s
      else
        match s.threads[tid]
        case Entered(_) => s.(cache := None, threads := s.threads - {tid})
        case Sorting => At(s, tid, Sorted(s.ids))
        case Sorted(listing) => At(s, tid, Copying).(cache := Some(listing))
        case Copying => At(s, tid, if s.cache.None? then Raised else Returned(s.cache.value))
        case _ => s.(threads := s.threads - {tid})
  }

  function Run(s: State, steps: seq<Step>): State
    decreases |steps|
  {
    if steps == [] then s else Do(Run(s, steps[..|steps| - 1]), steps[|steps| - 1])
  }

  // What the steps of a run are.

  function StateAt(steps: seq<Step>, i: nat): State
    requires i <= |steps|
  {
    Run(EMPTY, steps[..i])
  }

  predicate IsAt(s: State, tid: nat, thread: Thread) {
    tid in s.threads && s.threads[tid] == thread
  }

  /** A put of `id` drops the cache. */
  predicate DropsIn(s: State, step: Step, id: string) {
    step.Advance? && IsAt(s, step.tid, Entered(id))
  }

  /** Some put drops the cache. */
  predicate ClearsIn(s: State, step: Step) {
    step.Advance? && step.tid in s.threads && s.threads[step.tid].Entered?
  }

  /** A read stores what it has sorted. */
  predicate StoresIn(s: State, step: Step) {
    step.Advance? && step.tid in s.threads && s.threads[step.tid].Sorted?
  }

  predicate SortsIn(s: State, step: Step, tid: nat) {
    step == Advance(tid) && IsAt(s, tid, Sorting)
  }

  ghost predicate Drops(steps: seq<Step>, i: nat, id: string)
    requires i < |steps|
  {
    DropsIn(StateAt(steps, i), steps[i], id)
  }

  ghost predicate Clears(steps: seq<Step>, i: nat)
    requires i < |steps|
  {
    ClearsIn(StateAt(steps, i), steps[i])
  }

  ghost predicate Stores(steps: seq<Step>, i: nat)
    requires i < |steps|
  {
    StoresIn(StateAt(steps, i), steps[i])
  }

  ghost predicate NoStoreAfter(steps: seq<Step>, i: nat) {
    forall m :: i < m < |steps| ==> !Stores(steps, m)
  }

  ghost predicate NoDropAfter(steps: seq<Step>, i: nat) {
    forall m :: i < m < |steps| ==> !Clears(steps, m)
  }

  /** Thread `tid` is at the same point from state `i` to the end. */
  ghost predicate Waits(steps: seq<Step>, tid: nat, i: nat, thread: Thread)
    requires i <= |steps|
  {
    forall m :: i <= m <= |steps| ==> IsAt(StateAt(steps, m), tid, thread)
  }

  lemma Prefixes(steps: seq<Step>, step: Step)
    ensures forall m :: 0 <= m <= |steps| ==> StateAt(steps + [step], m) == StateAt(steps, m)
    ensures StateAt(steps, |steps|) == Run(EMPTY, steps)
    ensures StateAt(steps + [step], |steps| + 1) == Run(EMPTY, steps + [step]) == Do(Run(EMPTY, steps), step)
  {
    hide Do;
    forall m | 0 <= m <= |steps|
      ensures (steps + [step])[..m] == steps[..m]
    {
    }
    assert steps[..|steps|] == steps;
    assert (steps + [step])[..|steps| + 1] == steps + [step];
  }

  lemma LastStep(steps: seq<Step>) returns (front: seq<Step>, step: Step)
    requires steps != []
    ensures steps == front + [step]
  {
    front, step := steps[..|steps| - 1], steps[|steps| - 1];
  }

  // When a read raises.

  /** A drop at `i` that a waiting reader will meet: it is at its copy from then on,
      and no other read stores a listing since. */
  ghost predicate Meets(steps: seq<Step>, tid: nat, i: nat) {
    && i < |steps|
    && Clears(steps, i)
    && Waits(steps, tid, i, Copying)
    && NoStoreAfter(steps, i)
  }

  lemma MeetsLasts(steps: seq<Step>, step: Step, tid: nat, i: nat)
    requires Meets(steps, tid, i) && IsAt(Do(Run(EMPTY, steps), step), tid, Copying) && !StoresIn(Run(EMPTY, steps), step)
    ensures Meets(steps + [step], tid, i)
  {
    hide Do, Run, StateAt, IsAt, StoresIn, ClearsIn;
    Prefixes(steps, step);
    assert Clears(steps + [step], i);
    forall m | i < m < |steps + [step]|
      ensures !Stores(steps + [step], m)
    {
      assert m < |steps| ==> !Stores(steps, m);
    }
  }

  lemma MeetsNow(steps: seq<Step>, step: Step, tid: nat)
    requires ClearsIn(Run(EMPTY, steps), step) && IsAt(Run(EMPTY, steps), tid, Copying)
    requires IsAt(Do(Run(EMPTY, steps), step), tid, Copying)
    ensures Meets(steps + [step], tid, |steps|)
  {
    hide Do, Run, StateAt, IsAt, StoresIn, ClearsIn;
    Prefixes(steps, step);
    assert Clears(steps + [step], |steps|);
  }

  /** What a step does to a reader at its copy and to the cache. */
  lemma CopyStep(s: State, step: Step, tid: nat)
    requires IsAt(Do(s, step), tid, Copying)
    ensures StoresIn(s, step) ==> Do(s, step).cache.Some?
    ensures !StoresIn(s, step) && s.cache.None? && Do(s, step).cache.None? ==> IsAt(s, tid, Copying)
    ensures s.cache.Some? && Do(s, step).cache.None? ==> IsAt(s, tid, Copying) && ClearsIn(s, step)
  {
  }

  lemma {:induction false} MissingCacheWasDropped(steps: seq<Step>, tid: nat)
    requires IsAt(Run(EMPTY, steps), tid, Copying) && Run(EMPTY, steps).cache.None?
    ensures exists i :: Meets(steps, tid, i)
    decreases |steps|
  {
    hide Do, Meets, IsAt;
    if steps == [] {
      NobodyAtStart(tid);
    } else {
      var front, step := LastStep(steps);
      assert steps[..|steps| - 1] == front;
      var s := Run(EMPTY, front);
      CopyStep(s, step, tid);
      if s.cache.None? {
        MissingCacheWasDropped(front, tid);
        var i :| Meets(front, tid, i);
        MeetsLasts(front, step, tid, i);
      } else {
        MeetsNow(front, step, tid);
      }
    }
  }

  lemma NobodyAtStart(tid: nat)
    ensures !IsAt(EMPTY, tid, Copying)
  {
  }

  lemma StaysMissing(s: State, step: Step)
    ensures s.cache.None? && !StoresIn(s, step) ==> Do(s, step).cache.None?
    ensures ClearsIn(s, step) ==> Do(s, step).cache.None?
  {
  }

  lemma {:induction false} DroppedCacheIsMissing(steps: seq<Step>, i: nat)
    requires i < |steps| && Clears(steps, i) && NoStoreAfter(steps, i)
    ensures Run(EMPTY, steps).cache.None?
    decreases |steps|
  {
    hide Do, StoresIn, ClearsIn;
    var front, step := LastStep(steps);
    Prefixes(front, step);
    StaysMissing(Run(EMPTY, front), step);
    if i == |front| {
      assert ClearsIn(Run(EMPTY, front), step);
    } else {
      assert Clears(front, i);
      forall m | i < m < |front|
        ensures !Stores(front, m)
      {
        assert !Stores(steps, m);
      }
      DroppedCacheIsMissing(front, i);
      assert !Stores(steps, |front|);
    }
  }

  /** In every run, a read at its copy will raise exactly when some put dropped the
      cache while it was waiting there and no other read has stored a listing since. */
  lemma ReadRaisesIff(steps: seq<Step>, tid: nat)
    requires IsAt(Run(EMPTY, steps), tid, Copying)
    ensures IsAt(Do(Run(EMPTY, steps), Advance(tid)), tid, Raised) <==> exists i :: Meets(steps, tid, i)
  {
    hide Run, Clears, Waits, NoStoreAfter;
    if Run(EMPTY, steps).cache.None? {
      MissingCacheWasDropped(steps, tid);
    }
    if i :| Meets(steps, tid, i) {
      DroppedCacheIsMissing(steps, i);
    }
  }

  /** Thread 0 has stored the listing of an empty index, and thread 1 is at its copy
      when thread 2 has written the entry of `id` but not dropped the cache. */
  function Crossing(id: string): (steps: seq<Step>)
    ensures |steps| == 5
  {
    [Read(0), Advance(0), Advance(0), Read(1), Put(2, id)]
  }

  lemma CrossingReached(id: string)
    ensures Run(EMPTY, Crossing(id)) == State({id}, Some({}), map[0 := Copying, 1 := Copying, 2 := Entered(id)])
  {
    var t := Crossing(id);
    var sorted := Do(Do(EMPTY, t[0]), t[1]);
    assert sorted == State({}, None, map[0 := Sorted({})]);
    var stored := Do(sorted, t[2]);
    assert stored == State({}, Some({}), map[0 := Copying]);
    assert Do(stored, t[3]) == State({}, Some({}), map[0 := Copying, 1 := Copying]);
    RunFive(EMPTY, t);
  }

  /** A run in which a read raises: a put drops the cache before the copy. */
  lemma PutDuringReadRaises(id: string) returns (steps: seq<Step>)
    ensures IsAt(Run(EMPTY, steps), 1, Raised)
  {
    var rest := [Advance(2), Advance(1)];
    steps := Crossing(id) + rest;
    CrossingReached(id);
    var s := Run(EMPTY, Crossing(id));
    var dropped := Do(s, rest[0]);
    assert dropped == State({id}, None, map[0 := Copying, 1 := Copying]);
    RunTwo(s, rest);
    RunInTwoParts(EMPTY, Crossing(id), rest);
  }

  /** A run in which it does not, though the same put drops the cache at the same
      point: another read stores a listing in time. */
  lemma StoreRescuesRead(id: string) returns (steps: seq<Step>)
    ensures |steps| > 5 && Clears(steps, 5) && IsAt(StateAt(steps, 5), 1, Copying)
    ensures IsAt(Run(EMPTY, steps), 1, Returned({id}))
  {
    var rest := [Advance(2), Read(3), Advance(3), Advance(3), Advance(1)];
    steps := Crossing(id) + rest;
    CrossingReached(id);
    var s := Run(EMPTY, Crossing(id));
    assert steps[..5] == Crossing(id) && steps[5] == rest[0];
    var dropped := Do(s, rest[0]);
    assert dropped == State({id}, None, map[0 := Copying, 1 := Copying]);
    var sorted := Do(Do(dropped, rest[1]), rest[2]);
    assert sorted == State({id}, None, map[0 := Copying, 1 := Copying, 3 := Sorted({id})]);
    var stored := Do(sorted, rest[3]);
    assert stored.cache == Some({id}) && IsAt(stored, 1, Copying);
    RunFive(s, rest);
    RunInTwoParts(EMPTY, Crossing(id), rest);
  }

  // When the cached listing hides an id.

  /** The cache holds a listing without a stored id. */
  predicate Hidden(s: State, id: string) {
    id in s.ids && s.cache.Some? && id !in s.cache.value
  }

  /** Some put of `id` has yet to drop the cache. */
  ghost predicate Pending(s: State, id: string) {
    exists tid :: IsAt(s, tid, Entered(id))
  }

  /** Read `tid` sorts at step `i` and stores at step `j` what it has sorted, and that
      listing is still the cached one. */
  ghost predicate Listed(steps: seq<Step>, tid: nat, i: nat, j: nat) {
    && i < j < |steps|
    && SortsIn(StateAt(steps, i), steps[i], tid) && steps[j] == Advance(tid)
    && (forall m :: i < m <= j ==> IsAt(StateAt(steps, m), tid, Sorted(StateAt(steps, i).ids)))
    && NoStoreAfter(steps, j) && NoDropAfter(steps, j)
  }

  /** The whole put of `id` up to its drop, at step `m`, fell between the two. */
  ghost predicate Misses(steps: seq<Step>, id: string, tid: nat, i: nat, m: nat, j: nat) {
    Listed(steps, tid, i, j) && i < m < j && Drops(steps, m, id) && id !in StateAt(steps, i).ids
  }

  ghost predicate SortedAt(steps: seq<Step>, tid: nat, i: nat) {
    i < |steps| && SortsIn(StateAt(steps, i), steps[i], tid) && Waits(steps, tid, i + 1, Sorted(StateAt(steps, i).ids))
  }

  lemma SortedStep(s: State, step: Step, tid: nat, listing: set<string>)
    requires IsAt(Do(s, step), tid, Sorted(listing))
    ensures IsAt(s, tid, Sorted(listing)) || (SortsIn(s, step, tid) && listing == s.ids)
  {
  }

  lemma SortedLasts(steps: seq<Step>, step: Step, tid: nat, i: nat)
    requires SortedAt(steps, tid, i) && IsAt(Do(Run(EMPTY, steps), step), tid, Sorted(StateAt(steps, i).ids))
    ensures SortedAt(steps + [step], tid, i) && StateAt(steps + [step], i) == StateAt(steps, i)
  {
    hide Do, Run, StateAt, IsAt, SortsIn;
    Prefixes(steps, step);
  }

  lemma SortedNow(steps: seq<Step>, step: Step, tid: nat)
    requires SortsIn(Run(EMPTY, steps), step, tid) && IsAt(Do(Run(EMPTY, steps), step), tid, Sorted(Run(EMPTY, steps).ids))
    ensures SortedAt(steps + [step], tid, |steps|) && StateAt(steps + [step], |steps|) == Run(EMPTY, steps)
  {
    hide Do, Run, StateAt, IsAt, SortsIn;
    Prefixes(steps, step);
  }

  lemma {:induction false} SortedWasRead(steps: seq<Step>, tid: nat, listing: set<string>) returns (i: nat)
    requires IsAt(Run(EMPTY, steps), tid, Sorted(listing))
    ensures SortedAt(steps, tid, i) && listing == StateAt(steps, i).ids
    decreases |steps|
  {
    hide Do, SortedAt, StateAt;
    var front, step := LastStep(steps);
    assert steps[..|steps| - 1] == front;
    SortedStep(Run(EMPTY, front), step, tid, listing);
    if IsAt(Run(EMPTY, front), tid, Sorted(listing)) {
      i := SortedWasRead(front, tid, listing);
      SortedLasts(front, step, tid, i);
    } else {
      i := |front|;
      SortedNow(front, step, tid);
    }
  }

  lemma CacheStep(s: State, step: Step)
    ensures StoresIn(s, step) ==> Do(s, step).cache == Some(s.threads[step.tid].listing)
    ensures ClearsIn(s, step) ==> Do(s, step).cache == None
    ensures !StoresIn(s, step) && !ClearsIn(s, step) ==> Do(s, step).cache == s.cache
  {
  }

  lemma ListedLasts(steps: seq<Step>, step: Step, tid: nat, i: nat, j: nat)
    requires Listed(steps, tid, i, j)
    requires !StoresIn(Run(EMPTY, steps), step) && !ClearsIn(Run(EMPTY, steps), step)
    ensures Listed(steps + [step], tid, i, j) && StateAt(steps + [step], i) == StateAt(steps, i)
  {
    hide Do, Run, StateAt, IsAt, SortsIn, StoresIn, ClearsIn;
    Prefixes(steps, step);
    forall m | j < m < |steps| + 1
      ensures !Stores(steps + [step], m) && !Clears(steps + [step], m)
    {
      assert m < |steps| ==> !Stores(steps, m) && !Clears(steps, m);
    }
  }

  lemma ListedNow(steps: seq<Step>, step: Step, tid: nat, i: nat)
    requires SortedAt(steps, tid, i) && step == Advance(tid)
    ensures Listed(steps + [step], tid, i, |steps|) && StateAt(steps + [step], i) == StateAt(steps, i)
  {
    hide Do, Run, StateAt, IsAt, SortsIn, StoresIn, ClearsIn;
    Prefixes(steps, step);
  }

  /** A cached listing was sorted and stored by one read, and nothing was stored or dropped since. */
  lemma {:induction false} CacheWasListed(steps: seq<Step>) returns (tid: nat, i: nat, j: nat)
    requires Run(EMPTY, steps).cache.Some?
    ensures Listed(steps, tid, i, j) && Run(EMPTY, steps).cache == Some(StateAt(steps, i).ids)
    decreases |steps|
  {
    hide Do, Listed, StateAt, SortedAt;
    var front, step := LastStep(steps);
    assert steps[..|steps| - 1] == front;
    var s := Run(EMPTY, front);
    CacheStep(s, step);
    if StoresIn(s, step) {
      tid, j := step.tid, |front|;
      i := SortedWasRead(front, tid, s.threads[tid].listing);
      ListedNow(front, step, tid, i);
    } else {
      tid, i, j := CacheWasListed(front);
      ListedLasts(front, step, tid, i, j);
    }
  }

  /** Conversely such a listing is the cached one. */
  lemma {:induction false} ListedIsCached(steps: seq<Step>, tid: nat, i: nat, j: nat)
    requires Listed(steps, tid, i, j)
    ensures Run(EMPTY, steps).cache == Some(StateAt(steps, i).ids)
    decreases |steps|
  {
    hide Do, StoresIn, ClearsIn, SortsIn;
    var front, step := LastStep(steps);
    Prefixes(front, step);
    CacheStep(Run(EMPTY, front), step);
    if j == |front| {
      StoredNow(Run(EMPTY, front), tid, StateAt(steps, i).ids);
    } else {
      assert !Stores(steps, |front|) && !Clears(steps, |front|);
      forall m | j < m < |front|
        ensures !Stores(front, m) && !Clears(front, m)
      {
        assert !Stores(steps, m) && !Clears(steps, m);
      }
      ListedIsCached(front, tid, i, j);
    }
  }

  lemma StoredNow(s: State, tid: nat, listing: set<string>)
    requires IsAt(s, tid, Sorted(listing))
    ensures StoresIn(s, Advance(tid)) && s.threads[tid].listing == listing
  {
  }

  lemma PutStep(s: State, step: Step, id: string)
    ensures s.ids <= Do(s, step).ids
    ensures id in Do(s, step).ids && id !in s.ids ==> Pending(Do(s, step), id)
    ensures Pending(s, id) ==> Pending(Do(s, step), id) || DropsIn(s, step, id)
    ensures Pending(Do(s, step), id) ==> id in Do(s, step).ids || Pending(s, id)
  {
    if id in Do(s, step).ids && id !in s.ids {
      assert IsAt(Do(s, step), step.tid, Entered(id));
    }
    if tid :| IsAt(s, tid, Entered(id)) {
      assert IsAt(Do(s, step), tid, Entered(id)) || step == Advance(tid);
    }
    if tid :| IsAt(Do(s, step), tid, Entered(id)) {
      assert IsAt(s, tid, Entered(id)) || step == Put(tid, id);
    }
  }

  /** An id entered after state `i` is still pending, or its put has dropped the cache since. */
  lemma {:induction false} EnteredThenDropped(steps: seq<Step>, i: nat, id: string)
    requires i <= |steps| && id !in StateAt(steps, i).ids && id in Run(EMPTY, steps).ids
    ensures Pending(Run(EMPTY, steps), id) || exists m :: i <= m < |steps| && Drops(steps, m, id)
    decreases |steps|
  {
    hide Do, DropsIn, Pending;
    assert steps[..|steps|] == steps;
    var front, step := LastStep(steps);
    Prefixes(front, step);
    PutStep(Run(EMPTY, front), step, id);
    if id in Run(EMPTY, front).ids {
      EnteredThenDropped(front, i, id);
      if m :| i <= m < |front| && Drops(front, m, id) {
        assert Drops(steps, m, id);
      } else {
        assert DropsIn(Run(EMPTY, front), step, id) ==> Drops(steps, |front|, id);
      }
    }
  }

  lemma {:induction false} PendingIsStored(steps: seq<Step>, id: string)
    requires Pending(Run(EMPTY, steps), id)
    ensures id in Run(EMPTY, steps).ids
    decreases |steps|
  {
    hide Do, Pending;
    if steps == [] {
      NothingPending(id);
    } else {
      var front, step := LastStep(steps);
      assert steps[..|steps| - 1] == front;
      PutStep(Run(EMPTY, front), step, id);
      if Pending(Run(EMPTY, front), id) {
        PendingIsStored(front, id);
      }
    }
  }

  lemma NothingPending(id: string)
    ensures !Pending(EMPTY, id)
  {
  }

  lemma {:induction false} IdsStay(steps: seq<Step>, i: nat)
    requires i <= |steps|
    ensures StateAt(steps, i).ids <= Run(EMPTY, steps).ids
    decreases |steps|
  {
    hide Do, Pending;
    if i == |steps| {
      assert steps[..i] == steps;
    } else {
      var front, step := LastStep(steps);
      Prefixes(front, step);
      PutStep(Run(EMPTY, front), step, "");
      IdsStay(front, i);
    }
  }

  /** In every run, id by id and once its puts are through: the cache hides a stored
      id exactly when a put of it came and dropped the cache between the sort and the
      store of the read whose listing is cached. */
  lemma HiddenIff(steps: seq<Step>, id: string)
    requires !Pending(Run(EMPTY, steps), id)
    ensures Hidden(Run(EMPTY, steps), id) <==> exists tid, i, m, j :: Misses(steps, id, tid, i, m, j)
  {
    hide Run, Pending, StateAt, Stores, Clears, SortsIn, IsAt;
    var s := Run(EMPTY, steps);
    if Hidden(s, id) {
      var tid, i, j := CacheWasListed(steps);
      EnteredThenDropped(steps, i, id);
      var m :| i <= m < |steps| && Drops(steps, m, id);
      DropIsBetween(steps, id, tid, i, m, j);
      assert Misses(steps, id, tid, i, m, j);
    }
    if tid, i, m, j :| Misses(steps, id, tid, i, m, j) {
      ListedIsCached(steps, tid, i, j);
      DroppedIsStored(steps, m, id);
    }
  }

  lemma DropIsBetween(steps: seq<Step>, id: string, tid: nat, i: nat, m: nat, j: nat)
    requires Listed(steps, tid, i, j) && i <= m < |steps| && Drops(steps, m, id)
    ensures i < m < j
  {
    assert Clears(steps, m);
    assert m != j by {
      assert IsAt(StateAt(steps, j), tid, Sorted(StateAt(steps, i).ids));
    }
  }

  lemma DroppedIsStored(steps: seq<Step>, m: nat, id: string)
    requires m < |steps| && Drops(steps, m, id)
    ensures id in Run(EMPTY, steps).ids
  {
    hide Run;
    assert IsAt(StateAt(steps, m), steps[m].tid, Entered(id));
    PendingIsStored(steps[..m], id);
    IdsStay(steps, m);
  }

  /** A hidden id stays hidden until some put drops the cache or some read stores a listing. */
  lemma {:induction false} HiddenUntilDropOrStore(s: State, steps: seq<Step>, id: string)
    requires Hidden(s, id)
    requires forall i :: 0 <= i < |steps| ==> !StoresIn(Run(s, steps[..i]), steps[i])
    requires forall i :: 0 <= i < |steps| ==> !ClearsIn(Run(s, steps[..i]), steps[i])
    ensures Hidden(Run(s, steps), id) && Run(s, steps).cache == s.cache
    decreases |steps|
  {
    hide Do, StoresIn, ClearsIn;
    if steps != [] {
      var n := |steps| - 1;
      assert forall i :: 0 <= i < n ==> steps[..n][..i] == steps[..i];
      HiddenUntilDropOrStore(s, steps[..n], id);
      CacheStep(Run(s, steps[..n]), steps[n]);
      PutStep(Run(s, steps[..n]), steps[n], id);
    }
  }

  // What a reconcile does to the listing.

  /** One whole read, its thread gone afterwards; a step too many does nothing. */
  function WholeRead(tid: nat): (steps: seq<Step>)
    ensures |steps| == 5
  {
    [Read(tid), Advance(tid), Advance(tid), Advance(tid), Advance(tid)]
  }

  /** One whole put for each repair. */
  function Repairs(tid: nat, repairs: seq<string>): seq<Step>
    decreases |repairs|
  {
    if repairs == [] then []
    else Repairs(tid, repairs[..|repairs| - 1]) + [Put(tid, repairs[|repairs| - 1]), Advance(tid)]
  }

  /** A reconcile as the cache sees it: the checksum before, the puts, the checksum after. */
  function ReconcileSteps(tid: nat, repairs: seq<string>): seq<Step> {
    WholeRead(tid) + Repairs(tid, repairs) + WholeRead(tid)
  }

  lemma WholeReadEffect(s: State, tid: nat)
    requires tid !in s.threads
    ensures Run(s, WholeRead(tid)) == s.(cache := Some(if s.cache.Some? then s.cache.value else s.ids))
  {
    var t := WholeRead(tid);
    RunFive(s, t);
    var a := Advance(tid);
    if s.cache.Some? {
      assert Do(Do(Do(s, t[0]), a), a) == s;
    } else {
      var sorted := Do(Do(s, t[0]), a);
      assert sorted == At(s, tid, Sorted(s.ids));
      var stored := Do(sorted, a);
      assert stored == At(s, tid, Copying).(cache := Some(s.ids));
      assert Do(stored, a) == At(s, tid, Returned(s.ids)).(cache := Some(s.ids));
      assert s.threads[tid := Returned(s.ids)] - {tid} == s.threads;
    }
  }

  lemma {:induction false} RepairsEffect(s: State, tid: nat, repairs: seq<string>)
    requires tid !in s.threads
    ensures Run(s, Repairs(tid, repairs))
            == s.(ids := s.ids + (set id | id in repairs), cache := if repairs == [] then s.cache else None)
    decreases |repairs|
  {
    if repairs != [] {
      var front, id := repairs[..|repairs| - 1], repairs[|repairs| - 1];
      RepairsEffect(s, tid, front);
      var mid := Run(s, Repairs(tid, front));
      var put := [Put(tid, id), Advance(tid)];
      RunInTwoParts(s, Repairs(tid, front), put);
      RunTwo(mid, put);
      assert s.threads[tid := Entered(id)] - {tid} == s.threads;
      assert repairs == front + [id];
      assert (set x | x in repairs) == (set x | x in front) + {id};
    }
  }

  /** A reconcile beside no other thread ends the hiding of an id exactly when it
      repairs something; then the listing is exact. */
  lemma ReconcileEndsHidingIff(s: State, tid: nat, repairs: seq<string>, id: string)
    requires tid !in s.threads && Hidden(s, id)
    ensures var t := Run(s, ReconcileSteps(tid, repairs));
            && (Hidden(t, id) <==> repairs == [])
            && (repairs == [] ==> t == s)
            && (repairs != [] ==> t.cache == Some(t.ids))
  {
    hide Run, WholeRead, Repairs;
    var read, puts := WholeRead(tid), Repairs(tid, repairs);
    WholeReadEffect(s, tid);
    RunInTwoParts(s, read, puts);
    RepairsEffect(s, tid, repairs);
    RunInTwoParts(s, read + puts, read);
    WholeReadEffect(Run(s, read + puts), tid);
    assert s.ids + (set x | x in []) == s.ids;
  }

  /** With no put beside it, a read returns the cached listing, or every id when there is none. */
  lemma UndisturbedReadReturns(s: State, tid: nat)
    requires tid !in s.threads
    ensures var a := Advance(tid);
            var t := Do(Do(s, Read(tid)), a);
            if s.cache.Some? then IsAt(t, tid, Returned(s.cache.value)) && t.cache == s.cache
            else IsAt(Do(Do(t, a), a), tid, Returned(s.ids)) && Do(Do(t, a), a).cache == Some(s.ids)
  {
  }

  /** A run after which the cache hides an id: one put came between sort and store,
      and every read from then on misses it. */
  lemma PutDuringReadIsHidden(id: string) returns (steps: seq<Step>)
    ensures var s := Run(EMPTY, steps);
            && Hidden(s, id) && !Pending(s, id)
            && forall tid :: tid !in s.threads ==> IsAt(Do(Do(s, Read(tid)), Advance(tid)), tid, Returned({}))
  {
    steps := [Read(0), Advance(0), Put(1, id), Advance(1), Advance(0)];
    RunFive(EMPTY, steps);
    var sorted := Do(Do(EMPTY, steps[0]), steps[1]);
    assert sorted == State({}, None, map[0 := Sorted({})]);
    var entered := Do(sorted, steps[2]);
    assert entered == State({id}, None, map[0 := Sorted({}), 1 := Entered(id)]);
    assert Do(entered, steps[3]) == State({id}, None, map[0 := Sorted({})]);
    assert Run(EMPTY, steps) == State({id}, Some({}), map[0 := Copying]);
  }

  lemma {:induction false} RunInTwoParts(s: State, a: seq<Step>, b: seq<Step>)
    ensures Run(s, a + b) == Run(Run(s, a), b)
    decreases |b|
  {
    hide Do;
    if b == [] {
      assert a + b == a;
    } else {
      var n := |b| - 1;
      assert (a + b)[..|a + b| - 1] == a + b[..n];
      RunInTwoParts(s, a, b[..n]);
    }
  }

  lemma RunTwo(s: State, t: seq<Step>)
    requires |t| == 2
    ensures Run(s, t) == Do(Do(s, t[0]), t[1])
  {
    hide Do;
    assert t[..1][..0] == t[..0] == [];
    assert Run(s, t[..1]) == Do(s, t[0]);
  }

  lemma RunFive(s: State, t: seq<Step>)
    requires |t| == 5
    ensures Run(s, t) == Do(Do(Do(Do(Do(s, t[0]), t[1]), t[2]), t[3]), t[4])
  {
    hide Do;
    assert t[..4][..3] == t[..3] && t[..3][..2] == t[..2] && t[..2][..1] == t[..1] && t[..1][..0] == t[..0] == [];
    assert Run(s, t[..1]) == Do(s, t[0]);
    assert Run(s, t[..2]) == Do(Run(s, t[..1]), t[1]);
    assert Run(s, t[..3]) == Do(Run(s, t[..2]), t[2]);
    assert Run(s, t[..4]) == Do(Run(s, t[..3]), t[3]);
  }
}
