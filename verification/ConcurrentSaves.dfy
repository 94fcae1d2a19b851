/** Saves and deletions of one connected draft served side by side: each writes the
    local file, reads the branch's head, commits on it and records how that went. */
module ConcurrentSaves {
  import opened Registry
  import opened GitMirror

  /** New content for a path, or `None` for a deletion. */
  datatype Change = Change(path: Path, content: Option<Content>)

  datatype Task =
    | Written(change: Change)
    | Based(change: Change, base: Commit)
    | Landed(commit: Commit)
    | Failed(message: string)
    | Answered

  /** `writes` and `landings` remember the changes in the order in which they were
      written locally and in which their commits landed. */
  datatype State = State(
    files: Tree,
    branch: Tree,
    directory: string,
    head: Commit,
    lastSynced: Option<Commit>,
    syncError: Option<string>,
    tasks: map<nat, Task>,
    writes: seq<Change>,
    landings: seq<Change>)

  datatype Step =
    | Write(tid: nat, change: Change, sync: bool)
    | Advance(tid: nat, attempt: Attempt)

  const OVERTAKEN := "the branch has moved on"

  function WithChange(files: Tree, change: Change): Tree {
    if change.content.Some? then files[change.path := change.content.value] else files - {change.path}
  }

  function At(s: State, tid: nat, task: Task): State {
    s.(tasks := s.tasks[tid := task])
  }

  /** A commit lands only on the head it is based on: the remote refuses to move a
      branch to a commit that does not continue it. */
  function Do(s: State, step: Step): State {
    match step
    case Write(tid, change, sync) =>
      if tid in s.tasks then s
      else At(s.(files := WithChange(s.files, change), writes := s.writes + [change]), tid, if sync then Written(change) else Answered)
    case Advance(tid, attempt) =>
      if tid !in s.tasks then s
      else
        match s.tasks[tid]
        case Written(change) => At(s, tid, if attempt.Fails? then Failed(attempt.message) else Based(change, s.head))
        case Based(change, base) =>
          if attempt.Fails? then At(s, tid, Failed(attempt.message))
          else if base != s.head then At(s, tid, Failed(OVERTAKEN))
          else
            At(s.(branch := Committed(s.branch, Located(s.directory, map[change.path := change.content])), head := s.head + 1,
                  landings := s.landings + [change]), tid, Landed(s.head + 1))
        case Landed(commit) => At(s.(lastSynced := Some(commit), syncError := None), tid, Answered)
        case Failed(message) => At(s.(syncError := Some(message)), tid, Answered)
        case Answered => s
  }

  function Run(s: State, steps: seq<Step>): State
    decreases |steps|
  {
    if steps == [] then s else Do(Run(s, steps[..|steps| - 1]), steps[|steps| - 1])
  }

  function Begun(files: Tree, branch: Tree, directory: string, head: Commit): State {
    State(files, branch, directory, head, Some(head), None, map[], [], [])
  }

  function Lookup(tree: Tree, p: Path): Option<Content> {
    if p in tree then Some(tree[p]) else None
  }

  /** What a path holds after some changes: the last change to it, or what it held before. */
  function ValueAfter(before: Option<Content>, changes: seq<Change>, p: Path): Option<Content>
    decreases |changes|
  {
    if changes == [] then before
    else
      var last := changes[|changes| - 1];
      if last.path == p then last.content else ValueAfter(before, changes[..|changes| - 1], p)
  }

  /** The draft's files are the local writes in their order, and the branch is the
      landed changes in theirs, so no landed change is ever lost to another. */
  ghost predicate Folds(s: State, files: Tree, base: Tree, p: Path) {
    && Lookup(s.files, p) == ValueAfter(Lookup(files, p), s.writes, p)
    && Lookup(s.branch, PathOnBranch(s.directory, p)) == ValueAfter(Lookup(base, PathOnBranch(s.directory, p)), s.landings, p)
  }

  lemma OneMoreChange(before: Option<Content>, changes: seq<Change>, change: Change, p: Path)
    ensures ValueAfter(before, changes + [change], p) == if change.path == p then change.content else ValueAfter(before, changes, p)
  {
    assert (changes + [change])[..|changes|] == changes;
  }

  lemma LandedChange(branch: Tree, directory: string, change: Change, p: Path)
    ensures var after := Committed(branch, Located(directory, map[change.path := change.content]));
            Lookup(after, PathOnBranch(directory, p))
            == if change.path == p then change.content else Lookup(branch, PathOnBranch(directory, p))
  {
    hide Committed, Located;
    CommitOnePath(Mirror(map[], branch, directory, 0, None, None), change.path, change.content, p);
  }

  lemma DoFolds(s: State, step: Step, files: Tree, base: Tree, p: Path)
    requires Folds(s, files, base, p)
    ensures Folds(Do(s, step), files, base, p) && Do(s, step).directory == s.directory
  {
    hide Committed, Located, ValueAfter, PathOnBranch;
    match step
    case Write(tid, change, sync) => OneMoreChange(Lookup(files, p), s.writes, change, p);
    case Advance(tid, attempt) =>
      if tid in s.tasks && s.tasks[tid].Based? {
        var change := s.tasks[tid].change;
        OneMoreChange(Lookup(base, PathOnBranch(s.directory, p)), s.landings, change, p);
        LandedChange(s.branch, s.directory, change, p);
      }
  }

  lemma {:induction false} RunFolds(files: Tree, base: Tree, directory: string, head: Commit, steps: seq<Step>, p: Path)
    ensures var s := Run(Begun(files, base, directory, head), steps);
            Folds(s, files, base, p) && s.directory == directory
    decreases |steps|
  {
    hide Do;
    if steps != [] {
      var n := |steps| - 1;
      RunFolds(files, base, directory, head, steps[..n], p);
      DoFolds(Run(Begun(files, base, directory, head), steps[..n]), steps[n], files, base, p);
    }
  }

  /** Draft and branch hold the same at a path. */
  predicate Same(s: State, p: Path) {
    Lookup(s.files, p) == Lookup(s.branch, PathOnBranch(s.directory, p))
  }

  /** In every interleaving, at a path where they began alike, draft and branch agree
      exactly when the last change written there and the last one landed there are the
      same, or where there was none, leave what was there before. */
  lemma AgreeIff(files: Tree, base: Tree, directory: string, head: Commit, steps: seq<Step>, p: Path)
    requires Same(Begun(files, base, directory, head), p)
    ensures var s := Run(Begun(files, base, directory, head), steps);
            Same(s, p) <==> ValueAfter(Lookup(files, p), s.writes, p) == ValueAfter(Lookup(files, p), s.landings, p)
  {
    hide Run, ValueAfter, PathOnBranch;
    RunFolds(files, base, directory, head, steps, p);
  }

  /** A change on its way was written before, and what has landed was on its way. */
  ghost predicate Sourced(s: State) {
    && (forall tid :: tid in s.tasks && (s.tasks[tid].Written? || s.tasks[tid].Based?) ==> s.tasks[tid].change in s.writes)
    && (forall c :: c in s.landings ==> c in s.writes)
    && (forall tid :: tid in s.tasks && s.tasks[tid].Landed? ==> s.tasks[tid].commit <= s.head)
    && (s.lastSynced.Some? ==> s.lastSynced.value <= s.head)
  }

  lemma {:induction false} NothingInvented(files: Tree, base: Tree, directory: string, head: Commit, steps: seq<Step>)
    ensures Sourced(Run(Begun(files, base, directory, head), steps))
    decreases |steps|
  {
    hide Do;
    if steps != [] {
      hide Sourced;
      NothingInvented(files, base, directory, head, steps[..|steps| - 1]);
      DoInventsNothing(Run(Begun(files, base, directory, head), steps[..|steps| - 1]), steps[|steps| - 1]);
    }
  }

  lemma DoInventsNothing(s: State, step: Step)
    requires Sourced(s)
    ensures Sourced(Do(s, step))
  {
    hide Committed, Located, WithChange;
  }

  lemma GetsHead(s: State, tid: nat, attempt: Attempt)
    requires tid in s.tasks && s.tasks[tid].Written? && attempt.Lands?
    ensures Do(s, Advance(tid, attempt)) == At(s, tid, Based(s.tasks[tid].change, s.head))
  {
  }

  /** The state after a change has landed and before that is recorded. */
  function AfterLanding(s: State, change: Change): State {
    s.(branch := Committed(s.branch, Located(s.directory, map[change.path := change.content])),
       head := s.head + 1, landings := s.landings + [change])
  }

  lemma LandsOnHead(s: State, tid: nat, attempt: Attempt)
    requires tid in s.tasks && s.tasks[tid].Based? && s.tasks[tid].base == s.head && attempt.Lands?
    ensures Do(s, Advance(tid, attempt)) == At(AfterLanding(s, s.tasks[tid].change), tid, Landed(s.head + 1))
  {
    hide Committed, Located;
  }

  lemma RecordsLanding(s: State, tid: nat, attempt: Attempt)
    requires tid in s.tasks && s.tasks[tid].Landed?
    ensures Do(s, Advance(tid, attempt)) == At(s.(lastSynced := Some(s.tasks[tid].commit), syncError := None), tid, Answered)
  {
  }

  /** A synced write left alone lands at once and is recorded. */
  lemma SyncAlone(s: State, tid: nat, attempt: Attempt)
    requires tid in s.tasks && s.tasks[tid].Written? && attempt.Lands?
    ensures Run(s, Sync(tid, attempt))
            == At(AfterLanding(s, s.tasks[tid].change).(lastSynced := Some(s.head + 1), syncError := None), tid, Answered)
  {
    hide Do, AfterLanding;
    var a, change := Advance(tid, attempt), s.tasks[tid].change;
    RunThree(s, Sync(tid, attempt));
    GetsHead(s, tid, attempt);
    var based := At(s, tid, Based(change, s.head));
    LandsOnHead(based, tid, attempt);
    RecordsLanding(At(AfterLanding(based, change), tid, Landed(s.head + 1)), tid, attempt);
    LandingKeepsTasks(s, based, change);
  }

  /** A write is saved at once, whether or not it is synced and however that goes. */
  lemma WriteIsSaved(s: State, tid: nat, change: Change, sync: bool, p: Path)
    requires tid !in s.tasks
    ensures var t := Do(s, Write(tid, change, sync));
            && Lookup(t.files, p) == (if p == change.path then change.content else Lookup(s.files, p))
            && t == s.(files := t.files, writes := s.writes + [change], tasks := s.tasks[tid := if sync then Written(change) else Answered])
  {
  }

  /** A synced write whose head cannot be read ends with that error recorded, and
      neither the draft nor the branch has moved. */
  lemma UnreadHeadIsRecorded(s: State, tid: nat, attempt: Attempt)
    requires tid in s.tasks && s.tasks[tid].Written? && attempt.Fails?
    ensures var a := Advance(tid, attempt);
            Do(Do(s, a), a) == s.(syncError := Some(attempt.message), tasks := s.tasks[tid := Answered])
  {
    var a := Advance(tid, attempt);
    assert Do(s, a) == At(s, tid, Failed(attempt.message));
  }

  /** So does one whose commit is refused or overtaken, and it lands exactly when
      neither happens. */
  lemma UnlandedIsRecorded(s: State, tid: nat, attempt: Attempt)
    requires tid in s.tasks && s.tasks[tid].Based?
    ensures var a := Advance(tid, attempt);
            var t := Do(Do(s, a), a);
            && t.tasks == s.tasks[tid := Answered] && t.files == s.files && t.writes == s.writes
            && (attempt.Lands? && s.tasks[tid].base == s.head <==> t.landings == s.landings + [s.tasks[tid].change])
            && (attempt.Lands? && s.tasks[tid].base == s.head <==> t.syncError == None)
            && (attempt.Fails? ==> t == s.(syncError := Some(attempt.message), tasks := t.tasks))
            && (attempt.Lands? && s.tasks[tid].base != s.head ==> t == s.(syncError := Some(OVERTAKEN), tasks := t.tasks))
  {
    hide Committed, Located;
  }

  lemma LandingKeepsTasks(s: State, t: State, change: Change)
    requires t == s.(tasks := t.tasks)
    ensures AfterLanding(t, change) == AfterLanding(s, change).(tasks := t.tasks) && AfterLanding(s, change).tasks == s.tasks
  {
    hide Committed, Located;
  }

  /** Where a path was written at most once and that write has landed, they agree. */
  lemma {:induction false} SingleWriteAgrees(files: Tree, base: Tree, directory: string, head: Commit, steps: seq<Step>, change: Change)
    requires Same(Begun(files, base, directory, head), change.path)
    requires var s := Run(Begun(files, base, directory, head), steps);
             change in s.landings && forall c :: c in s.writes && c.path == change.path ==> c == change
    ensures Same(Run(Begun(files, base, directory, head), steps), change.path)
  {
    hide Run, Same;
    var s := Run(Begun(files, base, directory, head), steps);
    NothingInvented(files, base, directory, head, steps);
    AgreeIff(files, base, directory, head, steps, change.path);
    OnlyChange(Lookup(files, change.path), s.writes, change);
    OnlyChange(Lookup(files, change.path), s.landings, change);
  }

  lemma {:induction false} OnlyChange(before: Option<Content>, changes: seq<Change>, change: Change)
    requires change in changes && forall c :: c in changes && c.path == change.path ==> c == change
    ensures ValueAfter(before, changes, change.path) == change.content
    decreases |changes|
  {
    var front, last := changes[..|changes| - 1], changes[|changes| - 1];
    assert changes == front + [last];
    assert last in changes;
    if last.path != change.path {
      assert change in front;
      OnlyChange(before, front, change);
    }
  }

  /** Two saves of one path cross: the later write lands first. All have been answered,
      the status is clean and at the head, and draft and branch hold different contents. */
  lemma CrossedSavesDisagree(files: Tree, base: Tree, head: Commit, p: Path, a: Content, b: Content) returns (steps: seq<Step>)
    requires a != b
    ensures var s := Run(Begun(files, base, "", head), steps);
            && s.tasks == map[0 := Answered, 1 := Answered]
            && s.syncError == None && s.lastSynced == Some(s.head)
            && Lookup(s.files, p) == Some(b) && Lookup(s.branch, p) == Some(a) && !Same(s, p)
  {
    var first, second := Change(p, Some(a)), Change(p, Some(b));
    var writes := [Write(0, first, true), Write(1, second, true)];
    var later, earlier := Sync(1, Lands(head)), Sync(0, Lands(head));
    var start := Begun(files, base, "", head);
    steps := writes + later + earlier;
    RunInTwoParts(start, writes, later);
    RunInTwoParts(start, writes + later, earlier);
    RunTwo(start, writes);
    BothWritten(start, first, second);
    hide Do, Run, WithChange, Committed, Located;
    LaterLandsFirst(Run(start, writes), first, second, Lands(head));
  }

  function Sync(tid: nat, attempt: Attempt): seq<Step> {
    [Advance(tid, attempt), Advance(tid, attempt), Advance(tid, attempt)]
  }

  lemma LaterLandsFirst(s: State, first: Change, second: Change, attempt: Attempt)
    requires s.tasks == map[0 := Written(first), 1 := Written(second)] && attempt.Lands?
    ensures var t := Run(Run(s, Sync(1, attempt)), Sync(0, attempt));
            && t.tasks == map[0 := Answered, 1 := Answered] && t.files == s.files && t.directory == s.directory
            && t.syncError == None && t.lastSynced == Some(t.head)
            && Lookup(t.branch, PathOnBranch(s.directory, first.path)) == first.content
  {
    hide Run, Committed, Located, Lookup, PathOnBranch;
    SyncAlone(s, 1, attempt);
    var x := Run(s, Sync(1, attempt));
    assert x.tasks == map[0 := Written(first), 1 := Answered];
    SyncAlone(x, 0, attempt);
    LandedChange(x.branch, x.directory, first, first.path);
  }

  lemma LastWriteStays(files: Tree, change: Change)
    ensures Lookup(WithChange(files, change), change.path) == change.content
  {
  }

  lemma BothWritten(s: State, first: Change, second: Change)
    requires s.tasks == map[]
    ensures var t := Do(Do(s, Write(0, first, true)), Write(1, second, true));
            t == s.(files := WithChange(WithChange(s.files, first), second), writes := s.writes + [first] + [second],
                    tasks := map[0 := Written(first), 1 := Written(second)])
    ensures Lookup(WithChange(WithChange(s.files, first), second), second.path) == second.content
  {
    LastWriteStays(WithChange(s.files, first), second);
    hide WithChange;
    assert Do(s, Write(0, first, true)).tasks == map[0 := Written(first)];
  }

  lemma {:induction false} RunInTwoParts(s: State, a: seq<Step>, b: seq<Step>)
    ensures Run(s, a + b) == Run(Run(s, a), b)
    decreases |b|
  {
    hide Do;
    if b == [] {
      assert a + b == a;
    } else {
      var n := |b| - 1;
      assert (a + b)[..|a + b| - 1] == a + b[..n];
      RunInTwoParts(s, a, b[..n]);
    }
  }

  lemma RunTwo(s: State, t: seq<Step>)
    requires |t| == 2
    ensures Run(s, t) == Do(Do(s, t[0]), t[1])
  {
    hide Do;
    assert t[..1][..0] == t[..0] == [];
    assert Run(s, t[..1]) == Do(s, t[0]);
  }

  lemma RunThree(s: State, t: seq<Step>)
    requires |t| == 3
    ensures Run(s, t) == Do(Do(Do(s, t[0]), t[1]), t[2])
  {
    hide Do;
    RunTwo(s, t[..2]);
  }
}
