/** Write-through mirroring of a draft's files into one folder of a working
    branch: the value of the mirror, its steps, and what whole runs keep. */
module GitMirror {
  import opened Registry
  import opened Text

  type Path = string
  type Content = seq<bv8>
  type Tree = map<Path, Content>

  /** One commit's changes: content to set, or `None` to delete. */
  type Changes = map<Path, Option<Content>>

  function Committed(tree: Tree, changes: Changes): Tree {
    map p | p in tree.Keys + changes.Keys && (p in changes ==> changes[p].Some?) ::
      if p in changes then changes[p].value else tree[p]
  }

  function Inside(directory: string, p: Path): Path {
    directory + "/" + p
  }

  predicate IsInside(directory: string, q: Path) {
    |q| > |directory| && q[..|directory| + 1] == directory + "/"
  }

  function PrefixChanges<T>(changes: map<Path, T>, directory: string): map<Path, T> {
    map q | q in (set p | p in changes :: Inside(directory, p)) && IsInside(directory, q) && q[|directory| + 1..] in changes ::
      changes[q[|directory| + 1..]]
  }

  function AllSet(files: Tree): Changes {
    map p | p in files :: Some(files[p])
  }

  function AllRemoved(files: Tree): Changes {
    var removed: Option<Content> := None;
    map p | p in files :: removed
  }

  const META := "_meta.json"

  /** Listing a draft skips every file named like its metadata, in any folder. */
  predicate MetaNamed(p: Path) {
    p == META || (|p| > |META| && p[|p| - |META| - 1..] == "/" + META)
  }

  /** That is: the last part of the path is the metadata's file name. */
  lemma MetaNamedIff(p: Path)
    ensures MetaNamed(p) <==> var parts := Split(p, '/'); parts[|parts| - 1] == "_meta.json"
  {
    LastPieceIff(p, META, '/');
  }

  lemma OnlyMetaIsUnlisted(files: Tree)
    ensures forall p :: p in Listed(files) <==> p in files && (var parts := Split(p, '/'); parts[|parts| - 1]) != "_meta.json"
    ensures forall p :: p in Listed(files) ==> Listed(files)[p] == files[p]
  {
    forall p
      ensures p in Listed(files) <==> p in files && (var parts := Split(p, '/'); parts[|parts| - 1]) != "_meta.json"
    {
      MetaNamedIff(p);
    }
  }

  function Listed(files: Tree): Tree {
    map p | p in files && !MetaNamed(p) :: files[p]
  }

  /** The part of a tree under a folder, with the folder taken off its paths. */
  ghost function Subtree(tree: Tree, directory: string): Tree {
    map p | p in (set q | q in tree && IsInside(directory, q) :: q[|directory| + 1..]) && Inside(directory, p) in tree ::
      tree[Inside(directory, p)]
  }

  lemma InsideIsInside(directory: string, p: Path)
    ensures IsInside(directory, Inside(directory, p)) && Inside(directory, p)[|directory| + 1..] == p
  {
  }

  lemma OutOfFolder(directory: string, q: Path)
    requires IsInside(directory, q)
    ensures Inside(directory, q[|directory| + 1..]) == q
  {
    assert q == q[..|directory| + 1] + q[|directory| + 1..];
  }

  lemma PrefixedLookup<T>(changes: map<Path, T>, directory: string)
    ensures forall p :: p in changes <==> Inside(directory, p) in PrefixChanges(changes, directory)
    ensures forall p :: p in changes ==> PrefixChanges(changes, directory)[Inside(directory, p)] == changes[p]
    ensures forall q :: q in PrefixChanges(changes, directory) ==> IsInside(directory, q)
  {
    forall p
      ensures p in changes <==> Inside(directory, p) in PrefixChanges(changes, directory)
      ensures p in changes ==> PrefixChanges(changes, directory)[Inside(directory, p)] == changes[p]
    {
      InsideIsInside(directory, p);
    }
  }

  /** Prefixing commutes with committing: on the folder the commit acts as the
      unprefixed changes would, and outside it nothing moves. */
  lemma PrefixCommutesWithCommit(tree: Tree, changes: Changes, directory: string)
    ensures var after := Committed(tree, PrefixChanges(changes, directory));
            && Subtree(after, directory) == Committed(Subtree(tree, directory), changes)
            && OutsideUnchanged(tree, after, directory)
  {
    hide Committed, PrefixChanges, Subtree, IsInside, OutsideUnchanged, Inside;
    var after := Committed(tree, PrefixChanges(changes, directory));
    var folded := Committed(Subtree(tree, directory), changes);
    PrefixedLookup(changes, directory);
    assert OutsideUnchanged(tree, after, directory) by {
      PrefixedCommitStaysInside(tree, changes, directory);
    }
    forall p
      ensures p in Subtree(after, directory) <==> p in folded
      ensures p in folded && p in Subtree(after, directory) ==> Subtree(after, directory)[p] == folded[p]
    {
      SubtreeAt(tree, directory, p);
      SubtreeAt(after, directory, p);
      CommittedAt(tree, PrefixChanges(changes, directory), Inside(directory, p));
      CommittedAt(Subtree(tree, directory), changes, p);
    }
    assert Subtree(after, directory) == folded;
  }

  lemma PrefixedCommitStaysInside(tree: Tree, changes: Changes, directory: string)
    ensures OutsideUnchanged(tree, Committed(tree, PrefixChanges(changes, directory)), directory)
  {
    hide PrefixChanges;
    PrefixedLookup(changes, directory);
    hide IsInside;
  }

  lemma PrefixIsEmptyIff<T>(changes: map<Path, T>, directory: string)
    ensures PrefixChanges(changes, directory) == map[] <==> changes == map[]
  {
    if changes != map[] {
      var p :| p in changes;
      InsideIsInside(directory, p);
      assert Inside(directory, p) in PrefixChanges(changes, directory);
    }
  }

  lemma SubtreeAt(tree: Tree, directory: string, p: Path)
    ensures p in Subtree(tree, directory) <==> Inside(directory, p) in tree
    ensures p in Subtree(tree, directory) ==> Subtree(tree, directory)[p] == tree[Inside(directory, p)]
  {
    InsideIsInside(directory, p);
  }

  lemma CommittedAt(tree: Tree, changes: Changes, q: Path)
    ensures q in Committed(tree, changes) <==> if q in changes then changes[q].Some? else q in tree
    ensures q in Committed(tree, changes) ==>
              Committed(tree, changes)[q] == if q in changes then changes[q].value else tree[q]
  {
  }

  ghost predicate OutsideUnchanged(before: Tree, after: Tree, directory: string) {
    forall q :: !IsInside(directory, q) ==> (q in after <==> q in before) && (q in before && q in after ==> after[q] == before[q])
  }

  // A draft and its branch.

  type Commit = nat
  type Folder = s: string | s != "" witness "skill"

  /** `directory` is empty for a draft connected before folders existed;
      `branch` is the tree of the working branch's head commit `head`. */
  datatype Mirror = Mirror(
    files: Tree,
    branch: Tree,
    directory: string,
    head: Commit,
    lastSynced: Option<Commit>,
    syncError: Option<string>)

  /** Whether a commit attempt lands, or why it does not. */
  datatype Attempt = Lands(commit: Commit) | Fails(message: string)

  function Located(directory: string, changes: Changes): Changes {
    if directory == "" then changes else PrefixChanges(changes, directory)
  }

  function PathOnBranch(directory: string, p: Path): Path {
    if directory == "" then p else Inside(directory, p)
  }

  /** One best-effort sync: a failure is recorded and changes nothing else. */
  function Synced(m: Mirror, changes: Changes, attempt: Attempt): Mirror {
    match attempt
    case Lands(commit) =>
      m.(branch := Committed(m.branch, Located(m.directory, changes)), head := commit,
         lastSynced := Some(commit), syncError := None)
    case Fails(message) => m.(syncError := Some(message))
  }

  function MoveChanges(files: Tree, directory: string): Changes {
    AllRemoved(files) + PrefixChanges(AllSet(files), directory)
  }

  datatype Step =
    | Save(path: Path, content: Content, sync: bool, attempt: Attempt)
    | Delete(path: Path, attempt: Attempt)
    | MoveToDirectory(directory: Folder, attempt: Attempt)

  /** Handlers on a connected draft: the local change always happens; moving
      happens only once, and only if its commit lands. */
  function Do(m: Mirror, step: Step): Mirror {
    match step
    case Save(p, content, sync, attempt) =>
      var saved := m.(files := m.files[p := content]);
      if sync then Synced(saved, map[p := Some(content)], attempt) else saved
    case Delete(p, attempt) =>
      Synced(m.(files := m.files - {p}), map[p := None], attempt)
    case MoveToDirectory(directory, attempt) =>
      if m.directory != "" || attempt.Fails? then m
      else
        m.(branch := Committed(m.branch, MoveChanges(Listed(m.files), directory)), directory := directory,
           head := attempt.commit, lastSynced := Some(attempt.commit), syncError := None)
  }

  function Run(m: Mirror, steps: seq<Step>): Mirror
    decreases |steps|
  {
    if steps == [] then m else Do(Run(m, steps[..|steps| - 1]), steps[|steps| - 1])
  }

  lemma RunOneMore(m: Mirror, steps: seq<Step>, step: Step)
    ensures Run(m, steps + [step]) == Do(Run(m, steps), step)
  {
    hide Do;
    assert (steps + [step])[..|steps|] == steps;
  }

  /** The mirror right after connecting a draft to a branch cut from `base`. */
  function Connected(files: Tree, base: Tree, directory: string, seed: Commit): Mirror {
    Mirror(files, Committed(base, Located(directory, AllSet(Listed(files)))), directory, seed, Some(seed), None)
  }

  /** The changes of a step that reached the branch, before prefixing. */
  function LandedChanges(step: Step): Changes {
    match step
    case Save(p, content, sync, attempt) => if sync && attempt.Lands? then map[p := Some(content)] else map[]
    case Delete(p, attempt) => if attempt.Lands? then map[p := None] else map[]
    case MoveToDirectory(_, _) => map[]
  }

  function Folded(tree: Tree, steps: seq<Step>): Tree
    decreases |steps|
  {
    if steps == [] then tree else Committed(Folded(tree, steps[..|steps| - 1]), LandedChanges(steps[|steps| - 1]))
  }

  lemma NoChanges(tree: Tree)
    ensures Committed(tree, map[]) == tree
  {
  }

  lemma OutsideTransitive(a: Tree, b: Tree, c: Tree, directory: string)
    requires OutsideUnchanged(a, b, directory) && OutsideUnchanged(b, c, directory)
    ensures OutsideUnchanged(a, c, directory)
  {
    forall q | !IsInside(directory, q)
      ensures (q in c <==> q in a) && (q in a && q in c ==> c[q] == a[q])
    {
      assert q in b <==> q in a;
    }
  }

  /** From the seed commit on, the branch differs from its base only inside the
      folder, and there it is the seed with exactly the landed changes folded in. */
  lemma {:induction false} BranchIsFoldOfLandedChanges(files: Tree, base: Tree, directory: string, seed: Commit, steps: seq<Step>)
    requires directory != ""
    ensures var m := Run(Connected(files, base, directory, seed), steps);
            && m.directory == directory
            && OutsideUnchanged(base, m.branch, directory)
            && Subtree(m.branch, directory) == Folded(Committed(Subtree(base, directory), AllSet(Listed(files))), steps)
    decreases |steps|
  {
    hide Committed, PrefixChanges, Subtree, OutsideUnchanged, AllSet;
    if steps == [] {
      PrefixCommutesWithCommit(base, AllSet(Listed(files)), directory);
    } else {
      var front, step := steps[..|steps| - 1], steps[|steps| - 1];
      BranchIsFoldOfLandedChanges(files, base, directory, seed, front);
      var m := Run(Connected(files, base, directory, seed), front);
      var t := Do(m, step);
      NoChanges(Subtree(m.branch, directory));
      OutsideSelf(m.branch, directory);
      PrefixCommutesWithCommit(m.branch, LandedChanges(step), directory);
      assert t.branch == m.branch || t.branch == Committed(m.branch, PrefixChanges(LandedChanges(step), directory));
      OutsideTransitive(base, m.branch, t.branch, directory);
    }
  }

  lemma OutsideSelf(tree: Tree, directory: string)
    ensures OutsideUnchanged(tree, tree, directory)
  {
  }

  // Sync status.

  /** A step that tries to commit and records how that went. */
  predicate Attempts(m: Mirror, step: Step) {
    match step
    case Save(_, _, sync, _) => sync
    case Delete(_, _) => true
    case MoveToDirectory(directory, attempt) => m.directory == "" && attempt.Lands?
  }

  /** How the last recorded attempt went; the seed commit counts as the first. */
  ghost function LastAttempt(m: Mirror, steps: seq<Step>, seed: Commit): Attempt
    decreases |steps|
  {
    if steps == [] then Lands(seed)
    else
      var front, step := steps[..|steps| - 1], steps[|steps| - 1];
      if Attempts(Run(m, front), step) then step.attempt else LastAttempt(m, front, seed)
  }

  /** The last commit of a run that landed. */
  ghost function LastLanded(m: Mirror, steps: seq<Step>, seed: Commit): Commit
    decreases |steps|
  {
    if steps == [] then seed
    else
      var front, step := steps[..|steps| - 1], steps[|steps| - 1];
      if Attempts(Run(m, front), step) && step.attempt.Lands? then step.attempt.commit else LastLanded(m, front, seed)
  }

  /** The draft's status is exact: the synced commit is the branch's head and the
      last one that landed, and an error shows iff the last attempt failed, with
      that failure's message. */
  lemma {:induction false} SyncStatusIsExact(files: Tree, base: Tree, directory: string, seed: Commit, steps: seq<Step>)
    ensures var start := Connected(files, base, directory, seed);
            var m := Run(start, steps);
            && m.lastSynced == Some(m.head)
            && m.head == LastLanded(start, steps, seed)
            && m.syncError == match LastAttempt(start, steps, seed) { case Lands(_) => None case Fails(message) => Some(message) }
    decreases |steps|
  {
    hide Committed, PrefixChanges, MoveChanges, Located;
    if steps != [] {
      SyncStatusIsExact(files, base, directory, seed, steps[..|steps| - 1]);
    }
  }

  // Agreement between draft and branch.

  /** Draft and branch say the same about one draft path. */
  ghost predicate Agrees(m: Mirror, p: Path) {
    var q := PathOnBranch(m.directory, p);
    (p in m.files <==> q in m.branch) && (p in m.files && q in m.branch ==> m.branch[q] == m.files[p])
  }

  /** The paths whose latest change is known to have reached the branch. */
  ghost function UpToDate(m: Mirror, steps: seq<Step>): set<Path>
    decreases |steps|
  {
    if steps == [] then Listed(m.files).Keys
    else
      var front, step := steps[..|steps| - 1], steps[|steps| - 1];
      var before := UpToDate(m, front);
      match step
      case Save(p, _, sync, attempt) => if sync && attempt.Lands? then before + {p} else before - {p}
      case Delete(p, attempt) => if attempt.Lands? then before + {p} else before - {p}
      case MoveToDirectory(_, _) =>
        if Attempts(Run(m, front), step) then Listed(Run(m, front).files).Keys else before
  }

  lemma CommitOnePath(m: Mirror, p: Path, change: Option<Content>, q: Path)
    ensures var after := Committed(m.branch, Located(m.directory, map[p := change]));
            var at := PathOnBranch(m.directory, q);
            && (q == p ==> (at in after <==> change.Some?) && (change.Some? ==> at in after && after[at] == change.value))
            && (q != p ==> (at in after <==> at in m.branch) && (at in m.branch ==> at in after && after[at] == m.branch[at]))
  {
    if m.directory != "" {
      PrefixedLookup(map[p := change], m.directory);
      InsideIsInside(m.directory, q);
      InsideIsInside(m.directory, p);
      assert Inside(m.directory, q) in PrefixChanges(map[p := change], m.directory) <==> q == p;
    }
  }

  /** Moving is exact for every file set, even when a draft path already starts
      with the folder: every file is at its nested path, no flat path survives
      unless it is itself a nested path, and everything else is untouched. */
  lemma MoveIsExact(branch: Tree, files: Tree, directory: string)
    ensures var after := Committed(branch, MoveChanges(files, directory));
            && (forall p :: p in files ==> Inside(directory, p) in after && after[Inside(directory, p)] == files[p])
            && (forall p :: p in files ==> directory + "/" + p in after && after[directory + "/" + p] == files[p])
            && (forall p :: p in files && p in after ==> IsInside(directory, p) && p[|directory| + 1..] in files)
            && (forall q :: q !in files && !(IsInside(directory, q) && q[|directory| + 1..] in files) ==>
                  (q in after <==> q in branch) && (q in branch ==> q in after && after[q] == branch[q]))
  {
    var prefixed := PrefixChanges(AllSet(files), directory);
    PrefixedLookup(AllSet(files), directory);
    var after := Committed(branch, MoveChanges(files, directory));
    forall q
      ensures q in prefixed <==> IsInside(directory, q) && q[|directory| + 1..] in files
    {
      if IsInside(directory, q) {
        OutOfFolder(directory, q);
      }
    }
    forall p | p in files
      ensures Inside(directory, p) in after && after[Inside(directory, p)] == files[p]
    {
      assert Inside(directory, p) in prefixed && prefixed[Inside(directory, p)] == Some(files[p]);
    }
  }

  lemma StepKeepsAgreement(m: Mirror, step: Step, q: Path)
    requires Agrees(m, q)
    requires match step case Save(p, _, sync, attempt) => q != p || (sync && attempt.Lands?)
                        case Delete(p, attempt) => q != p || attempt.Lands?
                        case MoveToDirectory(_, _) => !Attempts(m, step)
    ensures Agrees(Do(m, step), q)
  {
    hide Committed, Located, MoveChanges;
    match step
    case Save(p, content, sync, attempt) => CommitOnePath(m, p, Some(content), q);
    case Delete(p, attempt) => CommitOnePath(m, p, None, q);
    case MoveToDirectory(_, _) =>
  }

  /** A landed change makes its path agree, whatever was missed before. */
  lemma LandedChangeAgrees(m: Mirror, step: Step)
    requires (step.Save? && step.sync && step.attempt.Lands?) || (step.Delete? && step.attempt.Lands?)
    ensures Agrees(Do(m, step), step.path)
  {
    hide Committed, Located, MoveChanges;
    CommitOnePath(m, step.path, if step.Save? then Some(step.content) else None, step.path);
  }

  /** A path whose latest change landed agrees, in every run and after a move too. */
  lemma {:induction false} UpToDatePathsAgree(files: Tree, base: Tree, directory: string, seed: Commit, steps: seq<Step>, q: Path)
    requires q in UpToDate(Connected(files, base, directory, seed), steps)
    ensures Agrees(Run(Connected(files, base, directory, seed), steps), q)
    decreases |steps|
  {
    hide Committed, Agrees, MoveChanges, Located, Do;
    var start := Connected(files, base, directory, seed);
    if steps == [] {
      SeedsAgree(files, base, directory, seed, q);
    } else {
      var front, step := steps[..|steps| - 1], steps[|steps| - 1];
      var m := Run(start, front);
      if step.MoveToDirectory? && Attempts(m, step) {
        MovedFilesAgree(m, step, q);
      } else if !step.MoveToDirectory? && q == step.path {
        LandedChangeAgrees(m, step);
      } else {
        UpToDatePathsAgree(files, base, directory, seed, front, q);
        StepKeepsAgreement(m, step, q);
      }
    }
  }

  lemma SeedsAgree(files: Tree, base: Tree, directory: string, seed: Commit, q: Path)
    requires q in Listed(files)
    ensures Agrees(Connected(files, base, directory, seed), q)
  {
    if directory != "" {
      PrefixedLookup(AllSet(Listed(files)), directory);
    }
  }

  lemma MovedFilesAgree(m: Mirror, step: Step, q: Path)
    requires step.MoveToDirectory? && Attempts(m, step) && q in Listed(m.files)
    ensures Agrees(Do(m, step), q)
  {
    hide Committed, MoveChanges;
    MoveIsExact(m.branch, Listed(m.files), step.directory);
  }

  ghost predicate EverySaveLands(steps: seq<Step>) {
    forall i :: 0 <= i < |steps| ==> steps[i].attempt.Lands? && !steps[i].MoveToDirectory? && (steps[i].Save? ==> steps[i].sync)
  }

  /** When every save syncs and lands, the draft and the branch agree on every
      file the draft was seeded with and on every path the run touched. */
  lemma {:induction false} FullySyncedMeansEqual(files: Tree, base: Tree, directory: string, seed: Commit, steps: seq<Step>, q: Path)
    requires EverySaveLands(steps)
    requires q in Listed(files) || exists i :: 0 <= i < |steps| && steps[i].path == q
    ensures Agrees(Run(Connected(files, base, directory, seed), steps), q)
  {
    TouchedIsUpToDate(Connected(files, base, directory, seed), steps, q);
    UpToDatePathsAgree(files, base, directory, seed, steps, q);
  }

  lemma {:induction false} TouchedIsUpToDate(m: Mirror, steps: seq<Step>, q: Path)
    requires EverySaveLands(steps)
    requires q in Listed(m.files) || exists i :: 0 <= i < |steps| && steps[i].path == q
    ensures q in UpToDate(m, steps)
    decreases |steps|
  {
    if steps != [] {
      var front, step := steps[..|steps| - 1], steps[|steps| - 1];
      if step.path != q {
        if q !in Listed(m.files) {
          var i :| 0 <= i < |steps| && steps[i].path == q;
          assert front[i].path == q;
        }
        TouchedIsUpToDate(m, front, q);
      }
    }
  }

  /** The status alone does not mean equality: a later success clears the error
      of an earlier failure whose change never reached the branch. */
  lemma SyncedCanHideDrift(files: Tree, base: Tree, directory: string, seed: Commit, p: Path, r: Path, was: Content, now: Content, next: Commit)
    requires p != r && was != now && p in Listed(files) && files[p] == was
    ensures var start := Connected(files, base, directory, seed);
            var m := Run(start, [Save(p, now, true, Fails("timeout")), Save(r, was, true, Lands(next))]);
            m.syncError == None && m.lastSynced == Some(m.head) && !Agrees(m, p)
  {
    hide Committed, Located, MoveChanges;
    var start := Connected(files, base, directory, seed);
    var first, second := Save(p, now, true, Fails("timeout")), Save(r, was, true, Lands(next));
    SeedsAgree(files, base, directory, seed, p);
    var m1 := Do(start, first);
    CommitOnePath(m1, r, Some(was), p);
    assert [first, second][..1] == [first] && [first][..0] == [];
    assert Run(start, []) == start;
    assert Run(start, [first]) == m1;
  }

  // Files named like the draft's metadata: listed nowhere, so seeded and moved nowhere.

  lemma NestedStaysMetaNamed(directory: string, p: Path)
    requires MetaNamed(p)
    ensures MetaNamed(Inside(directory, p))
  {
    var q := Inside(directory, p);
    if p == META {
      assert q[|q| - |META| - 1..] == "/" + META;
    } else {
      assert q[|q| - |META| - 1..] == p[|p| - |META| - 1..];
    }
  }

  /** The branch already holds a file under the folder, as the draft has it. */
  predicate AlreadyNested(branch: Tree, files: Tree, directory: string, p: Path)
    requires p in files
  {
    Inside(directory, p) in branch && branch[Inside(directory, p)] == files[p]
  }

  /** A landed move leaves an unlisted file agreeing exactly when the branch already
      held it under the folder. */
  lemma MovedMetaAgreesIff(m: Mirror, step: Step, p: Path)
    requires step.MoveToDirectory? && Attempts(m, step) && p in m.files && MetaNamed(p)
    ensures Agrees(Do(m, step), p) <==> AlreadyNested(m.branch, m.files, step.directory, p)
  {
    hide Committed, MoveChanges, MetaNamed;
    var q := Inside(step.directory, p);
    NestedStaysMetaNamed(step.directory, p);
    InsideIsInside(step.directory, p);
    MoveIsExact(m.branch, Listed(m.files), step.directory);
    assert q !in Listed(m.files) && p !in Listed(m.files);
  }

  /** After a landed move all files of the draft agree exactly when each unlisted
      one was already on the branch at its nested path. */
  lemma AllAgreeAfterMoveIff(m: Mirror, step: Step)
    requires step.MoveToDirectory? && Attempts(m, step)
    ensures (forall p :: p in m.files ==> Agrees(Do(m, step), p))
            <==> forall p :: p in m.files && MetaNamed(p) ==> AlreadyNested(m.branch, m.files, step.directory, p)
  {
    hide Agrees, Do, AlreadyNested, MetaNamed;
    forall p | p in m.files
      ensures Agrees(Do(m, step), p) <==> !MetaNamed(p) || AlreadyNested(m.branch, m.files, step.directory, p)
    {
      if MetaNamed(p) {
        MovedMetaAgreesIff(m, step, p);
      } else {
        MovedFilesAgree(m, step, p);
      }
    }
  }

  /** Connecting leaves an unlisted file agreeing exactly when the base branch
      already held it in the folder. */
  lemma ConnectedMetaAgreesIff(files: Tree, base: Tree, directory: Folder, seed: Commit, p: Path)
    requires p in files && MetaNamed(p)
    ensures Agrees(Connected(files, base, directory, seed), p) <==> AlreadyNested(base, files, directory, p)
  {
    hide MetaNamed;
    PrefixedLookup(AllSet(Listed(files)), directory);
  }

  /** After connecting all files agree exactly when that holds for each unlisted one. */
  lemma AllAgreeAfterConnectIff(files: Tree, base: Tree, directory: Folder, seed: Commit)
    ensures (forall p :: p in files ==> Agrees(Connected(files, base, directory, seed), p))
            <==> forall p :: p in files && MetaNamed(p) ==> AlreadyNested(base, files, directory, p)
  {
    hide Agrees, Connected, AlreadyNested, MetaNamed;
    forall p | p in files
      ensures Agrees(Connected(files, base, directory, seed), p) <==> !MetaNamed(p) || AlreadyNested(base, files, directory, p)
    {
      if MetaNamed(p) {
        ConnectedMetaAgreesIff(files, base, directory, seed, p);
      } else {
        SeedsAgree(files, base, directory, seed, p);
      }
    }
  }

  /** Such a file, saved and synced on a flat draft, is left at the root by the
      move: the status is clean and the branch misses it where the draft has it. */
  lemma SavedMetaIsLeftFlat(m: Mirror, p: Path, content: Content, saved: Commit, moved: Commit, directory: Folder)
    requires m.directory == "" && MetaNamed(p) && Inside(directory, p) !in m.branch
    ensures var t := Run(m, [Save(p, content, true, Lands(saved)), MoveToDirectory(directory, Lands(moved))]);
            && t.syncError == None && t.lastSynced == Some(t.head)
            && p in t.files && !Agrees(t, p)
  {
    hide Committed, MoveChanges, Agrees, MetaNamed, Located;
    var save, move := Save(p, content, true, Lands(saved)), MoveToDirectory(directory, Lands(moved));
    var flat := Do(m, save);
    RunOneMore(m, [], save);
    RunOneMore(m, [save], move);
    assert [] + [save] == [save] && [save] + [move] == [save, move];
    NestedIsAnother(directory, p);
    FlatCommit(m, p, content, Inside(directory, p));
    MovedMetaAgreesIff(flat, move, p);
  }

  lemma NestedIsAnother(directory: string, p: Path)
    ensures Inside(directory, p) != p
  {
    assert |Inside(directory, p)| > |p|;
  }

  lemma FlatCommit(m: Mirror, p: Path, content: Content, q: Path)
    requires m.directory == "" && q != p && q !in m.branch
    ensures q !in Committed(m.branch, Located(m.directory, map[p := Some(content)]))
  {
  }

  /** An ordinary path that the draft accepts is such a file. */
  lemma NestedMetaExists()
    ensures MetaNamed("a/_meta.json")
  {
    assert "a/_meta.json"[1..] == "/" + META;
  }
}
