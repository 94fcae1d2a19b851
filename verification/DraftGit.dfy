/** Drafts on local disk and the branches they are mirrored to: the handlers
    that connect, save, delete and move, proved against the mirror's steps. */
module DraftGit {
  import opened Registry
  import opened GitMirror
  import opened Text
  import SkillDirectory

  datatype Ref = Ref(owner: string, repo: string, branch: string)

  datatype GitConnection = GitConnection(repoUrl: string, target: Ref, working: Ref)

  datatype Draft = Draft(
    tenant: string,
    git: Option<GitConnection>,
    lastSynced: Option<Commit>,
    syncError: Option<string>,
    subdirectory: string)

  datatype Error =
    | InvalidFilePath
    | DraftNotFound
    | NotConnected
    | AlreadyHasDirectory
    | Refused(reason: string)
    | EmptyRepo
    | BranchExists
    | SyncFailed(message: string)

  datatype Result<T> = Ok(value: T) | Err(error: Error)

  const DRAFT_PREFIX := "draft_"

  /** A draft's own folder name when its manifest gives none. */
  function Suffix(id: string): string {
    if |id| >= |DRAFT_PREFIX| && id[..|DRAFT_PREFIX|] == DRAFT_PREFIX then id[|DRAFT_PREFIX|..] else id
  }

  type DraftId = s: string | Suffix(s) != "" witness "draft_0"

  /** A part `..` of a path stands at position `i`. */
  predicate DotsAt(p: Path, i: nat) {
    && i < |p| - 1 && p[i] == '.' && p[i + 1] == '.'
    && (i == 0 || p[i - 1] == '/') && (i + 2 == |p| || p[i + 2] == '/')
  }

  /** Paths a draft accepts: relative, not its metadata, no `..` part. */
  predicate PathAllowed(p: Path) {
    p != "" && p != META && p[0] != '/' && forall i :: 0 <= i < |p| - 1 ==> !DotsAt(p, i)
  }

  lemma DotsStandAt(p: Path, i: int)
    ensures StandsAt(p, "..", '/', i) <==> i >= 0 && DotsAt(p, i)
  {
    if 0 <= i < |p| - 1 {
      assert p[i..i + 2] == [p[i], p[i + 1]];
    }
  }

  /** Said by parts: a relative path other than the metadata's, no part of which is `..`. */
  lemma PathAllowedIff(p: Path)
    ensures PathAllowed(p) <==> p != "" && p != "_meta.json" && p[0] != '/' && ".." !in Split(p, '/')
  {
    hide StandsAt, Split;
    PieceIff(p, "..", '/');
    forall i
      ensures StandsAt(p, "..", '/', i) <==> i >= 0 && DotsAt(p, i)
    {
      DotsStandAt(p, i);
    }
  }

  // Draft store.

  class DraftStore {
    var drafts: map<DraftId, Draft>
    var files: map<DraftId, Tree>

    constructor ()
      ensures drafts == map[] && files == map[]
    {
      drafts, files := map[], map[];
    }

    method WriteFile(id: DraftId, p: Path, content: Content) returns (ok: bool)
      modifies this`files
      ensures ok <==> PathAllowed(p)
      ensures files == if ok then old(files)[id := FilesOf(old(files), id)[p := content]] else old(files)
    {
      ok := PathAllowed(p);
      if ok {
        files := files[id := FilesOf(files, id)[p := content]];
      }
    }

    method DeleteFile(id: DraftId, p: Path) returns (ok: bool)
      modifies this`files
      ensures ok <==> PathAllowed(p)
      ensures files == if ok then old(files)[id := FilesOf(old(files), id) - {p}] else old(files)
    {
      ok := PathAllowed(p);
      if ok {
        files := files[id := FilesOf(files, id) - {p}];
      }
    }

    method Delete(id: DraftId)
      modifies this
      ensures drafts == old(drafts) - {id} && files == old(files) - {id}
    {
      drafts, files := drafts - {id}, files - {id};
    }

    method Replace(id: DraftId, update: Draft -> Draft) returns (r: Result<Draft>)
      modifies this`drafts
      ensures r == if id in old(drafts) then Ok(update(old(drafts)[id])) else Err(DraftNotFound)
      ensures drafts == if id in old(drafts) then old(drafts)[id := update(old(drafts)[id])] else old(drafts)
    {
      if id !in drafts {
        return Err(DraftNotFound);
      }
      drafts := drafts[id := update(drafts[id])];
      r := Ok(drafts[id]);
    }

    method SetGitConnection(id: DraftId, git: GitConnection, seed: Commit, subdirectory: string) returns (r: Result<Draft>)
      modifies this`drafts
      ensures id in old(drafts) ==> r.Ok?
      ensures id in old(drafts) ==>
                drafts == old(drafts)[id := Draft(old(drafts)[id].tenant, Some(git), Some(seed), None, subdirectory)]
      ensures id !in old(drafts) ==> r == Err(DraftNotFound) && drafts == old(drafts)
    {
      r := Replace(id, (d: Draft) => d.(git := Some(git), lastSynced := Some(seed), syncError := None, subdirectory := subdirectory));
    }

    method SetSyncStatus(id: DraftId, landed: Option<Commit>, error: Option<string>) returns (r: Result<Draft>)
      modifies this`drafts
      ensures id in old(drafts) ==>
                var d := old(drafts)[id];
                r == Ok(if landed.Some? then d.(lastSynced := landed, syncError := None) else d.(syncError := error))
      ensures id in old(drafts) ==> r.Ok? && drafts == old(drafts)[id := r.value]
      ensures id !in old(drafts) ==> r == Err(DraftNotFound) && drafts == old(drafts)
    {
      if landed.Some? {
        r := Replace(id, (d: Draft) => d.(lastSynced := landed, syncError := None));
      } else {
        r := Replace(id, (d: Draft) => d.(syncError := error));
      }
    }

    method SetGitSubdirectory(id: DraftId, subdirectory: string) returns (r: Result<Draft>)
      modifies this`drafts
      ensures id in old(drafts) ==> drafts == old(drafts)[id := old(drafts)[id].(subdirectory := subdirectory)] && r == Ok(drafts[id])
      ensures id !in old(drafts) ==> r == Err(DraftNotFound) && drafts == old(drafts)
    {
      r := Replace(id, (d: Draft) => d.(subdirectory := subdirectory));
    }
  }

  function FilesOf(files: map<DraftId, Tree>, id: DraftId): Tree {
    if id in files then files[id] else map[]
  }

  // Remote.

  /** Whether one request to the remote goes through. */
  datatype Reply = Reaches | Breaks(message: string)

  class Remote {
    var heads: map<Ref, Commit>
    var trees: map<Commit, Tree>
    var next: Commit

    constructor ()
      ensures Valid() && heads == map[] && trees == map[]
    {
      heads, trees, next := map[], map[], 0;
    }

    ghost predicate Valid()
      reads this
    {
      && (forall r :: r in heads ==> heads[r] in trees)
      && (forall c :: c in trees ==> c < next)
    }

    method GetBranchHead(ref: Ref, reply: Reply) returns (r: Result<Option<Commit>>)
      ensures r == if reply.Breaks? then Err(SyncFailed(reply.message))
                   else Ok(if ref in heads then Some(heads[ref]) else None)
    {
      if reply.Breaks? {
        return Err(SyncFailed(reply.message));
      }
      r := Ok(if ref in heads then Some(heads[ref]) else None);
    }

    method CreateBranch(ref: Ref, from: Commit, reply: Reply) returns (r: Result<()>)
      requires Valid() && from in trees
      modifies this`heads
      ensures Valid()
      ensures r.Ok? <==> reply.Reaches? && ref !in old(heads)
      ensures heads == if r.Ok? then old(heads)[ref := from] else old(heads)
    {
      if reply.Breaks? {
        return Err(SyncFailed(reply.message));
      }
      if ref in heads {
        return Err(BranchExists);
      }
      heads := heads[ref := from];
      r := Ok(());
    }

    /** One atomic commit on top of `base` that the branch then points at. */
    method CommitFileChanges(ref: Ref, base: Commit, changes: Changes, reply: Reply) returns (r: Result<Commit>)
      requires Valid() && base in trees
      modifies this
      ensures Valid()
      ensures r == if reply.Reaches? then Ok(old(next)) else Err(SyncFailed(reply.message))
      ensures r.Ok? ==> heads == old(heads)[ref := r.value] && trees == old(trees)[r.value := Committed(old(trees)[base], changes)]
      ensures r.Err? ==> heads == old(heads) && trees == old(trees)
    {
      if reply.Breaks? {
        return Err(SyncFailed(reply.message));
      }
      r := Ok(next);
      trees := trees[next := Committed(trees[base], changes)];
      heads := heads[ref := next];
      next := next + 1;
    }

    /** The first commit of an empty repository creates the branch. */
    method BootstrapEmptyRepo(ref: Ref, changes: Changes, reply: Reply) returns (r: Result<Commit>)
      requires Valid()
      modifies this
      ensures Valid()
      ensures r.Ok? <==> reply.Reaches? && changes != map[]
      ensures r.Ok? ==> r.value == old(next) && heads == old(heads)[ref := r.value] && trees == old(trees)[r.value := Committed(map[], changes)]
      ensures r.Err? ==> heads == old(heads) && trees == old(trees)
    {
      if reply.Breaks? {
        return Err(SyncFailed(reply.message));
      }
      if changes == map[] {
        return Err(SyncFailed("no files given to bootstrap an empty repo with"));
      }
      r := Ok(next);
      trees := trees[next := Committed(map[], changes)];
      heads := heads[ref := next];
      next := next + 1;
    }
  }

  // What one draft and its branch amount to, and who may touch it.

  datatype World = World(
    drafts: map<DraftId, Draft>,
    files: map<DraftId, Tree>,
    heads: map<Ref, Commit>,
    trees: map<Commit, Tree>)

  ghost function Here(store: DraftStore, remote: Remote): World
    reads store, remote
  {
    World(store.drafts, store.files, remote.heads, remote.trees)
  }

  predicate IsConnected(w: World, id: DraftId) {
    id in w.drafts && w.drafts[id].git.Some?
  }

  function WorkingRef(w: World, id: DraftId): Ref
    requires IsConnected(w, id)
  {
    w.drafts[id].git.value.working
  }

  predicate Tracked(w: World, id: DraftId) {
    IsConnected(w, id) && WorkingRef(w, id) in w.heads && w.heads[WorkingRef(w, id)] in w.trees
  }

  function MirrorOf(w: World, id: DraftId): Mirror
    requires Tracked(w, id)
  {
    var d := w.drafts[id];
    var head := w.heads[WorkingRef(w, id)];
    Mirror(FilesOf(w.files, id), w.trees[head], d.subdirectory, head, d.lastSynced, d.syncError)
  }

  lemma MirrorIsIn(w: World, id: DraftId)
    requires Tracked(w, id)
    ensures MirrorOf(w, id).directory == w.drafts[id].subdirectory
  {
  }

  /** Every connected draft has a branch, and no two share one. */
  ghost predicate Separate(w: World) {
    && (forall id :: IsConnected(w, id) ==> Tracked(w, id))
    && (forall i, j :: i != j && IsConnected(w, i) && IsConnected(w, j) ==> WorkingRef(w, i) != WorkingRef(w, j))
  }

  /** Only `id` and the given branches differ, and no commit is lost. */
  ghost predicate OnlyTouches(w: World, v: World, id: DraftId, refs: set<Ref>) {
    && v.drafts - {id} == w.drafts - {id}
    && v.files - {id} == w.files - {id}
    && v.heads - refs == w.heads - refs
    && (forall c :: c in w.trees ==> c in v.trees && v.trees[c] == w.trees[c])
  }

  /** A draft whose branches are not touched keeps its mirror. */
  lemma OthersKeepTheirMirror(w: World, v: World, id: DraftId, refs: set<Ref>, other: DraftId)
    requires OnlyTouches(w, v, id, refs) && other != id && Tracked(w, other) && WorkingRef(w, other) !in refs
    ensures Tracked(v, other) && WorkingRef(v, other) == WorkingRef(w, other) && MirrorOf(v, other) == MirrorOf(w, other)
  {
    var ref := WorkingRef(w, other);
    assert other in w.drafts - {id} && (v.drafts - {id})[other] == w.drafts[other];
    assert ref in w.heads - refs && (v.heads - refs)[ref] == w.heads[ref];
    assert other in v.files - {id} <==> other in w.files - {id};
    assert other in w.files ==> (v.files - {id})[other] == (w.files - {id})[other];
  }

  ghost predicate OthersKeep(w: World, v: World, id: DraftId) {
    && Separate(v)
    && forall other :: other != id && Tracked(w, other) ==> Tracked(v, other) && MirrorOf(v, other) == MirrorOf(w, other)
  }

  /** One draft's work on its own branch leaves every other draft's mirror alone. */
  lemma DraftsDoNotInterfere(w: World, v: World, id: DraftId, refs: set<Ref>)
    requires Separate(w) && OnlyTouches(w, v, id, refs)
    requires forall other :: other != id && IsConnected(w, other) ==> WorkingRef(w, other) !in refs
    requires IsConnected(v, id) ==>
               Tracked(v, id) && forall other :: other != id && IsConnected(w, other) ==> WorkingRef(v, id) != WorkingRef(w, other)
    ensures OthersKeep(w, v, id)
  {
    hide OnlyTouches;
    forall other | other != id && Tracked(w, other)
      ensures Tracked(v, other) && WorkingRef(v, other) == WorkingRef(w, other) && MirrorOf(v, other) == MirrorOf(w, other)
    {
      OthersKeepTheirMirror(w, v, id, refs, other);
    }
    forall other | other != id && IsConnected(v, other)
      ensures IsConnected(w, other) && Tracked(v, other)
    {
      DraftsApartFrom(w, v, id, refs);
      assert other in v.drafts - {id} && (w.drafts - {id})[other] == v.drafts[other];
    }
  }

  lemma DraftsApartFrom(w: World, v: World, id: DraftId, refs: set<Ref>)
    requires OnlyTouches(w, v, id, refs)
    ensures w.drafts - {id} == v.drafts - {id}
  {
  }

  /** What a handler does to the mirrors: its own draft's makes at most one step,
      and every other one stays. */
  ghost predicate Serves(w: World, v: World, id: DraftId, step: Option<GitMirror.Step>) {
    Separate(w) ==>
      && OthersKeep(w, v, id)
      && (Tracked(w, id) ==>
            Tracked(v, id) && MirrorOf(v, id) == if step.Some? then Do(MirrorOf(w, id), step.value) else MirrorOf(w, id))
  }

  /** One handled request, by the draft it was for and the step it made. */
  datatype Call = Call(id: DraftId, step: Option<GitMirror.Step>)

  function StepsOf(calls: seq<Call>, id: DraftId): seq<GitMirror.Step>
    decreases |calls|
  {
    if calls == [] then []
    else
      var last := calls[|calls| - 1];
      StepsOf(calls[..|calls| - 1], id) + if last.id == id && last.step.Some? then [last.step.value] else []
  }

  lemma OtherIsKept(w: World, v: World, id: DraftId, other: DraftId)
    requires OthersKeep(w, v, id) && other != id && Tracked(w, other)
    ensures Tracked(v, other) && MirrorOf(v, other) == MirrorOf(w, other)
  {
  }

  lemma OthersKeepApart(w: World, v: World, id: DraftId)
    requires OthersKeep(w, v, id)
    ensures Separate(v)
  {
  }

  /** Whatever handlers serve, in whatever order and for however many drafts, each
      connected draft's mirror is the run of the steps its own handlers made. */
  lemma {:induction false} DraftsRunApart(worlds: seq<World>, calls: seq<Call>, id: DraftId)
    requires |worlds| == |calls| + 1 && Separate(worlds[0]) && Tracked(worlds[0], id)
    requires forall i :: 0 <= i < |calls| && Separate(worlds[i]) ==> OthersKeep(worlds[i], worlds[i + 1], calls[i].id)
    requires forall i :: 0 <= i < |calls| && calls[i].id == id ==> Serves(worlds[i], worlds[i + 1], id, calls[i].step)
    ensures var last := worlds[|calls|];
            Separate(last) && Tracked(last, id) && MirrorOf(last, id) == GitMirror.Run(MirrorOf(worlds[0], id), StepsOf(calls, id))
    decreases |calls|
  {
    hide MirrorOf, Separate, Do, Tracked;
    if calls != [] {
      var n := |calls| - 1;
      DraftsRunApart(worlds[..n + 1], calls[..n], id);
      hide OthersKeep;
      var start, before := MirrorOf(worlds[0], id), StepsOf(calls[..n], id);
      assert worlds[..n + 1][n] == worlds[n] && MirrorOf(worlds[n], id) == GitMirror.Run(start, before);
      if calls[n].id == id {
        assert Serves(worlds[n], worlds[n + 1], id, calls[n].step);
        if calls[n].step.Some? {
          RunOneMore(start, before, calls[n].step.value);
        } else {
          assert StepsOf(calls, id) == before;
        }
      } else {
        OtherIsKept(worlds[n], worlds[n + 1], calls[n].id, id);
        assert StepsOf(calls, id) == before;
      }
      OthersKeepApart(worlds[n], worlds[n + 1], calls[n].id);
    }
  }

  // Handlers.

  /** What the remote does with the requests of one handler, and whether the
      draft's tenant has connected its account. */
  datatype Link = Link(account: bool, head: Reply, commit: Reply)

  const NO_ACCOUNT := "this tenant has not connected GitHub"
  const NO_BRANCH := "branch does not exist"

  /** How a commit attempt on a live branch ends. */
  function AttemptOn(link: Link, next: Commit): Attempt {
    if !link.account then Fails(NO_ACCOUNT)
    else if link.head.Breaks? then Fails(link.head.message)
    else if link.commit.Breaks? then Fails(link.commit.message)
    else Lands(next)
  }

  /** One atomic commit on whatever the branch's head is now. */
  method CommitFiles(remote: Remote, ref: Ref, changes: Changes, link: Link) returns (r: Result<Commit>)
    requires remote.Valid() && link.account
    modifies remote
    ensures remote.Valid()
    ensures ref in old(remote.heads) ==>
              r == match AttemptOn(link, old(remote.next)) { case Lands(c) => Ok(c) case Fails(message) => Err(SyncFailed(message)) }
    ensures ref !in old(remote.heads) ==> r.Err? && r.error.SyncFailed?
    ensures r.Ok? ==> r.value == old(remote.next) && remote.heads == old(remote.heads)[ref := r.value]
    ensures r.Ok? ==> remote.trees == old(remote.trees)[r.value := Committed(old(remote.trees[remote.heads[ref]]), changes)]
    ensures r.Err? ==> remote.heads == old(remote.heads) && remote.trees == old(remote.trees)
  {
    var head := remote.GetBranchHead(ref, link.head);
    if head.Err? {
      return Err(head.error);
    }
    if head.value.None? {
      return Err(SyncFailed(NO_BRANCH));
    }
    r := remote.CommitFileChanges(ref, head.value.value, changes, link.commit);
  }

  /** The world after one commit attempt for a draft has been recorded. */
  function AfterAttempt(w: World, id: DraftId, located: Changes, attempt: Attempt): World
    requires Tracked(w, id)
  {
    var d := w.drafts[id];
    var ref := WorkingRef(w, id);
    match attempt
    case Lands(c) =>
      w.(drafts := w.drafts[id := d.(lastSynced := Some(c), syncError := None)], heads := w.heads[ref := c],
         trees := w.trees[c := Committed(w.trees[w.heads[ref]], located)])
    case Fails(message) => w.(drafts := w.drafts[id := d.(syncError := Some(message))])
  }

  function RefsOf(w: World, id: DraftId): set<Ref> {
    if IsConnected(w, id) then {WorkingRef(w, id)} else {}
  }

  lemma OwnRecordOnly(w: World, v: World, id: DraftId)
    requires v.files == w.files && v.heads == w.heads && v.trees == w.trees && v.drafts - {id} == w.drafts - {id}
    ensures OnlyTouches(w, v, id, RefsOf(w, id))
  {
  }

  lemma AttemptIsSynced(w: World, id: DraftId, changes: Changes, attempt: Attempt)
    requires Tracked(w, id) && (attempt.Lands? ==> attempt.commit !in w.trees)
    ensures var v := AfterAttempt(w, id, Located(w.drafts[id].subdirectory, changes), attempt);
            && Tracked(v, id) && WorkingRef(v, id) == WorkingRef(w, id)
            && MirrorOf(v, id) == Synced(MirrorOf(w, id), changes, attempt)
            && OnlyTouches(w, v, id, RefsOf(w, id))
  {
    hide Located, Committed;
  }

  /** Best-effort write-through after a local change: it never fails, and for a
      draft with a live branch it is exactly one sync of the draft's mirror. */
  method SyncFileChange(store: DraftStore, remote: Remote, id: DraftId, changes: Changes, link: Link) returns (draft: Draft)
    requires remote.Valid() && id in store.drafts
    modifies store`drafts, remote
    ensures remote.Valid() && id in store.drafts && draft == store.drafts[id]
    ensures var w, v := old(Here(store, remote)), Here(store, remote);
            && OnlyTouches(w, v, id, RefsOf(w, id))
            && (!IsConnected(w, id) ==> v == w)
            && (Tracked(w, id) ==>
                  && Tracked(v, id) && WorkingRef(v, id) == WorkingRef(w, id)
                  && MirrorOf(v, id) == Synced(MirrorOf(w, id), changes, AttemptOn(link, old(remote.next))))
            && (IsConnected(w, id) && !Tracked(w, id) ==>
                  draft.syncError.Some? && v == w.(drafts := w.drafts[id := w.drafts[id].(syncError := draft.syncError)]))
  {
    hide MirrorOf, Synced, Committed, PrefixChanges;
    ghost var w := Here(store, remote);
    draft := store.drafts[id];
    if draft.git.None? {
      return;
    }
    var located := if draft.subdirectory != "" then PrefixChanges(changes, draft.subdirectory) else changes;
    var committed: Result<Commit>;
    if link.account {
      committed := CommitFiles(remote, draft.git.value.working, located, link);
    } else {
      committed := Err(SyncFailed(NO_ACCOUNT));
    }
    if Tracked(w, id) {
      AttemptIsSynced(w, id, changes, AttemptOn(link, old(remote.next)));
    }
    hide OnlyTouches;
    var updated: Result<Draft>;
    if committed.Ok? {
      updated := store.SetSyncStatus(id, Some(committed.value), None);
    } else {
      updated := store.SetSyncStatus(id, None, Some(committed.error.message));
    }
    draft := updated.value;
    assert Tracked(w, id) ==> Here(store, remote) == AfterAttempt(w, id, located, AttemptOn(link, old(remote.next)));
    if !Tracked(w, id) {
      OwnRecordOnly(w, Here(store, remote), id);
    }
  }

  lemma LocalChange(w: World, id: DraftId, files: Tree)
    ensures var v := w.(files := w.files[id := files]);
            && OnlyTouches(w, v, id, {})
            && IsConnected(v, id) == IsConnected(w, id) && Tracked(v, id) == Tracked(w, id) && RefsOf(v, id) == RefsOf(w, id)
            && (Tracked(w, id) ==>
                  && WorkingRef(v, id) == WorkingRef(w, id)
                  && MirrorOf(w, id).files == FilesOf(w.files, id)
                  && MirrorOf(v, id) == MirrorOf(w, id).(files := files))
  {
  }

  lemma TouchesCompose(w: World, u: World, v: World, id: DraftId, refs: set<Ref>)
    requires OnlyTouches(w, u, id, {}) && OnlyTouches(u, v, id, refs)
    ensures OnlyTouches(w, v, id, refs)
  {
    assert u.heads == w.heads by {
      assert u.heads - {} == u.heads && w.heads - {} == w.heads;
    }
  }

  /** Work on one's own branch, for a draft that keeps its connection. */
  lemma OwnBranchOnly(w: World, v: World, id: DraftId)
    requires Separate(w) && OnlyTouches(w, v, id, RefsOf(w, id))
    requires IsConnected(v, id) ==> Tracked(v, id) && Tracked(w, id) && WorkingRef(v, id) == WorkingRef(w, id)
    ensures OthersKeep(w, v, id)
  {
    DraftsDoNotInterfere(w, v, id, RefsOf(w, id));
  }

  /** Saving a file is one `Save` step of the draft's mirror; every other draft's
      files, branch and status stay as they were. */
  method PutDraftFile(store: DraftStore, remote: Remote, id: DraftId, p: Path, content: Content, sync: bool, link: Link)
    returns (r: Result<Draft>)
    requires remote.Valid()
    modifies store, remote
    ensures remote.Valid()
    ensures r.Ok? <==> id in old(store.drafts) && PathAllowed(p)
    ensures var w, v := old(Here(store, remote)), Here(store, remote);
            && (r.Err? ==> v == w)
            && (r.Ok? ==> v.files == w.files[id := FilesOf(w.files, id)[p := content]])
            && (r.Ok? && Tracked(w, id) ==>
                  && Tracked(v, id)
                  && MirrorOf(v, id) == Do(MirrorOf(w, id), Save(p, content, sync, AttemptOn(link, old(remote.next)))))
            && (Separate(w) ==> OthersKeep(w, v, id))
            && Serves(w, v, id, if r.Ok? then Some(Save(p, content, sync, AttemptOn(link, old(remote.next)))) else None)
  {
    hide OnlyTouches, MirrorOf, Committed, Located, Separate;
    ghost var w := Here(store, remote);
    if id !in store.drafts {
      UntouchedWorld(w, id);
      return Err(DraftNotFound);
    }
    var ok := store.WriteFile(id, p, content);
    if !ok {
      UntouchedWorld(w, id);
      return Err(InvalidFilePath);
    }
    LocalChange(w, id, FilesOf(w.files, id)[p := content]);
    ghost var u := Here(store, remote);
    assert Separate(w) && IsConnected(w, id) ==> Tracked(w, id) by {
      if Separate(w) && IsConnected(w, id) { ConnectedIsTracked(w, id); }
    }
    if sync {
      var draft := SyncFileChange(store, remote, id, map[p := Some(content)], link);
      r := Ok(draft);
    } else {
      UntouchedWorld(u, id);
      r := Ok(store.drafts[id]);
    }
    TouchesCompose(w, u, Here(store, remote), id, RefsOf(w, id));
    if Separate(w) {
      OwnBranchOnly(w, Here(store, remote), id);
    }
  }

  lemma UntouchedWorld(w: World, id: DraftId)
    ensures OnlyTouches(w, w, id, RefsOf(w, id))
    ensures Separate(w) ==> OthersKeep(w, w, id)
  {
  }

  lemma ConnectedIsTracked(w: World, id: DraftId)
    requires Separate(w) && IsConnected(w, id)
    ensures Tracked(w, id)
  {
  }

  /** Deleting a file is one `Delete` step, and is always pushed to the branch. */
  method DeleteDraftFile(store: DraftStore, remote: Remote, id: DraftId, p: Path, link: Link) returns (r: Result<Draft>)
    requires remote.Valid()
    modifies store, remote
    ensures remote.Valid()
    ensures r.Ok? <==> id in old(store.drafts) && PathAllowed(p)
    ensures var w, v := old(Here(store, remote)), Here(store, remote);
            && (r.Err? ==> v == w)
            && (r.Ok? ==> v.files == w.files[id := FilesOf(w.files, id) - {p}])
            && (r.Ok? && Tracked(w, id) ==>
                  && Tracked(v, id)
                  && MirrorOf(v, id) == Do(MirrorOf(w, id), GitMirror.Step.Delete(p, AttemptOn(link, old(remote.next)))))
            && (Separate(w) ==> OthersKeep(w, v, id))
            && Serves(w, v, id, if r.Ok? then Some(GitMirror.Step.Delete(p, AttemptOn(link, old(remote.next)))) else None)
  {
    hide OnlyTouches, MirrorOf, Committed, Located, Separate;
    ghost var w := Here(store, remote);
    if id !in store.drafts {
      UntouchedWorld(w, id);
      return Err(DraftNotFound);
    }
    var ok := store.DeleteFile(id, p);
    if !ok {
      UntouchedWorld(w, id);
      return Err(InvalidFilePath);
    }
    LocalChange(w, id, FilesOf(w.files, id) - {p});
    ghost var u := Here(store, remote);
    assert Separate(w) && IsConnected(w, id) ==> Tracked(w, id) by {
      if Separate(w) && IsConnected(w, id) { ConnectedIsTracked(w, id); }
    }
    var draft := SyncFileChange(store, remote, id, map[p := None], link);
    r := Ok(draft);
    TouchesCompose(w, u, Here(store, remote), id, RefsOf(w, id));
    if Separate(w) {
      OwnBranchOnly(w, Here(store, remote), id);
    }
  }

  const MANIFEST := "manifest.yaml"

  /** The folder for a set of draft files; `idOf` reads a manifest's own id. */
  function FolderFor(files: Tree, id: DraftId, idOf: Content -> Option<string>): string {
    SkillDirectory.Directory(if MANIFEST in files then idOf(files[MANIFEST]) else None, Suffix(id))
  }

  /** The folder for a draft as it is. */
  function FolderOf(w: World, id: DraftId, idOf: Content -> Option<string>): string {
    FolderFor(Listed(FilesOf(w.files, id)), id, idOf)
  }

  /** What the folder of a draft is: for a listed manifest with a valid id within the
      caps, that id with slashes for dots; without a usable id, the draft's own id with
      its `draft_` taken off. */
  ghost predicate IsFolderOf(files: Tree, id: DraftId, idOf: Content -> Option<string>, directory: string) {
    var skill := if "manifest.yaml" in files then idOf(files["manifest.yaml"]) else None;
    && (forall segments :: skill.Some? && SkillDirectory.MatchesIdPattern(skill.value, segments) && SkillDirectory.WithinCaps(segments) ==>
          directory == Join(segments, '/'))
    && (skill.None? || SkillDirectory.Unusable(skill.value) ==>
          forall own :: id == "draft_" + own ==> directory == own)
  }

  lemma FolderIsNamed(files: Tree, id: DraftId, idOf: Content -> Option<string>)
    ensures IsFolderOf(files, id, idOf, FolderFor(Listed(files), id, idOf))
  {
    hide SkillDirectory.Directory, SkillDirectory.Unusable, SkillDirectory.MatchesIdPattern, SkillDirectory.WithinCaps;
    var skill := if "manifest.yaml" in files then idOf(files["manifest.yaml"]) else None;
    ManifestIsListed(files);
    assert FolderFor(Listed(files), id, idOf) == SkillDirectory.Directory(skill, Suffix(id));
    forall segments | skill.Some? && SkillDirectory.MatchesIdPattern(skill.value, segments) && SkillDirectory.WithinCaps(segments)
      ensures SkillDirectory.Directory(skill, Suffix(id)) == Join(segments, '/')
    {
      SkillDirectory.ValidIdOnlyTurnsDots(skill.value, segments, Suffix(id));
    }
    SkillDirectory.FallbackIff(skill);
    forall own | id == "draft_" + own
      ensures Suffix(id) == own
    {
    }
  }

  lemma ManifestIsListed(files: Tree)
    ensures "manifest.yaml" in Listed(files) <==> "manifest.yaml" in files
    ensures "manifest.yaml" in files ==> Listed(files)["manifest.yaml"] == files["manifest.yaml"]
  {
    var p := "manifest.yaml";
    assert p[|p| - |META| - 1] != '/';
    assert p[|p| - |META| - 1..][0] == p[|p| - |META| - 1];
  }

  lemma FolderIsNotEmpty(files: Tree, id: DraftId, idOf: Content -> Option<string>)
    ensures FolderFor(files, id, idOf) != ""
  {
    SkillDirectory.DirectoryIsSafe(if MANIFEST in files then idOf(files[MANIFEST]) else None, Suffix(id));
  }

  /** The world after a move into a folder has landed as one commit. */
  function AfterMove(w: World, id: DraftId, folder: string, landed: Commit): World
    requires Tracked(w, id)
  {
    var d := w.drafts[id].(subdirectory := folder);
    var ref := WorkingRef(w, id);
    w.(drafts := w.drafts[id := d][id := d.(lastSynced := Some(landed), syncError := None)],
       heads := w.heads[ref := landed],
       trees := w.trees[landed := Committed(w.trees[w.heads[ref]], MoveChanges(Listed(FilesOf(w.files, id)), folder))])
  }

  lemma MoveIsMirrorStep(w: World, id: DraftId, folder: Folder, landed: Commit)
    requires Tracked(w, id) && w.drafts[id].subdirectory == "" && landed !in w.trees
    ensures var v := AfterMove(w, id, folder, landed);
            && Tracked(v, id) && WorkingRef(v, id) == WorkingRef(w, id)
            && MirrorOf(v, id) == Do(MirrorOf(w, id), MoveToDirectory(folder, Lands(landed)))
            && OnlyTouches(w, v, id, RefsOf(w, id))
  {
    hide Committed, MoveChanges;
  }

  /** A landed move, seen from its own draft and from all others. */
  lemma MoveServes(w: World, id: DraftId, folder: Folder, landed: Commit)
    requires Tracked(w, id) && w.drafts[id].subdirectory == "" && landed !in w.trees
    ensures var v := AfterMove(w, id, folder, landed);
            && Tracked(v, id)
            && MirrorOf(v, id) == Do(MirrorOf(w, id), MoveToDirectory(folder, Lands(landed)))
            && (Separate(w) ==> OthersKeep(w, v, id))
  {
    hide MirrorOf, AfterMove, OnlyTouches, Separate, OthersKeep;
    MoveIsMirrorStep(w, id, folder, landed);
    if Separate(w) {
      OwnBranchOnly(w, AfterMove(w, id, folder, landed), id);
    }
  }

  /** The commit of a move, recorded only once it has landed. */
  method LandMove(store: DraftStore, remote: Remote, id: DraftId, folder: Folder, link: Link) returns (r: Result<Draft>)
    requires remote.Valid() && link.account
    requires id in store.drafts && store.drafts[id].git.Some? && store.drafts[id].subdirectory == ""
    modifies store`drafts, remote
    ensures remote.Valid()
    ensures var w, v := old(Here(store, remote)), Here(store, remote);
            && (r.Err? ==> v == w)
            && (r.Ok? ==> Tracked(w, id))
            && (Tracked(w, id) ==>
                  && (r.Ok? <==> AttemptOn(link, old(remote.next)).Lands?)
                  && Tracked(v, id)
                  && MirrorOf(v, id) == Do(MirrorOf(w, id), MoveToDirectory(folder, AttemptOn(link, old(remote.next)))))
            && (Separate(w) ==> OthersKeep(w, v, id))
  {
    hide OnlyTouches, MirrorOf, Committed, MoveChanges, Separate, OthersKeep, Listed, FilesOf;
    ghost var w := Here(store, remote);
    UntouchedWorld(w, id);
    var landed := CommitFiles(remote, store.drafts[id].git.value.working, MoveChanges(Listed(FilesOf(store.files, id)), folder), link);
    if landed.Err? {
      return Err(landed.error);
    }
    MoveServes(w, id, folder, landed.value);
    var _ := store.SetGitSubdirectory(id, folder);
    r := store.SetSyncStatus(id, Some(landed.value), None);
    assert Here(store, remote) == AfterMove(w, id, folder, landed.value);
  }

  /** One-time migration of a flat draft into its own folder: a failure raises and
      leaves draft and branch alone, a success is the mirror's single move step. */
  method MoveDraftToGitDirectory(store: DraftStore, remote: Remote, id: DraftId, idOf: Content -> Option<string>, link: Link)
    returns (r: Result<Draft>)
    requires remote.Valid()
    modifies store`drafts, remote
    ensures remote.Valid()
    ensures var w, v := old(Here(store, remote)), Here(store, remote);
            && (id !in w.drafts ==> r == Err(DraftNotFound))
            && (id in w.drafts && !IsConnected(w, id) ==> r == Err(NotConnected))
            && (IsConnected(w, id) && w.drafts[id].subdirectory != "" ==> r == Err(AlreadyHasDirectory))
            && (r.Err? ==> v == w)
            && (r.Ok? ==> Tracked(w, id))
            && (Tracked(w, id) && w.drafts[id].subdirectory == "" ==>
                  && Tracked(v, id)
                  && (r.Ok? <==> AttemptOn(link, old(remote.next)).Lands?)
                  && FolderOf(w, id, idOf) != ""
                  && MirrorOf(v, id) == Do(MirrorOf(w, id), MoveToDirectory(FolderOf(w, id, idOf), AttemptOn(link, old(remote.next)))))
            && (Separate(w) ==> OthersKeep(w, v, id))
            && (r.Ok? ==> FolderOf(w, id, idOf) != "")
            && (r.Ok? ==> Tracked(v, id) && IsFolderOf(FilesOf(w.files, id), id, idOf, MirrorOf(v, id).directory))
            && Serves(w, v, id, if r.Ok? then Some(MoveToDirectory(FolderOf(w, id, idOf), AttemptOn(link, old(remote.next)))) else None)
  {
    hide OnlyTouches, MirrorOf, Separate, FolderFor, OthersKeep, Listed, FilesOf, IsFolderOf;
    ghost var w := Here(store, remote);
    UntouchedWorld(w, id);
    if id !in store.drafts {
      return Err(DraftNotFound);
    }
    var draft := store.drafts[id];
    if draft.git.None? {
      return Err(NotConnected);
    }
    if draft.subdirectory != "" {
      return Err(AlreadyHasDirectory);
    }
    var files := Listed(FilesOf(store.files, id));
    var folder := FolderFor(files, id, idOf);
    FolderIsNotEmpty(files, id, idOf);
    FolderIsNamed(FilesOf(w.files, id), id, idOf);
    if Tracked(w, id) {
      MirrorIsIn(w, id);
    }
    if !link.account {
      NoAccountNoMove(w, id, folder, link, remote.next);
      return Err(SyncFailed(NO_ACCOUNT));
    }
    r := LandMove(store, remote, id, folder, link);
  }

  lemma NoAccountNoMove(w: World, id: DraftId, folder: Folder, link: Link, next: Commit)
    requires Tracked(w, id) ==> !link.account
    ensures Tracked(w, id) ==> Do(MirrorOf(w, id), MoveToDirectory(folder, AttemptOn(link, next))) == MirrorOf(w, id)
  {
  }

  // Connecting.

  /** What the remote does with the requests that connect a draft. */
  datatype ConnectLink = ConnectLink(refusal: Option<string>, target: Reply, bootstrap: Reply, create: Reply, head: Reply, commit: Reply)

  datatype ConnectRequest = ConnectRequest(git: GitConnection, confirmEmpty: bool)

  /** Whether the seed becomes the first commit of an empty repository. */
  predicate Bootstraps(heads: map<Ref, Commit>, request: ConnectRequest, seed: Changes, link: ConnectLink) {
    && request.git.target !in heads && link.target.Reaches? && request.confirmEmpty
    && link.bootstrap.Reaches? && seed != map[]
  }

  /** Whether the working branch gets cut: its name is free, the requests go
      through, and there is, or now is, something to branch off. */
  predicate CutsBranch(heads: map<Ref, Commit>, request: ConnectRequest, seed: Changes, link: ConnectLink) {
    && link.target.Reaches? && link.create.Reaches?
    && request.git.working !in heads
    && (request.git.target in heads || (Bootstraps(heads, request, seed, link) && request.git.working != request.git.target))
  }

  /** Cuts the working branch; on an empty repository the seed becomes its first
      commit, and only when that was confirmed. */
  method CreateWorkingBranch(remote: Remote, request: ConnectRequest, seed: Changes, link: ConnectLink) returns (r: Result<(Commit, bool)>)
    requires remote.Valid()
    modifies remote
    ensures remote.Valid()
    ensures r.Ok? <==> CutsBranch(old(remote.heads), request, seed, link)
    ensures var target, working, heads, trees := request.git.target, request.git.working, old(remote.heads), old(remote.trees);
            && (target in heads ==>
                  && remote.trees == trees
                  && (r.Ok? ==> r.value == (heads[target], false))
                  && remote.heads == if r.Ok? then heads[working := heads[target]] else heads)
            && (target !in heads ==>
                  && (r.Ok? ==> r.value == (old(remote.next), true))
                  && remote.trees == (if Bootstraps(heads, request, seed, link) then trees[old(remote.next) := Committed(map[], seed)] else trees)
                  && remote.heads == (if !Bootstraps(heads, request, seed, link) then heads
                                      else if r.Ok? then heads[target := old(remote.next)][working := old(remote.next)]
                                      else heads[target := old(remote.next)])
                  && (!request.confirmEmpty && link.target.Reaches? ==> r == Err(EmptyRepo)))
  {
    var base := remote.GetBranchHead(request.git.target, link.target);
    if base.Err? {
      return Err(base.error);
    }
    if base.value.None? {
      if !request.confirmEmpty {
        return Err(EmptyRepo);
      }
      var first := remote.BootstrapEmptyRepo(request.git.target, seed, link.bootstrap);
      if first.Err? {
        return Err(first.error);
      }
      var cut := remote.CreateBranch(request.git.working, first.value, link.create);
      if cut.Err? {
        return Err(cut.error);
      }
      return Ok((first.value, true));
    }
    var cut := remote.CreateBranch(request.git.working, base.value.value, link.create);
    if cut.Err? {
      return Err(cut.error);
    }
    r := Ok((base.value.value, false));
  }

  /** What the target branch holds before connecting; nothing in an empty repository. */
  ghost function BaseTree(w: World, target: Ref): Tree
    requires target in w.heads ==> w.heads[target] in w.trees
  {
    if target in w.heads then w.trees[w.heads[target]] else map[]
  }

  /** The seed of a connect: every listed file, in the draft's folder. */
  function SeedChanges(w: World, id: DraftId, idOf: Content -> Option<string>): Changes {
    PrefixChanges(AllSet(Listed(FilesOf(w.files, id))), FolderOf(w, id, idOf))
  }

  /** Whether the seed lands on a new working branch. */
  predicate Seeds(heads: map<Ref, Commit>, request: ConnectRequest, seed: Changes, link: ConnectLink) {
    CutsBranch(heads, request, seed, link) && (request.git.target in heads ==> link.head.Reaches? && link.commit.Reaches?)
  }

  /** The branches when the seed does not land: a working branch that had been cut
      from an existing target stays, and so does the first commit of an empty repository. */
  function LeftBehind(heads: map<Ref, Commit>, request: ConnectRequest, seed: Changes, link: ConnectLink, next: Commit): map<Ref, Commit> {
    var target, working := request.git.target, request.git.working;
    if target in heads then
      if CutsBranch(heads, request, seed, link) then heads[working := heads[target]] else heads
    else if Bootstraps(heads, request, seed, link) then heads[target := next]
    else heads
  }

  /** The branches when the seed lands as `seeded`. */
  function SeededHeads(heads: map<Ref, Commit>, git: GitConnection, seeded: Commit): map<Ref, Commit> {
    (if git.target in heads then heads else heads[git.target := seeded])[git.working := seeded]
  }

  /** Cuts the working branch and commits the seed on it, unless the seed already
      is the first commit of an empty repository. */
  method SeedBranch(remote: Remote, request: ConnectRequest, seed: Changes, link: ConnectLink) returns (r: Result<Commit>)
    requires remote.Valid()
    modifies remote
    ensures remote.Valid()
    ensures r.Ok? <==> Seeds(old(remote.heads), request, seed, link)
    ensures var heads, trees, git := old(remote.heads), old(remote.trees), request.git;
            && (r.Ok? ==>
                  && r.value !in trees && git.working !in heads && git.working != git.target
                  && remote.heads == SeededHeads(heads, git, r.value)
                  && remote.trees == trees[r.value := Committed(if git.target in heads then trees[heads[git.target]] else map[], seed)])
            && (r.Err? ==>
                  && remote.heads == LeftBehind(heads, request, seed, link, old(remote.next))
                  && forall c :: c in trees ==> c in remote.trees && remote.trees[c] == trees[c])
  {
    hide Committed;
    var cut := CreateWorkingBranch(remote, request, seed, link);
    if cut.Err? {
      return Err(cut.error);
    }
    if cut.value.1 {
      return Ok(cut.value.0);
    }
    r := CommitFiles(remote, request.git.working, seed, Link(true, link.head, link.commit));
  }

  /** A failed connect that leaves its working branch: the seed commit breaks after the cut. */
  lemma BrokenSeedLeavesBranch(heads: map<Ref, Commit>, request: ConnectRequest, seed: Changes, message: string, next: Commit)
    requires request.git.target in heads && request.git.working !in heads
    ensures var link := ConnectLink(None, Reaches, Reaches, Reaches, Reaches, Breaks(message));
            && !Seeds(heads, request, seed, link)
            && request.git.working in LeftBehind(heads, request, seed, link, next)
  {
  }

  /** There is a seed exactly when the draft lists a file. */
  lemma SeedIsEmptyIff(w: World, id: DraftId, idOf: Content -> Option<string>)
    ensures SeedChanges(w, id, idOf) == map[] <==> Listed(FilesOf(w.files, id)) == map[]
  {
    var files := Listed(FilesOf(w.files, id));
    hide FolderOf, Listed;
    PrefixIsEmptyIff(AllSet(files), FolderOf(w, id, idOf));
    assert AllSet(files).Keys == files.Keys;
  }

  /** The world after a draft has been connected, its seed landing as `seed`. */
  function AfterConnect(w: World, id: DraftId, git: GitConnection, folder: Folder, seed: Commit): World
    requires id in w.drafts && (git.target in w.heads ==> w.heads[git.target] in w.trees)
  {
    var changes := PrefixChanges(AllSet(Listed(FilesOf(w.files, id))), folder);
    w.(drafts := w.drafts[id := Draft(w.drafts[id].tenant, Some(git), Some(seed), None, folder)],
       heads := SeededHeads(w.heads, git, seed),
       trees := w.trees[seed := Committed(if git.target in w.heads then w.trees[w.heads[git.target]] else map[], changes)])
  }

  lemma ConnectIsSeeded(w: World, id: DraftId, git: GitConnection, folder: Folder, seed: Commit)
    requires id in w.drafts && (git.target in w.heads ==> w.heads[git.target] in w.trees) && seed !in w.trees
    requires git.working !in w.heads && git.working != git.target
    ensures var v := AfterConnect(w, id, git, folder, seed);
            && Tracked(v, id) && WorkingRef(v, id) == git.working && v.heads[git.working] == seed
            && MirrorOf(v, id) == Connected(FilesOf(w.files, id), BaseTree(w, git.target), folder, seed)
            && OnlyTouches(w, v, id, NewRefs(w, git))
  {
    hide Committed, PrefixChanges, Listed;
  }

  function NewRefs(w: World, git: GitConnection): set<Ref> {
    {git.target, git.working} - w.heads.Keys
  }

  /** A draft that is not connected, working only on branches that did not exist. */
  lemma NewBranchesOnly(w: World, v: World, id: DraftId, git: GitConnection)
    requires Separate(w) && OnlyTouches(w, v, id, NewRefs(w, git))
    requires IsConnected(v, id) ==> Tracked(v, id) && WorkingRef(v, id) !in w.heads
    ensures OthersKeep(w, v, id)
  {
    DraftsDoNotInterfere(w, v, id, NewRefs(w, git));
  }

  lemma RolledBack(w: World, v: World, id: DraftId, git: GitConnection)
    requires v.drafts == w.drafts - {id} && v.files == w.files - {id}
    requires v.heads - NewRefs(w, git) == w.heads - NewRefs(w, git)
    requires forall c :: c in w.trees ==> c in v.trees && v.trees[c] == w.trees[c]
    ensures OnlyTouches(w, v, id, NewRefs(w, git)) && !IsConnected(v, id)
  {
  }

  /** Connects a fresh draft. Success is exactly the mirror of a seed commit on a
      branch nobody had; failure deletes the draft and moves no existing branch,
      but a branch that had been cut before a later request broke stays behind. */
  method ConnectDraftToGit(store: DraftStore, remote: Remote, id: DraftId, request: ConnectRequest,
                           idOf: Content -> Option<string>, link: ConnectLink)
    returns (r: Result<Draft>)
    requires remote.Valid() && id in store.drafts && store.drafts[id].git.None?
    modifies store, remote
    ensures remote.Valid()
    ensures var w, v, git := old(Here(store, remote)), Here(store, remote), request.git;
            && (r.Err? ==> v.drafts == w.drafts - {id} && v.files == w.files - {id})
            && (r.Ok? <==> link.refusal.None? && Seeds(w.heads, request, SeedChanges(w, id, idOf), link))
            && (r.Err? ==> v.heads == if link.refusal.Some? then w.heads
                                      else LeftBehind(w.heads, request, SeedChanges(w, id, idOf), link, old(remote.next)))
            && (r.Ok? ==>
                  && git.working !in w.heads && git.working != git.target
                  && FolderOf(w, id, idOf) != ""
                  && Tracked(v, id) && WorkingRef(v, id) == git.working
                  && MirrorOf(v, id) == Connected(FilesOf(w.files, id), BaseTree(w, git.target), FolderOf(w, id, idOf), v.heads[git.working])
                  && IsFolderOf(FilesOf(w.files, id), id, idOf, MirrorOf(v, id).directory))
            && OnlyTouches(w, v, id, NewRefs(w, git))
            && (Separate(w) ==> OthersKeep(w, v, id))
            && Serves(w, v, id, None)
  {
    hide OnlyTouches, MirrorOf, Committed, PrefixChanges, Separate, FolderFor, OthersKeep, Listed, FilesOf, BaseTree,
         IsFolderOf, AllSet, Suffix, Seeds, LeftBehind, SeededHeads;
    ghost var w := Here(store, remote);
    var git := request.git;
    var folder: string := "";
    if link.refusal.Some? {
      r := Err(Refused(link.refusal.value));
    } else {
      var files := Listed(FilesOf(store.files, id));
      folder := FolderFor(files, id, idOf);
      FolderIsNotEmpty(files, id, idOf);
      FolderIsNamed(FilesOf(w.files, id), id, idOf);
      var seeded := SeedBranch(remote, request, PrefixChanges(AllSet(files), folder), link);
      if seeded.Ok? {
        r := store.SetGitConnection(id, git, seeded.value, folder);
        assert Here(store, remote) == AfterConnect(w, id, git, folder, seeded.value);
        ConnectIsSeeded(w, id, git, folder, seeded.value);
      } else {
        r := Err(seeded.error);
      }
    }
    ghost var v: World;
    if r.Err? {
      store.Delete(id);
      v := Here(store, remote);
      LeftBehindIsNew(w, request, SeedChanges(w, id, idOf), link, old(remote.next));
      RolledBack(w, v, id, git);
    } else {
      v := Here(store, remote);
    }
    if Separate(w) {
      NewBranchesOnly(w, v, id, git);
    }
  }

  lemma LeftBehindIsNew(w: World, request: ConnectRequest, seed: Changes, link: ConnectLink, next: Commit)
    ensures LeftBehind(w.heads, request, seed, link, next) - NewRefs(w, request.git) == w.heads - NewRefs(w, request.git)
  {
  }

  // Merging at publish time.

  const POLL_ATTEMPTS := 5

  datatype MergeOutcome = Merged | Conflict | Unreachable(message: string)

  /** What the remote answers to the merge request itself. */
  datatype MergeReply = Accepts | Conflicts | Drops(message: string)

  /** One answer on whether the pull request can be merged, if there is one. */
  datatype Poll = Mergeable | Unmergeable | Unknown | NoAnswer(message: string)

  /** `poll(n)` is the `n`th answer; staying unknown does not stop the merge, but a
      poll that raises does. */
  method MergePublishPr(poll: nat -> Poll, reply: MergeReply) returns (polls: nat, outcome: MergeOutcome)
    ensures 1 <= polls <= 5
    ensures forall n :: 1 <= n < polls ==> poll(n).Unknown?
    ensures polls < 5 ==> !poll(polls).Unknown?
    ensures outcome == if poll(polls).NoAnswer? then Unreachable(poll(polls).message)
                       else if poll(polls).Unmergeable? then Conflict
                       else match reply { case Accepts => Merged case Conflicts => Conflict case Drops(message) => Unreachable(message) }
  {
    var answer := poll(1);
    polls := 1;
    while answer.Unknown? && polls < POLL_ATTEMPTS
      invariant 1 <= polls <= POLL_ATTEMPTS && answer == poll(polls)
      invariant forall n :: 1 <= n < polls ==> poll(n).Unknown?
      decreases POLL_ATTEMPTS - polls
    {
      polls := polls + 1;
      answer := poll(polls);
    }
    if answer.NoAnswer? {
      return polls, Unreachable(answer.message);
    }
    if answer.Unmergeable? {
      return polls, Conflict;
    }
    outcome := match reply { case Accepts => Merged case Conflicts => Conflict case Drops(message) => Unreachable(message) };
  }
}
