/** Publishing a package: checks first, then blob, tag, event and audit in that
    order, both as one call and as interleaved steps of many publishers. */
module Publishing {
  import opened Registry
  import opened ObjectStore
  import Gate = DependencyGate
  import Graphs = DependencyGraph

  /** The digest, and the trust policies' verdict on a signature of a digest. */
  datatype Crypto = Crypto(
    digest: Bytes -> string,
    verifies: (SignatureKind, string, string) -> bool)

  /** A validated package; `draft` still lacks digest and signature. Exactly one
      of a signing key and an external signature should be given. */
  datatype Submission = Submission(
    actor: string,
    draft: Record,
    archive: Bytes,
    signingKey: Option<string -> string>,
    externalSignature: Option<string>,
    dependencies: seq<string>)

  datatype AuditEvent = AuditEvent(actor: string, key: Key, digest: string)

  datatype PublishError =
    | ValidationFailed
    | GuardrailViolation
    | DependencyRejected(cause: Gate.GateError)
    | NotExactlyOneSignature
    | CorruptPayload
    | InvalidSignature
    | DuplicatePublish

  /** The verdict of structural validation and the guardrail scan. */
  datatype Screening = Clear | Malformed | Blocked

  datatype Result = Published(record: Record) | Refused(error: PublishError)

  /** Everything a publish writes to. */
  datatype Shelf = Shelf(
    blobs: map<string, Bytes>,
    tags: map<Key, Record>,
    events: seq<Key>,
    audit: seq<AuditEvent>)

  predicate SignsOnce(sub: Submission) {
    sub.signingKey.None? != sub.externalSignature.None?
  }

  /** The record to store: the draft with its digest and signature filled in. */
  function Sealed(crypto: Crypto, sub: Submission): Record
    requires SignsOnce(sub)
  {
    var digest := crypto.digest(sub.archive);
    if sub.externalSignature.Some? then
      sub.draft.(digest := digest, signature := sub.externalSignature.value, signatureKind := Sigstore)
    else sub.draft.(digest := digest, signature := sub.signingKey.value(digest), signatureKind := DevRsa)
  }

  /** Recomputes the digest and checks the signature for its kind. */
  function VerifyArtifact(crypto: Crypto, archive: Bytes, r: Record): Option<PublishError> {
    if crypto.digest(archive) != r.digest then Some(CorruptPayload)
    else if !crypto.verifies(r.signatureKind, r.digest, r.signature) then Some(InvalidSignature)
    else None
  }

  /** The first check that a submission fails, in the order they are made. */
  ghost predicate RefusedBy(crypto: Crypto, sub: Submission, screening: Screening, graph: Option<Graphs.Graph>,
                            published: bool, error: PublishError)
  {
    var gateOpen := graph.Some? ==> Gate.Admits(graph.value, sub.draft.id, sub.dependencies);
    match error
    case ValidationFailed => screening == Malformed
    case GuardrailViolation => screening == Blocked
    case DependencyRejected(cause) =>
      screening == Clear && !gateOpen && graph.Some? && Gate.Explains(graph.value, sub.draft.id, sub.dependencies, cause)
    case NotExactlyOneSignature => screening == Clear && gateOpen && !SignsOnce(sub)
    case DuplicatePublish =>
      screening == Clear && gateOpen && SignsOnce(sub) && VerifyArtifact(crypto, sub.archive, Sealed(crypto, sub)) == None && published
    case _ => screening == Clear && gateOpen && SignsOnce(sub) && VerifyArtifact(crypto, sub.archive, Sealed(crypto, sub)) == Some(error)
  }

  function WithBlob(s: Shelf, digest: string, archive: Bytes): Shelf {
    if digest in s.blobs then s else s.(blobs := s.blobs[digest := archive])
  }

  function WithTag(s: Shelf, r: Record): Shelf {
    s.(tags := s.tags[r.Coordinates() := r])
  }

  function WithEvent(s: Shelf, r: Record): Shelf {
    s.(events := s.events + [r.Coordinates()])
  }

  function WithAudit(s: Shelf, actor: string, r: Record): Shelf {
    s.(audit := s.audit + [AuditEvent(actor, r.Coordinates(), r.digest)])
  }

  class EventBus {
    var pending: seq<Key>
    constructor ()
      ensures pending == []
    {
      pending := [];
    }
  }

  class AuditSink {
    var events: seq<AuditEvent>
    constructor ()
      ensures events == []
    {
      events := [];
    }
  }

  /** One publish without interference; `graph` switches the dependency gate on. */
  method PublishSkill(crypto: Crypto, sub: Submission, screening: Screening,
                      graph: Option<Graphs.Graph>, graphKeys: seq<string>,
                      store: LocalFilesystemStore, bus: EventBus, sink: AuditSink) returns (r: Result)
    requires store.Valid()
    requires graph.Some? ==> forall x :: x in graphKeys <==> x in graph.value
    modifies store`blobs, store`tags, bus, sink
    ensures store.Valid()
    // What decides the outcome.
    ensures r.Published? <==>
              && screening == Clear
              && (graph.Some? ==> Gate.Admits(graph.value, sub.draft.id, sub.dependencies))
              && SignsOnce(sub)
              && VerifyArtifact(crypto, sub.archive, Sealed(crypto, sub)) == None
              && sub.draft.Coordinates() !in old(store.tags)
    ensures r.Refused? ==> RefusedBy(crypto, sub, screening, graph, sub.draft.Coordinates() in old(store.tags), r.error)
    // A success writes blob, tag, event and audit for one and the same digest.
    ensures var before := Shelf(old(store.blobs), old(store.tags), old(bus.pending), old(sink.events));
            var after := Shelf(store.blobs, store.tags, bus.pending, sink.events);
            match r
            case Published(record) =>
              && SignsOnce(sub) && record == Sealed(crypto, sub)
              && after == WithAudit(WithEvent(WithTag(WithBlob(before, record.digest, sub.archive), record), record), sub.actor, record)
            // A refusal leaves tags, events and audit alone; only a duplicate may leave a blob behind.
            case Refused(DuplicatePublish) =>
              SignsOnce(sub) && after == WithBlob(before, crypto.digest(sub.archive), sub.archive)
            case Refused(_) => after == before
    // On the submission itself: which signatures are accepted, and what is stored.
    ensures screening == Clear && (graph.Some? ==> Gate.Admits(graph.value, sub.draft.id, sub.dependencies))
            && sub.draft.Coordinates() !in old(store.tags) ==>
              (r.Published? <==>
                 || (sub.signingKey.None? && sub.externalSignature.Some?
                     && crypto.verifies(Sigstore, crypto.digest(sub.archive), sub.externalSignature.value))
                 || (sub.signingKey.Some? && sub.externalSignature.None?
                     && crypto.verifies(DevRsa, crypto.digest(sub.archive), sub.signingKey.value(crypto.digest(sub.archive)))))
    ensures r.Published? ==>
              && r.record.digest == crypto.digest(sub.archive)
              && (r.record.signatureKind == Sigstore <==> sub.externalSignature.Some?)
              && (sub.externalSignature.Some? ==> r.record.signature == sub.externalSignature.value)
              && (sub.signingKey.Some? ==> r.record.signature == sub.signingKey.value(crypto.digest(sub.archive)))
              && r.record == sub.draft.(digest := r.record.digest, signature := r.record.signature, signatureKind := r.record.signatureKind)
              && r.record.Coordinates() in store.tags && store.tags[r.record.Coordinates()] == r.record
              && r.record.digest in store.blobs
              && (r.record.digest !in old(store.blobs) ==> store.blobs[r.record.digest] == sub.archive)
              && store.tags == old(store.tags)[sub.draft.Coordinates() := r.record]
              && bus.pending == old(bus.pending) + [Key(sub.draft.id, sub.draft.version)]
              && sink.events == old(sink.events) + [AuditEvent(sub.actor, Key(sub.draft.id, sub.draft.version), crypto.digest(sub.archive))]
    // Past the checks it is the one outcome that the steps below refine.
    ensures screening == Clear && (graph.Some? ==> Gate.Admits(graph.value, sub.draft.id, sub.dependencies)) ==>
              Outcome(crypto, Shelf(old(store.blobs), old(store.tags), old(bus.pending), old(sink.events)), sub)
              == (Shelf(store.blobs, store.tags, bus.pending, sink.events), if r.Published? then Done(r.record) else Failed)
  {
    if screening != Clear {
      return Refused(if screening == Malformed then ValidationFailed else GuardrailViolation);
    }
    if graph.Some? {
      var gate, updated := Gate.CheckDependencies(graph.value, graphKeys, sub.draft.id, sub.dependencies);
      if gate.Fail? {
        return Refused(DependencyRejected(gate.error));
      }
    }
    if sub.signingKey.None? == sub.externalSignature.None? {
      return Refused(NotExactlyOneSignature);
    }
    var record := Sealed(crypto, sub);
    var verdict := VerifyArtifact(crypto, sub.archive, record);
    if verdict.Some? {
      return Refused(verdict.value);
    }
    store.WriteBlobIfAbsent(record.digest, sub.archive);
    var created := store.WriteTagIfAbsent(record);
    if !created {
      return Refused(DuplicatePublish);
    }
    bus.pending := bus.pending + [record.Coordinates()];
    sink.events := sink.events + [AuditEvent(sub.actor, record.Coordinates(), record.digest)];
    r := Published(record);
  }

  // Many publishers over one store, one store write or emission at a time.

  datatype Stage =
    | Checking
    | Verified(record: Record)
    | BlobStored(record: Record)
    | TagStored(record: Record)
    | Announced(record: Record)
    | Done(record: Record)
    | Failed

  datatype Publisher = Publisher(sub: Submission, stage: Stage)

  datatype World = World(shelf: Shelf, publishers: map<nat, Publisher>)

  datatype Step = Submit(pid: nat, sub: Submission) | Advance(pid: nat)

  function Next(crypto: Crypto, w: World, pid: nat): World
    requires pid in w.publishers
  {
    var Publisher(sub, stage) := w.publishers[pid];
    match stage
    case Checking =>
      At(w, pid, w.shelf,
         if SignsOnce(sub) && VerifyArtifact(crypto, sub.archive, Sealed(crypto, sub)) == None then Verified(Sealed(crypto, sub)) else Failed)
    case Verified(r) => At(w, pid, WithBlob(w.shelf, r.digest, sub.archive), BlobStored(r))
    case BlobStored(r) =>
      if r.Coordinates() in w.shelf.tags then At(w, pid, w.shelf, Failed)
      else At(w, pid, WithTag(w.shelf, r), TagStored(r))
    case TagStored(r) => At(w, pid, WithEvent(w.shelf, r), Announced(r))
    case Announced(r) => At(w, pid, WithAudit(w.shelf, sub.actor, r), Done(r))
    case Done(_) => w
    case Failed => w
  }

  function At(w: World, pid: nat, shelf: Shelf, stage: Stage): World
    requires pid in w.publishers
  {
    World(shelf, w.publishers[pid := w.publishers[pid].(stage := stage)])
  }

  function Do(crypto: Crypto, w: World, step: Step): World {
    match step
    case Submit(pid, sub) => if pid in w.publishers then w else w.(publishers := w.publishers[pid := Publisher(sub, Checking)])
    case Advance(pid) => if pid in w.publishers then Next(crypto, w, pid) else w
  }

  function Run(crypto: Crypto, w: World, steps: seq<Step>): World
    decreases |steps|
  {
    if steps == [] then w else Do(crypto, Run(crypto, w, steps[..|steps| - 1]), steps[|steps| - 1])
  }

  const NOTHING_PUBLISHED := World(Shelf(map[], map[], [], []), map[])

  ghost predicate HasTagged(stage: Stage) {
    stage.TagStored? || stage.Announced? || stage.Done?
  }

  /** Publisher `pid` is the one whose tag write for `k` succeeded. */
  ghost predicate Won(w: World, pid: nat, k: Key) {
    && pid in w.publishers && HasTagged(w.publishers[pid].stage)
    && w.publishers[pid].stage.record.Coordinates() == k
  }

  /** Every tag names a stored blob that hashes to its digest and has a verified signature. */
  ghost predicate Attested(crypto: Crypto, s: Shelf, r: Record) {
    && r.digest in s.blobs && crypto.digest(s.blobs[r.digest]) == r.digest
    && crypto.verifies(r.signatureKind, r.digest, r.signature)
  }

  ghost predicate Sound(crypto: Crypto, s: Shelf) {
    && (forall d :: d in s.blobs ==> crypto.digest(s.blobs[d]) == d)
    && (forall k :: k in s.tags ==> s.tags[k].Coordinates() == k && Attested(crypto, s, s.tags[k]))
    && (forall i :: 0 <= i < |s.audit| ==> s.audit[i].key in s.tags && s.tags[s.audit[i].key].digest == s.audit[i].digest)
    && (forall i :: 0 <= i < |s.events| ==> s.events[i] in s.tags)
  }

  ghost predicate StageHolds(crypto: Crypto, s: Shelf, p: Publisher) {
    match p.stage
    case Checking => true
    case Verified(r) => crypto.digest(p.sub.archive) == r.digest && crypto.verifies(r.signatureKind, r.digest, r.signature)
    case BlobStored(r) => r.digest in s.blobs && crypto.verifies(r.signatureKind, r.digest, r.signature)
    case TagStored(r) => r.Coordinates() in s.tags && s.tags[r.Coordinates()] == r
    case Announced(r) => r.Coordinates() in s.tags && s.tags[r.Coordinates()] == r
    case Done(r) => r.Coordinates() in s.tags && s.tags[r.Coordinates()] == r
    case Failed => true
  }

  ghost predicate Inv(crypto: Crypto, w: World) {
    && Sound(crypto, w.shelf)
    && (forall p :: p in w.publishers ==> StageHolds(crypto, w.shelf, w.publishers[p]))
    && (forall p, q, k :: Won(w, p, k) && Won(w, q, k) ==> p == q)
    && (forall k :: k in w.shelf.tags ==> exists p :: Won(w, p, k))
  }

  /** Nothing stored is ever changed or removed. */
  ghost predicate Grows(s: Shelf, t: Shelf) {
    && (forall d :: d in s.blobs ==> d in t.blobs && t.blobs[d] == s.blobs[d])
    && (forall k :: k in s.tags ==> k in t.tags && t.tags[k] == s.tags[k])
    && s.events <= t.events && s.audit <= t.audit
  }

  lemma StageKept(crypto: Crypto, s: Shelf, t: Shelf, p: Publisher)
    requires StageHolds(crypto, s, p) && Grows(s, t)
    ensures StageHolds(crypto, t, p)
  {
  }

  lemma BlobKeepsSound(crypto: Crypto, s: Shelf, digest: string, archive: Bytes)
    requires Sound(crypto, s) && crypto.digest(archive) == digest
    ensures Sound(crypto, WithBlob(s, digest, archive)) && Grows(s, WithBlob(s, digest, archive))
    ensures digest in WithBlob(s, digest, archive).blobs
  {
  }

  lemma TagKeepsSound(crypto: Crypto, s: Shelf, r: Record)
    requires Sound(crypto, s) && r.Coordinates() !in s.tags
    requires r.digest in s.blobs && crypto.verifies(r.signatureKind, r.digest, r.signature)
    ensures Sound(crypto, WithTag(s, r)) && Grows(s, WithTag(s, r))
  {
  }

  lemma EmissionsKeepSound(crypto: Crypto, s: Shelf, actor: string, r: Record)
    requires Sound(crypto, s) && r.Coordinates() in s.tags && s.tags[r.Coordinates()] == r
    ensures Sound(crypto, WithEvent(s, r)) && Grows(s, WithEvent(s, r))
    ensures Sound(crypto, WithAudit(s, actor, r)) && Grows(s, WithAudit(s, actor, r))
  {
    hide Attested;
    assert forall q :: q in s.tags ==> (Attested(crypto, WithEvent(s, r), s.tags[q]) <==> Attested(crypto, s, s.tags[q])) by {
      AttestedByBlobs(crypto, s, WithEvent(s, r));
    }
    assert forall q :: q in s.tags ==> (Attested(crypto, WithAudit(s, actor, r), s.tags[q]) <==> Attested(crypto, s, s.tags[q])) by {
      AttestedByBlobs(crypto, s, WithAudit(s, actor, r));
    }
  }

  lemma AttestedByBlobs(crypto: Crypto, s: Shelf, t: Shelf)
    requires s.blobs == t.blobs
    ensures forall r :: Attested(crypto, s, r) <==> Attested(crypto, t, r)
  {
  }

  lemma NothingGrows(s: Shelf)
    ensures Grows(s, s)
  {
  }

  lemma NextIsSound(crypto: Crypto, w: World, pid: nat)
    requires Sound(crypto, w.shelf) && pid in w.publishers && StageHolds(crypto, w.shelf, w.publishers[pid])
    ensures var t := Next(crypto, w, pid).shelf;
            Grows(w.shelf, t) && Sound(crypto, t) && StageHolds(crypto, t, Next(crypto, w, pid).publishers[pid])
  {
    hide Sealed, Sound, Grows;
    NothingGrows(w.shelf);
    var Publisher(sub, stage) := w.publishers[pid];
    match stage
    case Verified(r) => BlobKeepsSound(crypto, w.shelf, r.digest, sub.archive);
    case BlobStored(r) =>
      if r.Coordinates() !in w.shelf.tags {
        TagKeepsSound(crypto, w.shelf, r);
      }
    case TagStored(r) => EmissionsKeepSound(crypto, w.shelf, sub.actor, r);
    case Announced(r) => EmissionsKeepSound(crypto, w.shelf, sub.actor, r);
    case _ =>
  }

  lemma DoKeepsInv(crypto: Crypto, w: World, step: Step)
    requires Inv(crypto, w)
    ensures Inv(crypto, Do(crypto, w, step)) && Grows(w.shelf, Do(crypto, w, step).shelf)
  {
    hide Sound, Grows, Won, Next, StageHolds;
    var u := Do(crypto, w, step);
    NothingGrows(w.shelf);
    if step.Advance? && step.pid in w.publishers {
      NextIsSound(crypto, w, step.pid);
      NextTouchesOne(crypto, w, step.pid);
      OthersKept(crypto, w, u, step.pid);
      WinnersKept(crypto, w, step.pid);
    } else {
      SubmitKeepsWinners(w, u, step.pid);
      NewcomerHolds(crypto, w.shelf, u.publishers, step.pid);
    }
  }

  lemma NewcomerHolds(crypto: Crypto, s: Shelf, ps: map<nat, Publisher>, pid: nat)
    ensures pid in ps && ps[pid].stage == Checking ==> StageHolds(crypto, s, ps[pid])
  {
  }

  lemma NextTouchesOne(crypto: Crypto, w: World, pid: nat)
    requires pid in w.publishers
    ensures var u := Next(crypto, w, pid);
            u.publishers.Keys == w.publishers.Keys && forall p :: p in w.publishers && p != pid ==> u.publishers[p] == w.publishers[p]
  {
    hide Sealed, VerifyArtifact;
  }

  lemma OthersKept(crypto: Crypto, w: World, u: World, pid: nat)
    requires Inv(crypto, w) && Grows(w.shelf, u.shelf)
    requires pid in u.publishers && StageHolds(crypto, u.shelf, u.publishers[pid])
    requires u.publishers.Keys == w.publishers.Keys && forall p :: p in w.publishers && p != pid ==> u.publishers[p] == w.publishers[p]
    ensures forall p :: p in u.publishers ==> StageHolds(crypto, u.shelf, u.publishers[p])
  {
    hide Sound, Won, StageHolds;
    forall p | p in u.publishers
      ensures StageHolds(crypto, u.shelf, u.publishers[p])
    {
      if p != pid {
        StageKept(crypto, w.shelf, u.shelf, w.publishers[p]);
      }
    }
  }

  lemma SubmitKeepsWinners(w: World, u: World, pid: nat)
    requires u == w || (pid !in w.publishers && u.shelf == w.shelf && pid in u.publishers && u.publishers[pid].stage == Checking
                        && u.publishers == w.publishers[pid := u.publishers[pid]])
    ensures forall p, k :: Won(u, p, k) <==> Won(w, p, k)
  {
  }

  lemma WinnersKept(crypto: Crypto, w: World, pid: nat)
    requires Inv(crypto, w) && pid in w.publishers
    ensures var u := Next(crypto, w, pid);
            && (forall p, q, k :: Won(u, p, k) && Won(u, q, k) ==> p == q)
            && (forall k :: k in u.shelf.tags ==> exists p :: Won(u, p, k))
  {
    hide Sound, Sealed, VerifyArtifact;
    var u := Next(crypto, w, pid);
    var stage := w.publishers[pid].stage;
    forall p, k | p in w.publishers
      ensures Won(u, p, k) <==> Won(w, p, k) || (p == pid && stage.BlobStored? && u.shelf.tags != w.shelf.tags && k == stage.record.Coordinates())
    {
      if stage.BlobStored? && stage.record.Coordinates() !in w.shelf.tags {
        assert stage.record.Coordinates() in u.shelf.tags;
      }
    }
    forall p, k | Won(w, p, k)
      ensures k in w.shelf.tags
    {
      assert StageHolds(crypto, w.shelf, w.publishers[p]);
    }
    forall k | k in u.shelf.tags
      ensures exists p :: Won(u, p, k)
    {
      if k in w.shelf.tags {
        var p :| Won(w, p, k);
        assert Won(u, p, k);
      } else {
        assert Won(u, pid, k);
      }
    }
  }

  lemma GrowsTransitive(s: Shelf, t: Shelf, u: Shelf)
    requires Grows(s, t) && Grows(t, u)
    ensures Grows(s, u)
  {
  }

  lemma {:induction false} RunKeepsInv(crypto: Crypto, w: World, steps: seq<Step>)
    requires Inv(crypto, w)
    ensures Inv(crypto, Run(crypto, w, steps)) && Grows(w.shelf, Run(crypto, w, steps).shelf)
    decreases |steps|
  {
    hide Inv, Do;
    if steps != [] {
      hide Grows;
      var n := |steps| - 1;
      var mid := Run(crypto, w, steps[..n]);
      RunKeepsInv(crypto, w, steps[..n]);
      DoKeepsInv(crypto, mid, steps[n]);
      GrowsTransitive(w.shelf, mid.shelf, Run(crypto, w, steps).shelf);
    }
  }

  lemma {:induction false} RunInTwoParts(crypto: Crypto, w: World, a: seq<Step>, b: seq<Step>)
    ensures Run(crypto, w, a + b) == Run(crypto, Run(crypto, w, a), b)
    decreases |b|
  {
    hide Do;
    if b == [] {
      assert a + b == a;
    } else {
      var n := |b| - 1;
      assert (a + b)[..|a + b| - 1] == a + b[..n];
      RunInTwoParts(crypto, w, a, b[..n]);
    }
  }

  /** In every interleaving, what is stored is attested and audited truthfully,
      and each published version has exactly one winner. */
  lemma EveryInterleavingIsSound(crypto: Crypto, steps: seq<Step>)
    ensures var w := Run(crypto, NOTHING_PUBLISHED, steps);
            && (forall k :: k in w.shelf.tags ==> w.shelf.tags[k].Coordinates() == k && Attested(crypto, w.shelf, w.shelf.tags[k]))
            && (forall i :: 0 <= i < |w.shelf.audit| ==>
                  w.shelf.audit[i].key in w.shelf.tags && w.shelf.tags[w.shelf.audit[i].key].digest == w.shelf.audit[i].digest)
            && (forall i :: 0 <= i < |w.shelf.events| ==> w.shelf.events[i] in w.shelf.tags)
            && (forall p, q, k :: Won(w, p, k) && Won(w, q, k) ==> p == q)
            && (forall k :: k in w.shelf.tags ==> exists p :: Won(w, p, k) && w.publishers[p].stage.record == w.shelf.tags[k])
  {
    hide Attested, Do;
    RunKeepsInv(crypto, NOTHING_PUBLISHED, steps);
    var w := Run(crypto, NOTHING_PUBLISHED, steps);
    forall k | k in w.shelf.tags
      ensures exists p :: Won(w, p, k) && w.publishers[p].stage.record == w.shelf.tags[k]
    {
      var p :| Won(w, p, k);
      assert StageHolds(crypto, w.shelf, w.publishers[p]);
    }
  }

  /** A tag, once stored, is the same at every later moment. */
  lemma TagsAreForever(crypto: Crypto, earlier: seq<Step>, later: seq<Step>, k: Key)
    requires k in Run(crypto, NOTHING_PUBLISHED, earlier).shelf.tags
    ensures k in Run(crypto, NOTHING_PUBLISHED, earlier + later).shelf.tags
    ensures Run(crypto, NOTHING_PUBLISHED, earlier + later).shelf.tags[k] == Run(crypto, NOTHING_PUBLISHED, earlier).shelf.tags[k]
  {
    hide Inv, Do;
    InvAtStart(crypto);
    RunKeepsInv(crypto, NOTHING_PUBLISHED, earlier);
    RunKeepsInv(crypto, Run(crypto, NOTHING_PUBLISHED, earlier), later);
    RunInTwoParts(crypto, NOTHING_PUBLISHED, earlier, later);
  }

  lemma InvAtStart(crypto: Crypto)
    ensures Inv(crypto, NOTHING_PUBLISHED)
  {
  }

  // What losers leave, and how often winners speak.

  /** Whether a step changes anything but blobs. */
  predicate Speaks(s: Shelf, t: Shelf) {
    s.tags != t.tags || s.events != t.events || s.audit != t.audit
  }

  lemma WinnersStayWinners(crypto: Crypto, w: World, step: Step, pid: nat)
    requires pid in w.publishers && HasTagged(w.publishers[pid].stage)
    ensures var u := Do(crypto, w, step); pid in u.publishers && HasTagged(u.publishers[pid].stage)
  {
    hide Sealed, VerifyArtifact;
  }

  lemma SpeakersHaveTagged(crypto: Crypto, w: World, step: Step)
    requires Speaks(w.shelf, Do(crypto, w, step).shelf)
    ensures var u := Do(crypto, w, step); step.pid in u.publishers && HasTagged(u.publishers[step.pid].stage)
  {
    hide Sealed, VerifyArtifact;
  }

  lemma {:induction false} TaggedStays(crypto: Crypto, w: World, steps: seq<Step>, pid: nat)
    requires pid in w.publishers && HasTagged(w.publishers[pid].stage)
    ensures var u := Run(crypto, w, steps); pid in u.publishers && HasTagged(u.publishers[pid].stage)
    decreases |steps|
  {
    hide Do, HasTagged;
    if steps != [] {
      var n := |steps| - 1;
      TaggedStays(crypto, w, steps[..n], pid);
      WinnersStayWinners(crypto, Run(crypto, w, steps[..n]), steps[n], pid);
    }
  }

  /** In every run, no step of a publisher that ends up failing has changed a tag,
      an event or the audit. */
  lemma LosersLeaveNoTrace(crypto: Crypto, steps: seq<Step>, i: nat)
    requires i < |steps|
    requires var w := Run(crypto, NOTHING_PUBLISHED, steps);
             steps[i].pid in w.publishers && w.publishers[steps[i].pid].stage == Failed
    ensures !Speaks(Run(crypto, NOTHING_PUBLISHED, steps[..i]).shelf, Run(crypto, NOTHING_PUBLISHED, steps[..i + 1]).shelf)
  {
    hide Do, Speaks;
    var before := Run(crypto, NOTHING_PUBLISHED, steps[..i]);
    assert steps[..i + 1][..i] == steps[..i];
    var after := Do(crypto, before, steps[i]);
    assert Run(crypto, NOTHING_PUBLISHED, steps[..i + 1]) == after;
    RunInTwoParts(crypto, NOTHING_PUBLISHED, steps[..i + 1], steps[i + 1..]);
    assert steps[..i + 1] + steps[i + 1..] == steps;
    if Speaks(before.shelf, after.shelf) {
      SpeakersHaveTagged(crypto, before, steps[i]);
      TaggedStays(crypto, after, steps[i + 1..], steps[i].pid);
    }
  }

  function CountEvents(events: seq<Key>, k: Key): nat {
    if events == [] then 0 else CountEvents(events[..|events| - 1], k) + if events[|events| - 1] == k then 1 else 0
  }

  function CountAudits(audit: seq<AuditEvent>, k: Key): nat {
    if audit == [] then 0 else CountAudits(audit[..|audit| - 1], k) + if audit[|audit| - 1].key == k then 1 else 0
  }

  /** The counts for one key are those its winner has emitted so far. */
  ghost predicate Emitted(w: World, k: Key) {
    && (k !in w.shelf.tags ==> CountEvents(w.shelf.events, k) == 0 && CountAudits(w.shelf.audit, k) == 0)
    && forall p :: Won(w, p, k) ==>
         && CountEvents(w.shelf.events, k) == (if w.publishers[p].stage.TagStored? then 0 else 1)
         && CountAudits(w.shelf.audit, k) == (if w.publishers[p].stage.Done? then 1 else 0)
  }

  lemma OneMoreEvent(events: seq<Key>, audit: seq<AuditEvent>, q: Key, e: AuditEvent, k: Key)
    ensures CountEvents(events + [q], k) == CountEvents(events, k) + if q == k then 1 else 0
    ensures CountAudits(audit + [e], k) == CountAudits(audit, k) + if e.key == k then 1 else 0
  {
    assert (events + [q])[..|events|] == events && (audit + [e])[..|audit|] == audit;
  }

  lemma WinnerIsStored(crypto: Crypto, w: World, p: nat, k: Key)
    requires Inv(crypto, w) && Won(w, p, k)
    ensures k in w.shelf.tags
  {
    hide Sound;
    assert StageHolds(crypto, w.shelf, w.publishers[p]);
  }

  lemma NextEmits(crypto: Crypto, w: World, pid: nat, k: Key)
    requires Inv(crypto, w) && pid in w.publishers && Emitted(w, k)
    ensures Emitted(Next(crypto, w, pid), k)
  {
    hide Inv, Sealed, VerifyArtifact, CountEvents, CountAudits;
    var u := Next(crypto, w, pid);
    var Publisher(sub, stage) := w.publishers[pid];
    if stage.TagStored? || stage.Announced? {
      var r := stage.record;
      OneMoreEvent(w.shelf.events, w.shelf.audit, r.Coordinates(), AuditEvent(sub.actor, r.Coordinates(), r.digest), k);
      WinnerIsStored(crypto, w, pid, r.Coordinates());
    }
    NextTouchesOne(crypto, w, pid);
    forall p | Won(u, p, k)
      ensures p == pid || Won(w, p, k)
      ensures p != pid && HasTagged(u.publishers[pid].stage) ==> u.publishers[pid].stage.record.Coordinates() != k
    {
      if p != pid {
        assert u.publishers[p] == w.publishers[p];
        WinnerIsStored(crypto, w, p, k);
        DoKeepsInv(crypto, w, Advance(pid));
        OneWinner(crypto, u);
        assert Won(u, pid, k) <==> HasTagged(u.publishers[pid].stage) && u.publishers[pid].stage.record.Coordinates() == k;
      }
    }
  }

  lemma OneWinner(crypto: Crypto, w: World)
    requires Inv(crypto, w)
    ensures forall p, q, k :: Won(w, p, k) && Won(w, q, k) ==> p == q
  {
  }

  lemma {:induction false} RunEmits(crypto: Crypto, steps: seq<Step>, k: Key)
    ensures Inv(crypto, Run(crypto, NOTHING_PUBLISHED, steps)) && Emitted(Run(crypto, NOTHING_PUBLISHED, steps), k)
    decreases |steps|
  {
    hide Inv, Next;
    InvAtStart(crypto);
    RunKeepsInv(crypto, NOTHING_PUBLISHED, steps);
    if steps != [] {
      var n := |steps| - 1;
      var mid := Run(crypto, NOTHING_PUBLISHED, steps[..n]);
      RunEmits(crypto, steps[..n], k);
      if steps[n].Advance? && steps[n].pid in mid.publishers {
        hide Emitted;
        NextEmits(crypto, mid, steps[n].pid, k);
      } else {
        hide CountEvents, CountAudits;
        SubmitKeepsWinners(mid, Do(crypto, mid, steps[n]), steps[n].pid);
      }
    }
  }

  /** In every run each version is audited exactly once if its winner is done and
      not at all otherwise, and announced exactly once if its winner has got that far. */
  lemma EachVersionSpeaksOnce(crypto: Crypto, steps: seq<Step>, k: Key)
    ensures var w := Run(crypto, NOTHING_PUBLISHED, steps);
            && CountAudits(w.shelf.audit, k)
               == (if exists p :: Won(w, p, k) && w.publishers[p].stage.Done? then 1 else 0)
            && CountEvents(w.shelf.events, k)
               == (if exists p :: Won(w, p, k) && (w.publishers[p].stage.Announced? || w.publishers[p].stage.Done?) then 1 else 0)
  {
    hide CountEvents, CountAudits, Do, Sound;
    RunEmits(crypto, steps, k);
    OneWinner(crypto, Run(crypto, NOTHING_PUBLISHED, steps));
  }

  /** What one publish amounts to: refused before any write, refused as a duplicate
      with at most a blob left behind, or published in full. */
  function Outcome(crypto: Crypto, s: Shelf, sub: Submission): (Shelf, Stage) {
    if !SignsOnce(sub) || VerifyArtifact(crypto, sub.archive, Sealed(crypto, sub)) != None then (s, Failed)
    else
      var r := Sealed(crypto, sub);
      var stored := WithBlob(s, r.digest, sub.archive);
      if r.Coordinates() in s.tags then (stored, Failed)
      else (WithAudit(WithEvent(WithTag(stored, r), r), sub.actor, r), Done(r))
  }

  /** What a publish that is not a duplicate comes to, said of the submission itself. */
  lemma OutcomeOfFreshSubmission(crypto: Crypto, s: Shelf, sub: Submission)
    requires sub.draft.Coordinates() !in s.tags
    ensures var digest := crypto.digest(sub.archive);
            var (shelf, stage) := Outcome(crypto, s, sub);
            if sub.signingKey.None? && sub.externalSignature.Some? && crypto.verifies(Sigstore, digest, sub.externalSignature.value) then
              stage == Done(sub.draft.(digest := digest, signature := sub.externalSignature.value, signatureKind := Sigstore))
            else if sub.signingKey.Some? && sub.externalSignature.None? && crypto.verifies(DevRsa, digest, sub.signingKey.value(digest)) then
              stage == Done(sub.draft.(digest := digest, signature := sub.signingKey.value(digest), signatureKind := DevRsa))
            else stage == Failed && shelf == s
  {
  }

  /** Run alone, the steps of a publisher have the effect of `PublishSkill`,
      whichever way it ends. */
  lemma StepsRefinePublish(crypto: Crypto, w: World, pid: nat, sub: Submission)
    requires pid !in w.publishers
    ensures var a := Advance(pid);
            var t := Run(crypto, w, [Submit(pid, sub), a, a, a, a, a]);
            var (shelf, stage) := Outcome(crypto, w.shelf, sub);
            t == World(shelf, w.publishers[pid := Publisher(sub, stage)])
  {
    hide Sealed, VerifyArtifact, SignsOnce, WithBlob, WithTag, WithEvent, WithAudit;
    var a := Advance(pid);
    var steps := [Submit(pid, sub), a, a, a, a, a];
    RunSix(crypto, w, steps);
    var w1 := Do(crypto, w, steps[0]);
    var w2 := Do(crypto, w1, a);
    if SignsOnce(sub) && VerifyArtifact(crypto, sub.archive, Sealed(crypto, sub)) == None {
      var r := Sealed(crypto, sub);
      BlobKeepsTags(w.shelf, r.digest, sub.archive);
      assert w2 == World(w.shelf, w.publishers[pid := Publisher(sub, Verified(r))]);
      var stored := WithBlob(w.shelf, r.digest, sub.archive);
      var w3 := Do(crypto, w2, a);
      assert w3 == World(stored, w.publishers[pid := Publisher(sub, BlobStored(r))]);
      var w4 := Do(crypto, w3, a);
      if r.Coordinates() in w.shelf.tags {
        assert w4 == World(stored, w.publishers[pid := Publisher(sub, Failed)]);
      } else {
        assert w4 == World(WithTag(stored, r), w.publishers[pid := Publisher(sub, TagStored(r))]);
        var w5 := Do(crypto, w4, a);
        assert w5 == World(WithEvent(WithTag(stored, r), r), w.publishers[pid := Publisher(sub, Announced(r))]);
      }
    } else {
      assert w2 == World(w.shelf, w.publishers[pid := Publisher(sub, Failed)]);
    }
  }

  lemma BlobKeepsTags(s: Shelf, digest: string, archive: Bytes)
    ensures WithBlob(s, digest, archive).tags == s.tags
  {
  }

  lemma RunSix(crypto: Crypto, w: World, t: seq<Step>)
    requires |t| == 6
    ensures Run(crypto, w, t)
            == Do(crypto, Do(crypto, Do(crypto, Do(crypto, Do(crypto, Do(crypto, w, t[0]), t[1]), t[2]), t[3]), t[4]), t[5])
  {
    hide Do;
    assert t[..5][..4] == t[..4] && t[..4][..3] == t[..3] && t[..3][..2] == t[..2] && t[..2][..1] == t[..1] && t[..1][..0] == t[..0] == [];
    assert Run(crypto, w, t[..1]) == Do(crypto, w, t[0]);
    assert Run(crypto, w, t[..2]) == Do(crypto, Run(crypto, w, t[..1]), t[1]);
    assert Run(crypto, w, t[..3]) == Do(crypto, Run(crypto, w, t[..2]), t[2]);
    assert Run(crypto, w, t[..4]) == Do(crypto, Run(crypto, w, t[..3]), t[3]);
    assert Run(crypto, w, t[..5]) == Do(crypto, Run(crypto, w, t[..4]), t[4]);
  }
}
