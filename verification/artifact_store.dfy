/** The chat artifact store: manifests and content files on disk, and a usage
    index kept in memory beside them. */
module ArtifactStore {
  import opened Options

  type Session = nat
  type Instance = nat

  /** Content is stored per session and artifact id. */
  datatype Key = Key(session: Session, id: nat)

  datatype Status = Preparing | Ready | Rejected | Missing | Expired | Failed | Deleted

  /** The description every manifest of an artifact repeats unchanged. */
  datatype Identity = Identity(instance: Instance, operation: nat, name: string, kind: string)

  /** A manifest. An empty media type or digest and a size of zero mean "not known yet". */
  datatype Manifest = Manifest(
    identity: Identity,
    mediaType: string,
    size: nat,
    digest: string,
    status: Status,
    error: string,
    createdAt: int,
    expiresAt: Option<int>)

  /** The time of a manifest that gives none. */
  const ZERO_TIME: int := 0

  const MAXIMUM_BYTES: nat := 25 * 1024 * 1024
  /** One hour, in seconds. */
  const GRACE: int := 3600

  datatype Config = Config(sessionMax: nat, instanceMax: nat, totalMax: nat, retention: int)

  function Rank(status: Status): nat {
    match status
    case Preparing => 1
    case Ready => 2
    case Deleted => 4
    case _ => 3
  }

  predicate Unavailable(status: Status) {
    Rank(status) == 3
  }

  /** Two manifests may describe one artifact if they agree wherever both say something. */
  predicate Compatible(a: Manifest, b: Manifest) {
    && a.identity == b.identity
    && (a.mediaType == "" || b.mediaType == "" || a.mediaType == b.mediaType)
    && (a.size == 0 || b.size == 0 || a.size == b.size)
    && (a.digest == "" || b.digest == "" || a.digest == b.digest)
  }

  /** What the store accepts as a manifest, as far as the lifecycle depends on it. */
  predicate Storable(m: Manifest) {
    && m.size <= MAXIMUM_BYTES && (m.size > 0 ==> m.digest != "")
    && (m.status.Ready? ==> m.size > 0 && m.digest != "" && m.mediaType != "")
    && (Unavailable(m.status) ==> m.error != "")
    && m.createdAt != ZERO_TIME
  }

  predicate Uploadable(m: Manifest) {
    0 < m.size <= MAXIMUM_BYTES && m.digest != "" && m.mediaType != "" && m.status.Preparing?
  }

  type Manifests = map<Key, Manifest>

  predicate AllStorable(ms: Manifests) {
    forall k :: k in ms ==> Storable(ms[k])
  }

  /** What a usage figure covers. */
  datatype Scope = Everything | InSession(session: Session) | InInstance(instance: Instance)

  /** What one manifest contributes: only ready content is counted. */
  function Weight(k: Key, m: Manifest, scope: Scope): nat {
    if !m.status.Ready? then 0
    else match scope
      case Everything => m.size
      case InSession(session) => if k.session == session then m.size else 0
      case InInstance(instance) => if m.identity.instance == instance then m.size else 0
  }

  /** The sum of the sizes of the ready manifests in scope. */
  ghost function Total(ms: Manifests, scope: Scope): nat
    decreases |ms|
  {
    if ms == map[] then 0
    else
      var k :| k in ms;
      Weight(k, ms[k], scope) + Total(ms - {k}, scope)
  }

  lemma {:induction false} TotalWithout(ms: Manifests, k: Key, scope: Scope)
    requires k in ms
    ensures Total(ms, scope) == Weight(k, ms[k], scope) + Total(ms - {k}, scope)
    decreases |ms|
  {
    var j :| j in ms && Total(ms, scope) == Weight(j, ms[j], scope) + Total(ms - {j}, scope);
    if j != k {
      TotalWithout(ms - {j}, k, scope);
      TotalWithout(ms - {k}, j, scope);
      assert ms - {j} - {k} == ms - {k} - {j};
    }
  }

  /** Rewriting one manifest moves a total by the difference of its two weights. */
  lemma TotalUpdate(ms: Manifests, k: Key, m: Manifest, scope: Scope)
    ensures Total(ms[k := m], scope) + (if k in ms then Weight(k, ms[k], scope) else 0)
         == Total(ms, scope) + Weight(k, m, scope)
  {
    TotalWithout(ms[k := m], k, scope);
    assert ms[k := m] - {k} == ms - {k};
    if k in ms {
      TotalWithout(ms, k, scope);
    } else {
      assert ms - {k} == ms;
    }
  }

  /** The cached index. Absent entries count as zero. */
  datatype Usage = Usage(total: int, sessions: map<Session, int>, instances: map<Instance, int>)

  function At(m: map<nat, int>, k: nat): int {
    if k in m then m[k] else 0
  }

  function Cached(u: Usage, scope: Scope): int {
    match scope
    case Everything => u.total
    case InSession(session) => At(u.sessions, session)
    case InInstance(instance) => At(u.instances, instance)
  }

  ghost predicate Exact(u: Usage, ms: Manifests) {
    forall scope :: Cached(u, scope) == Total(ms, scope)
  }

  function AddUsage(u: Usage, k: Key, m: Manifest): Usage {
    Usage(u.total + m.size,
          u.sessions[k.session := At(u.sessions, k.session) + m.size],
          u.instances[m.identity.instance := At(u.instances, m.identity.instance) + m.size])
  }

  function Clamp(x: int): int {
    if x < 0 then 0 else x
  }

  function RemoveUsage(u: Usage, k: Key, m: Manifest): Usage {
    Usage(Clamp(u.total - m.size),
          u.sessions[k.session := Clamp(At(u.sessions, k.session) - m.size)],
          u.instances[m.identity.instance := Clamp(At(u.instances, m.identity.instance) - m.size)])
  }

  /** A manifest that becomes ready is counted. */
  lemma AddKeepsExact(u: Usage, ms: Manifests, k: Key, m: Manifest)
    requires Exact(u, ms) && m.status.Ready? && (k in ms ==> !ms[k].status.Ready?)
    ensures Exact(AddUsage(u, k, m), ms[k := m])
  {
    forall scope ensures Cached(AddUsage(u, k, m), scope) == Total(ms[k := m], scope) {
      TotalUpdate(ms, k, m, scope);
      assert Cached(u, scope) == Total(ms, scope);
    }
  }

  /** A ready manifest that stops being ready is no longer counted, and the
      clamps at zero never change the result. */
  lemma RemoveKeepsExact(u: Usage, ms: Manifests, k: Key, m: Manifest)
    requires Exact(u, ms) && k in ms && ms[k].status.Ready? && !m.status.Ready?
    ensures u.total >= ms[k].size && At(u.sessions, k.session) >= ms[k].size
    ensures At(u.instances, ms[k].identity.instance) >= ms[k].size
    ensures Exact(RemoveUsage(u, k, ms[k]), ms[k := m])
  {
    var session, instance := k.session, ms[k].identity.instance;
    forall scope ensures Cached(u, scope) == Weight(k, ms[k], scope) + Total(ms[k := m], scope) {
      TotalUpdate(ms, k, m, scope);
      assert Cached(u, scope) == Total(ms, scope);
    }
    assert Cached(u, Everything) >= ms[k].size;
    assert Cached(u, InSession(session)) >= ms[k].size;
    assert Cached(u, InInstance(instance)) >= ms[k].size;
    var v := RemoveUsage(u, k, ms[k]);
    forall scope ensures Cached(v, scope) == Total(ms[k := m], scope) {
      assert Cached(v, scope) == Cached(u, scope) - Weight(k, ms[k], scope);
    }
  }

  /** Rewriting a manifest that is not ready before or after costs nothing. */
  lemma RewriteKeepsExact(u: Usage, ms: Manifests, k: Key, m: Manifest)
    requires Exact(u, ms) && !m.status.Ready? && (k in ms ==> !ms[k].status.Ready?)
    ensures Exact(u, ms[k := m])
  {
    forall scope ensures Cached(u, scope) == Total(ms[k := m], scope) {
      TotalUpdate(ms, k, m, scope);
      assert Cached(u, scope) == Total(ms, scope);
    }
  }

  /** The life of one artifact: its status rank never falls, what is known about
      its content never changes, and it becomes ready at most once. */
  predicate Advances(a: Manifest, b: Manifest) {
    && Rank(a.status) <= Rank(b.status)
    && a.identity == b.identity && a.createdAt == b.createdAt
    && (a.mediaType != "" ==> b.mediaType == a.mediaType)
    && (a.size != 0 ==> b.size == a.size)
    && (a.digest != "" ==> b.digest == a.digest)
  }

  /** No artifact disappears or moves backwards. */
  predicate Evolves(before: Manifests, after: Manifests) {
    forall k :: k in before ==> k in after && Advances(before[k], after[k])
  }

  /** Nothing becomes ready. */
  predicate NothingReadied(before: Manifests, after: Manifests) {
    forall k :: k in after && after[k].status.Ready? ==>
      k in before && after[k] == before[k]
  }

  /** Evolution composes, which compatibility does not. */
  lemma EvolvesIsTransitive(a: Manifests, b: Manifests, c: Manifests)
    requires Evolves(a, b) && Evolves(b, c)
    ensures Evolves(a, c)
  {
  }

  lemma EvolvesIsReflexive(a: Manifests)
    ensures Evolves(a, a)
  {
  }

  lemma CompatibleIsNotTransitive()
    ensures exists a: Manifest, b: Manifest, c: Manifest :: Compatible(a, b) && Compatible(b, c) && !Compatible(a, c)
  {
    var identity := Identity(0, 0, "report", "file");
    var a := Manifest(identity, "text/plain", 1, "aa", Preparing, "", 0, None);
    var b := Manifest(identity, "", 0, "", Preparing, "", 0, None);
    var c := Manifest(identity, "text/plain", 2, "bb", Preparing, "", 0, None);
    assert Compatible(a, b) && Compatible(b, c) && !Compatible(a, c);
  }

  /** What a reader makes of a stored manifest: ready content that has expired, or
      whose file is gone or has the wrong size, is not ready any more. */
  function Looked(m: Manifest, content: Option<nat>, now: int): Manifest {
    if !m.status.Ready? then m
    else if m.expiresAt.Some? && now >= m.expiresAt.value then m.(status := Expired, error := "expired")
    else if content != Some(m.size) then m.(status := Missing, error := "missing")
    else m
  }

  /** Reconciliation also gives up on uploads that did not complete in time. */
  function Reconciled(m: Manifest, content: Option<nat>, now: int): Manifest {
    if m.status.Preparing? && m.createdAt <= now - GRACE then m.(status := Failed, error := "timed out")
    else Looked(m, content, now)
  }

  type Contents = map<Key, nat>

  /** Ready, not expired, and its content there in full. */
  predicate Present(m: Manifest, content: Option<nat>, now: int) {
    m.status == Ready && (m.expiresAt.Some? ==> now < m.expiresAt.value) && content == Some(m.size)
  }

  /** The status a reader, and a reconciliation, makes of a manifest; nothing else about
      it changes but the reason it gives. */
  lemma StatusExactly(m: Manifest, content: Option<nat>, now: int)
    ensures
      var looked, reconciled := Looked(m, content, now), Reconciled(m, content, now);
      var expired := m.expiresAt.Some? && now >= m.expiresAt.value;
      && (m.status != Ready ==> looked == m)
      && (m.status == Ready ==>
        && (looked.status == Expired <==> expired)
        && (looked.status == Missing <==> !expired && content != Some(m.size))
        && (looked.status == Ready <==> Present(m, content, now)))
      && looked == m.(status := looked.status, error := looked.error)
      && (looked.status == m.status ==> looked == m)
      && (m.status == Preparing ==>
        reconciled.status == if now - m.createdAt >= 3600 then Failed else Preparing)
      && (m.status != Preparing ==> reconciled == looked)
      && reconciled == m.(status := reconciled.status, error := reconciled.error)
      && (reconciled.status == m.status ==> reconciled == m)
  {
  }

  function ContentOf(data: Contents, k: Key): Option<nat> {
    if k in data then Some(data[k]) else None
  }

  function ReconciledAll(ms: Manifests, data: Contents, now: int): Manifests {
    map k | k in ms :: Reconciled(ms[k], ContentOf(data, k), now)
  }

  /** Content survives for ready manifests only; files without a manifest go once
      they are old, which `stale` tells. */
  function KeptContents(ms: Manifests, data: Contents, now: int, stale: set<Key>): Contents {
    map k | k in data && (if k in ms then Reconciled(ms[k], ContentOf(data, k), now).status.Ready? else k !in stale) ::
      data[k]
  }

  /** What is left of the content files when some removals may have failed. */
  predicate Swept(ms: Manifests, data: Contents, now: int, stale: set<Key>, left: Contents) {
    && (forall k :: k in left ==> k in data && left[k] == data[k])
    && (forall k :: k in KeptContents(ms, data, now, stale) ==> k in left)
  }

  /** A second reconciliation at the same instant rewrites no manifest, whichever
      of the first one's removals failed, and has no file to remove if none did. */
  lemma ReconcileIsIdempotent(ms: Manifests, data: Contents, now: int, stale: set<Key>, left: Contents)
    requires Swept(ms, data, now, stale, left)
    ensures ReconciledAll(ReconciledAll(ms, data, now), left, now) == ReconciledAll(ms, data, now)
    ensures left == KeptContents(ms, data, now, stale) ==>
      KeptContents(ReconciledAll(ms, data, now), left, now, stale) == left
  {
    var once := ReconciledAll(ms, data, now);
    forall k | k in once ensures Reconciled(once[k], ContentOf(left, k), now) == once[k] {
      if once[k].status.Ready? {
        assert k in KeptContents(ms, data, now, stale);
        assert ContentOf(left, k) == ContentOf(data, k);
      }
    }
  }

  function Limit(config: Config, scope: Scope): nat {
    match scope
    case Everything => config.totalMax
    case InSession(_) => config.sessionMax
    case InInstance(_) => config.instanceMax
  }

  function Max(a: int, b: int): int {
    if a < b then b else a
  }

  /** If nothing becomes ready then no figure grows. */
  lemma {:induction false} TotalShrinks(before: Manifests, after: Manifests, scope: Scope)
    requires NothingReadied(before, after)
    ensures Total(after, scope) <= Total(before, scope)
    decreases |after|
  {
    if after == map[] {
    } else {
      var k :| k in after;
      TotalWithout(after, k, scope);
      if k in before {
        TotalWithout(before, k, scope);
        TotalShrinks(before - {k}, after - {k}, scope);
      } else {
        TotalShrinks(before, after - {k}, scope);
      }
    }
  }

  /** The manifests on disk and the index in memory, between two calls. */
  datatype Snapshot = Snapshot(manifests: Manifests, usage: Usage)

  /** What every call promises but the deletion of a whole session. */
  ghost predicate Permitted(config: Config, a: Snapshot, b: Snapshot) {
    && Evolves(a.manifests, b.manifests)
    && Exact(b.usage, b.manifests)
    && Within(config, a.manifests, b.manifests)
  }

  datatype Error = NotFound | Invalid | Quota | Cancelled | LeaseLost | Ambiguous | Io

  datatype Result = Ok(value: Manifest) | Err(error: Error)

  /** One upload as the store sees it: whether the request was cancelled before it
      began, whether its body could be staged, what was staged, and whether the
      lease is still held afterwards. */
  datatype Upload = Upload(cancelled: bool, staged: bool, written: nat, digest: string, leaseHeld: bool)

  predicate Matches(upload: Upload, request: Manifest) {
    upload.written <= MAXIMUM_BYTES && upload.written == request.size && upload.digest == request.digest
  }

  predicate Fits(config: Config, usage: Usage, k: Key, request: Manifest) {
    && At(usage.sessions, k.session) + request.size <= config.sessionMax
    && At(usage.instances, request.identity.instance) + request.size <= config.instanceMax
    && usage.total + request.size <= config.totalMax
  }

  /** What is published for an upload. */
  function Published(request: Manifest, existing: Option<Manifest>, config: Config, now: int): Manifest {
    var createdAt :=
      if existing.Some? then existing.value.createdAt
      else if request.createdAt == ZERO_TIME then now
      else request.createdAt;
    request.(createdAt := createdAt, expiresAt := Some(createdAt + config.retention), status := Ready, error := "")
  }

  function Stored(ms: Manifests, data: Contents, k: Key, now: int): Option<Manifest> {
    if k in ms then Some(Looked(ms[k], ContentOf(data, k), now)) else None
  }

  /** Whether an upload ends with its artifact ready, short of disk failures. */
  predicate Accepts(config: Config, ms: Manifests, data: Contents, usage: Usage, k: Key, request: Manifest,
          upload: Upload, now: int) {
    var stored := Stored(ms, data, k, now);
    && Uploadable(request) && !upload.cancelled
    && (stored.Some? ==> Compatible(stored.value, request))
    && ((stored.Some? && stored.value.status.Ready?)
        || ((stored.Some? ==> stored.value.status.Preparing?)
            && Fits(config, usage, k, request) && upload.staged && Matches(upload, request) && upload.leaseHeld))
  }

  /** Why an upload is refused, in the order in which it is looked at. */
  function RefusalOf(config: Config, ms: Manifests, data: Contents, usage: Usage, k: Key, request: Manifest,
          upload: Upload, now: int): Error {
    var stored := Stored(ms, data, k, now);
    if !Uploadable(request) then Invalid
    else if upload.cancelled then Cancelled
    else if stored.Some? && !(Compatible(stored.value, request) && stored.value.status.Preparing?) then Invalid
    else UploadRefusal(config, usage, k, request, upload)
  }

  function UploadRefusal(config: Config, usage: Usage, k: Key, request: Manifest, upload: Upload): Error {
    if !Fits(config, usage, k, request) then Quota
    else if !upload.staged then Io
    else if !Matches(upload, request) then Invalid
    else LeaseLost
  }

  /** The two manifests say different things of one artifact. */
  predicate Contradict(a: Manifest, b: Manifest) {
    || a.identity != b.identity
    || (a.mediaType != "" && b.mediaType != "" && a.mediaType != b.mediaType)
    || (a.size != 0 && b.size != 0 && a.size != b.size)
    || (a.digest != "" && b.digest != "" && a.digest != b.digest)
  }

  /** The quotas that a further `size` bytes would exceed. */
  predicate Overdrawn(config: Config, usage: Usage, k: Key, instance: Instance, size: nat) {
    || usage.total + size > config.totalMax
    || At(usage.sessions, k.session) + size > config.sessionMax
    || At(usage.instances, instance) + size > config.instanceMax
  }

  /** Exactly when an upload is accepted: its own fields are in order, nothing stored
      contradicts it, and the artifact is ready already, or not stored or still being
      prepared, and the body is within the quotas and is the one declared. */
  lemma AcceptsExactly(config: Config, ms: Manifests, data: Contents, usage: Usage, k: Key, request: Manifest,
          upload: Upload, now: int)
    ensures Accepts(config, ms, data, usage, k, request, upload, now) <==>
      && 0 < request.size <= 26_214_400 && request.digest != "" && request.mediaType != ""
      && request.status == Preparing && !upload.cancelled
      && (k in ms ==> !Contradict(ms[k], request))
      && (|| (k in ms && Present(ms[k], ContentOf(data, k), now))
          || (&& (k in ms ==> ms[k].status == Preparing)
              && !Overdrawn(config, usage, k, request.identity.instance, request.size)
              && upload.staged && upload.written == request.size && upload.digest == request.digest
              && upload.leaseHeld))
  {
  }

  /** Each refusal of an upload has the reason it names. */
  lemma RefusalIsTrue(config: Config, ms: Manifests, data: Contents, usage: Usage, k: Key, request: Manifest,
          upload: Upload, now: int)
    requires !Accepts(config, ms, data, usage, k, request, upload, now)
    ensures
      var r := RefusalOf(config, ms, data, usage, k, request, upload, now);
      && r in {Invalid, Cancelled, Quota, Io, LeaseLost}
      && (r == Cancelled ==> upload.cancelled)
      && (r == Quota ==> Overdrawn(config, usage, k, request.identity.instance, request.size))
      && (r == Io ==> !upload.staged)
      && (r == LeaseLost ==> !upload.leaseHeld)
      && (r == Invalid ==>
           || request.size == 0 || request.size > 26_214_400 || request.digest == "" || request.mediaType == ""
           || request.status != Preparing
           || (k in ms && (Contradict(ms[k], request) || ms[k].status != Preparing))
           || upload.written != request.size || upload.digest != request.digest)
  {
  }

  /** What is published: the declared content, dated by the stored manifest if there is
      one, kept for the configured time from then on. */
  lemma PublishedIs(request: Manifest, existing: Option<Manifest>, config: Config, now: int)
    ensures
      var m := Published(request, existing, config, now);
      && m.status == Ready && m.error == "" && m.identity == request.identity
      && m.size == request.size && m.digest == request.digest && m.mediaType == request.mediaType
      && (existing.Some? ==> m.createdAt == existing.value.createdAt)
      && (existing.None? ==> m.createdAt == if request.createdAt == 0 then now else request.createdAt)
      && m.expiresAt == Some(m.createdAt + config.retention)
  {
  }

  /** What the store is asked to do, and what may happen to its files meanwhile. */
  datatype Call =
    | Get(key: Key, now: int)
    | Put(key: Key, request: Manifest, upload: Upload, now: int)
    | Record(key: Key, report: Manifest, now: int)
    | Reconcile(now: int, stale: set<Key>)
    | DeleteArtifact(id: nat, now: int, stale: set<Key>)
    | Disturb(data: Contents)

  datatype Answer = Answered(result: Result) | Scanned(ok: bool) | Disturbed

  /** The call could not read or write what it had to. */
  predicate DiskFailed(a: Answer) {
    a == Answered(Err(Io)) || a == Scanned(false)
  }

  /** Whatever is ready after a call and was not so before was put by it: with a body that
      was staged and has exactly the size and digest of the manifest, under the lease. */
  predicate ReadiedBy(call: Call, before: Manifests, after: Manifests) {
    forall k :: k in after && after[k].status.Ready? && (k in before ==> before[k] != after[k]) ==>
      && call.Put? && call.key == k
      && call.upload.staged && call.upload.leaseHeld && !call.upload.cancelled
      && call.upload.written == after[k].size && call.upload.digest == after[k].digest
      && 0 < after[k].size <= 26_214_400 && after[k].digest != ""
  }

  /** What one call does to the manifests and the index. */
  ghost predicate Served(config: Config, call: Call, answer: Answer, a: Snapshot, b: Snapshot) {
    && Evolves(a.manifests, b.manifests)
    && ReadiedBy(call, a.manifests, b.manifests)
    && (!DiskFailed(answer) && Exact(a.usage, a.manifests) ==> Permitted(config, a, b))
    && (call.Reconcile? && !DiskFailed(answer) ==> Exact(b.usage, b.manifests))
  }

  /** The answer to a call, given the manifests, content files and index it finds:
      it is determined except for failures of the disk. */
  predicate AnswerIs(config: Config, call: Call, answer: Answer, ms: Manifests, data: Contents, usage: Usage) {
    match call
    case Get(k, now) =>
      DiskFailed(answer) ||
      answer == Answered(if k in ms then Ok(Looked(ms[k], ContentOf(data, k), now)) else Err(NotFound))
    case Put(k, request, upload, now) =>
      && answer.Answered?
      && (answer.result.Ok? ==> answer.result.value.status.Ready?)
      && (DiskFailed(answer) || (answer.result.Ok? <==> Accepts(config, ms, data, usage, k, request, upload, now)))
    case Record(k, report, now) =>
      DiskFailed(answer) || answer == Answered(Recorded(Stored(ms, data, k, now), report, now))
    case Reconcile(_, _) => answer.Scanned?
    case DeleteArtifact(id, _, _) =>
      && answer.Answered?
      && (answer.result == Err(NotFound) ==> forall k :: k in ms ==> k.id != id)
    case Disturb(_) => answer.Disturbed?
  }

  predicate NoneFailed(answers: seq<Answer>, i: nat, j: nat)
    requires j <= |answers|
  {
    forall n :: i <= n < j ==> !DiskFailed(answers[n])
  }

  ghost predicate Within(config: Config, a: Manifests, b: Manifests) {
    forall scope :: Total(b, scope) <= Max(Total(a, scope), Limit(config, scope))
  }

  /** No artifact ever disappears or moves backwards. */
  ghost predicate NeverBackwards(states: seq<Snapshot>) {
    forall i, j :: 0 <= i <= j < |states| ==> Evolves(states[i].manifests, states[j].manifests)
  }

  /** Only `Put` makes an artifact ready, and every reconciliation that succeeds
      leaves the index exact, whatever it was before. */
  ghost predicate EachServed(config: Config, calls: seq<Call>, answers: seq<Answer>, states: seq<Snapshot>)
    requires |states| == |calls| + 1 && |answers| == |calls|
  {
    forall i :: 0 <= i < |calls| ==> Served(config, calls[i], answers[i], states[i], states[i + 1])
  }

  /** From an exact index on, as long as no call fails on the disk, the index stays
      exact and no figure that was within its quota exceeds it. */
  ghost predicate StaysExact(config: Config, answers: seq<Answer>, states: seq<Snapshot>)
    requires |states| == |answers| + 1
  {
    forall i, j :: 0 <= i <= j < |states| && NoneFailed(answers, i, j) ==>
      (Exact(states[i].usage, states[i].manifests) ==>
         Exact(states[j].usage, states[j].manifests) && Within(config, states[i].manifests, states[j].manifests))
  }

  /** What holds of the states before, between and after the calls of a run. */
  ghost predicate SoundRun(config: Config, calls: seq<Call>, answers: seq<Answer>, states: seq<Snapshot>) {
    && |states| == |calls| + 1 && |answers| == |calls|
    && NeverBackwards(states) && EachServed(config, calls, answers, states) && StaysExact(config, answers, states)
  }

  lemma NeverBackwardsExtends(states: seq<Snapshot>, next: Snapshot)
    requires |states| > 0 && NeverBackwards(states) && Evolves(states[|states| - 1].manifests, next.manifests)
    ensures NeverBackwards(states + [next])
  {
    var all := states + [next];
    forall i | 0 <= i < |all| ensures Evolves(all[i].manifests, next.manifests) {
      if i < |states| {
        EvolvesIsTransitive(states[i].manifests, states[|states| - 1].manifests, next.manifests);
      } else {
        EvolvesIsReflexive(next.manifests);
      }
    }
  }

  lemma WithinJoins(config: Config, a: Manifests, b: Manifests, c: Manifests)
    requires Within(config, a, b) && Within(config, b, c)
    ensures Within(config, a, c)
  {
    forall scope ensures Total(c, scope) <= Max(Total(a, scope), Limit(config, scope)) {
      assert Total(b, scope) <= Max(Total(a, scope), Limit(config, scope));
    }
  }

  lemma StaysExactExtends(config: Config, answers: seq<Answer>, states: seq<Snapshot>, answer: Answer, next: Snapshot)
    requires |states| == |answers| + 1 && StaysExact(config, answers, states)
    requires !DiskFailed(answer) && Exact(states[|answers|].usage, states[|answers|].manifests) ==>
      Exact(next.usage, next.manifests) && Within(config, states[|answers|].manifests, next.manifests)
    ensures StaysExact(config, answers + [answer], states + [next])
  {
    var n, all, told := |answers|, states + [next], answers + [answer];
    forall i, j | 0 <= i <= j < |all| && Exact(all[i].usage, all[i].manifests) && NoneFailed(told, i, j)
      ensures Exact(all[j].usage, all[j].manifests) && Within(config, all[i].manifests, all[j].manifests)
    {
      var m := if j <= n then j else n;
      if i <= m {
        assert NoneFailed(answers, i, m) by { assert forall x :: i <= x < m ==> told[x] == answers[x]; }
        if m < j {
          assert told[n] == answer;
          WithinJoins(config, states[i].manifests, states[n].manifests, next.manifests);
        }
      }
    }
  }

  /** One more call. */
  lemma SoundRunExtends(config: Config, calls: seq<Call>, answers: seq<Answer>, states: seq<Snapshot>,
                        call: Call, answer: Answer, next: Snapshot)
    requires SoundRun(config, calls, answers, states)
    requires Served(config, call, answer, states[|calls|], next)
    ensures SoundRun(config, calls + [call], answers + [answer], states + [next])
  {
    NeverBackwardsExtends(states, next);
    StaysExactExtends(config, answers, states, answer, next);
    var cs, told, all := calls + [call], answers + [answer], states + [next];
    forall i | 0 <= i < |cs| ensures Served(config, cs[i], told[i], all[i], all[i + 1]) {
      if i < |calls| {
        assert Served(config, calls[i], answers[i], states[i], states[i + 1]);
      }
    }
  }

  /** So from a reconciliation that succeeds on, until a call fails on the disk, the
      index is exact and every figure within its quota stays there. */
  lemma ExactFromReconcileOn(config: Config, calls: seq<Call>, answers: seq<Answer>, states: seq<Snapshot>, r: nat,
          j: nat)
    requires SoundRun(config, calls, answers, states) && r < j < |states|
    requires calls[r].Reconcile? && !DiskFailed(answers[r]) && NoneFailed(answers, r + 1, j)
    ensures Exact(states[j].usage, states[j].manifests)
    ensures forall scope :: Total(states[r + 1].manifests, scope) <= Limit(config, scope) ==>
      Total(states[j].manifests, scope) <= Limit(config, scope)
  {
    assert Served(config, calls[r], answers[r], states[r], states[r + 1]);
    assert Within(config, states[r + 1].manifests, states[j].manifests);
  }

  /** So in every run an artifact that was ready, and is not, is never ready again. */
  lemma ReadyOnce(config: Config, calls: seq<Call>, answers: seq<Answer>, states: seq<Snapshot>, k: Key, i: nat,
          j: nat, n: nat)
    requires SoundRun(config, calls, answers, states) && i < j < n < |states|
    requires k in states[i].manifests && states[i].manifests[k].status.Ready?
    ensures k in states[j].manifests && k in states[n].manifests
    ensures states[n].manifests[k].status.Ready? ==> states[j].manifests[k].status.Ready?
  {
    assert Evolves(states[i].manifests, states[j].manifests) && Evolves(states[j].manifests, states[n].manifests);
  }

  lemma LookedAdvances(m: Manifest, content: Option<nat>, now: int)
    requires Storable(m)
    ensures Storable(Looked(m, content, now)) && Advances(m, Looked(m, content, now))
  {
  }

  /** Publishing an upload that fits keeps every figure within its quota. */
  lemma PublishIsPermitted(config: Config, a: Snapshot, k: Key, m: Manifest)
    requires Exact(a.usage, a.manifests) && m.status.Ready? && Fits(config, a.usage, k, m)
    requires k in a.manifests ==> a.manifests[k].status.Preparing? && Advances(a.manifests[k], m)
    ensures Permitted(config, a, Snapshot(a.manifests[k := m], AddUsage(a.usage, k, m)))
  {
    AddKeepsExact(a.usage, a.manifests, k, m);
    forall scope ensures Total(a.manifests[k := m], scope) <= Max(Total(a.manifests, scope), Limit(config, scope)) {
      TotalUpdate(a.manifests, k, m, scope);
      assert Cached(a.usage, scope) == Total(a.manifests, scope);
    }
  }

  lemma QuietIsPermitted(config: Config, a: Snapshot, b: Snapshot)
    requires Evolves(a.manifests, b.manifests) && NothingReadied(a.manifests, b.manifests)
    requires Exact(b.usage, b.manifests)
    ensures Permitted(config, a, b)
  {
    forall scope ensures Total(b.manifests, scope) <= Total(a.manifests, scope) {
      TotalShrinks(a.manifests, b.manifests, scope);
    }
  }

  /** Whether a report leaves the stored manifest alone. */
  predicate Settles(existing: Manifest, report: Manifest) {
    existing.status.Deleted? || existing.status.Ready? || (report.status.Preparing? && !existing.status.Preparing?)
  }

  /** A report fills in what it does not know from the manifest it replaces. */
  function Filled(existing: Manifest, report: Manifest): Manifest {
    report.(createdAt := existing.createdAt,
            mediaType := if report.mediaType == "" then existing.mediaType else report.mediaType,
            size := if report.size == 0 then existing.size else report.size,
            digest := if report.digest == "" then existing.digest else report.digest)
  }

  /** The answer to a report once its own fields are in order. */
  function Amended(existing: Option<Manifest>, m: Manifest): Result {
    if existing.None? then Ok(m)
    else if !Compatible(existing.value, m) then Err(Invalid)
    else if Settles(existing.value, m) then Ok(existing.value)
    else Ok(Filled(existing.value, m))
  }

  /** The answer to a report. Content reported ready was not stored, so it is missing. */
  function Recorded(existing: Option<Manifest>, report: Manifest, now: int): Result {
    var dated := if report.createdAt == ZERO_TIME then report.(createdAt := now) else report;
    var m := if dated.status.Ready? then dated.(status := Missing, error := "not stored") else dated;
    if m.status.Deleted? || !Storable(m) then Err(Invalid) else Amended(existing, m)
  }

  /** What a report comes to: its own status, with content reported ready recorded as
      missing, unless what is stored is ready or deleted, or the report is that of an
      artifact being prepared that is beyond that. It fills in what was not known yet. */
  lemma RecordedExactly(existing: Option<Manifest>, report: Manifest, now: int)
    ensures
      var r := Recorded(existing, report, now);
      var settled := existing.Some? &&
        (existing.value.status in {Ready, Deleted} ||
         (report.status == Preparing && existing.value.status != Preparing));
      && (r.Ok? ==>
        && (settled ==> r.value == existing.value)
        && (!settled ==>
          && r.value.status == (if report.status == Ready then Missing else report.status)
          && r.value.identity == report.identity
          && (report.size != 0 ==> r.value.size == report.size)
          && (report.digest != "" ==> r.value.digest == report.digest)
          && (report.mediaType != "" ==> r.value.mediaType == report.mediaType)
          && (existing.Some? ==> r.value.createdAt == existing.value.createdAt)
          && (existing.None? ==> r.value.createdAt == if report.createdAt == 0 then now else report.createdAt)))
      && (r.Err? ==>
        && r.error == Invalid
        && (|| report.status == Deleted
            || report.size > 26_214_400 || (report.size > 0 && report.digest == "")
            || (report.status in {Rejected, Missing, Expired, Failed} && report.error == "")
            || (report.createdAt == 0 && now == 0)
            || (existing.Some? && Contradict(existing.value, report))))
  {
  }

  /** A report never takes a manifest backwards, and never makes it ready. */
  lemma AmendedAdvances(existing: Option<Manifest>, m: Manifest)
    requires Storable(m) && !m.status.Ready? && !m.status.Deleted?
    requires existing.Some? ==> Storable(existing.value)
    ensures Amended(existing, m).Ok? ==>
      var r := Amended(existing, m).value;
      && Storable(r)
      && (existing.Some? ==> Advances(existing.value, r))
      && (r.status.Ready? ==> existing == Some(r))
  {
  }

  lemma RewriteEvolves(ms: Manifests, k: Key, m: Manifest)
    requires AllStorable(ms) && Storable(m)
    requires k in ms ==> Advances(ms[k], m)
    requires m.status.Ready? ==> k in ms && m == ms[k]
    ensures AllStorable(ms[k := m]) && Evolves(ms, ms[k := m]) && NothingReadied(ms, ms[k := m])
  {
  }

  /** Whatever comes of a report, the store only moves forwards. */
  lemma AmendmentEvolves(ms: Manifests, data: Contents, k: Key, report: Manifest, now: int, r: Result, after: Manifests)
    requires AllStorable(ms) && Storable(report) && !report.status.Ready? && !report.status.Deleted?
    requires r == Err(Io) || r == Amended(Stored(ms, data, k, now), report)
    requires r.Ok? ==> after == ms[k := r.value]
    requires r.Err? ==> after == ms || (k in ms && after == ms[k := Looked(ms[k], ContentOf(data, k), now)])
    ensures AllStorable(after) && Evolves(ms, after) && NothingReadied(ms, after)
  {
    var stored := Stored(ms, data, k, now);
    if k in ms {
      LookedAdvances(ms[k], ContentOf(data, k), now);
    }
    if r.Ok? {
      AmendedAdvances(stored, report);
      RewriteEvolves(ms, k, r.value);
    } else if after != ms {
      RewriteEvolves(ms, k, stored.value);
    }
  }

  function Discarded(m: Manifest): Manifest {
    if m.status.Deleted? then m else m.(status := Deleted, error := "")
  }

  lemma DiscardEvolves(before: Manifests, reconciled: Manifests, k: Key, after: Manifests)
    requires Evolves(before, reconciled) && NothingReadied(before, reconciled) && k in reconciled
    requires after == reconciled || after == reconciled[k := Discarded(reconciled[k])]
    ensures Evolves(before, after) && NothingReadied(before, after)
  {
    assert Advances(reconciled[k], Discarded(reconciled[k]));
    EvolvesIsTransitive(before, reconciled, after);
  }

  /** The files of one session, and the rest. */
  function FilesOf(ms: Manifests, data: Contents, session: Session): set<Key> {
    set k | k in ms.Keys + data.Keys && k.session == session
  }

  function Outside<T>(files: map<Key, T>, session: Session): map<Key, T> {
    map k | k in files && k.session != session :: files[k]
  }

  /** Part of the way through a reconciliation that began with `ms0` and `data0`. */
  predicate Partway(ms0: Manifests, data0: Contents, now: int, todo: set<Key>, ms: Manifests, data: Contents) {
    && ms.Keys == ms0.Keys && todo <= ms.Keys
    && (forall k :: k in ms ==> ms[k] == if k in todo then ms0[k] else Reconciled(ms0[k], ContentOf(data0, k), now))
    && (forall k :: k in data ==> k in data0 && data[k] == data0[k])
    && (forall k :: k in data0 && (k !in ms || k in todo || ms[k].status.Ready?) ==> k in data)
  }

  lemma PartwayStep(ms0: Manifests, data0: Contents, now: int, todo: set<Key>, ms: Manifests, data: Contents, k: Key,
          left: Contents)
    requires Partway(ms0, data0, now, todo, ms, data) && k in todo
    requires
      var m := Reconciled(ms[k], ContentOf(data, k), now);
      left == data || (!m.status.Ready? && left == data - {k})
    ensures Partway(ms0, data0, now, todo - {k}, ms[k := Reconciled(ms[k], ContentOf(data, k), now)], left)
  {
    assert ContentOf(data, k) == ContentOf(data0, k);
  }

  /** The index counts the manifests already visited. */
  ghost predicate Counted(u: Usage, ms: Manifests, todo: set<Key>) {
    Exact(u, ms - todo)
  }

  lemma CountedStep(u: Usage, ms: Manifests, todo: set<Key>, k: Key, m: Manifest)
    requires Counted(u, ms, todo) && k in todo && k in ms
    ensures Counted(if m.status.Ready? then AddUsage(u, k, m) else u, ms[k := m], todo - {k})
  {
    var visited := ms - todo;
    assert ms[k := m] - (todo - {k}) == visited[k := m];
    if m.status.Ready? {
      AddKeepsExact(u, visited, k, m);
    } else {
      RewriteKeepsExact(u, visited, k, m);
    }
  }

  lemma ReconciledAdvances(m: Manifest, content: Option<nat>, now: int)
    ensures Advances(m, Reconciled(m, content, now))
    ensures Reconciled(m, content, now).status.Ready? ==> Reconciled(m, content, now) == m
  {
  }

  /** What an interrupted reconciliation leaves is still an evolution. */
  lemma PartwayEvolves(ms0: Manifests, data0: Contents, now: int, todo: set<Key>, ms: Manifests, data: Contents)
    requires Partway(ms0, data0, now, todo, ms, data)
    ensures Evolves(ms0, ms) && NothingReadied(ms0, ms)
  {
    forall k | k in ms ensures Advances(ms0[k], ms[k]) && (ms[k].status.Ready? ==> ms[k] == ms0[k]) {
      ReconciledAdvances(ms0[k], ContentOf(data0, k), now);
    }
  }

  class Store {
    const config: Config
    var manifests: Manifests
    var data: Contents
    var total: int
    var sessions: map<Session, int>
    var instances: map<Instance, int>

    function Index(): Usage
      reads this
    {
      Usage(total, sessions, instances)
    }

    function State(): Snapshot
      reads this
    {
      Snapshot(manifests, Index())
    }

    predicate Valid()
      reads this
    {
      AllStorable(manifests)
    }

    constructor (config: Config)
      ensures this.config == config && manifests == map[] && data == map[] && Valid()
      ensures Exact(Index(), manifests)
    {
      this.config := config;
      manifests, data := map[], map[];
      total, sessions, instances := 0, map[], map[];
    }

    method AddUsageLocked(k: Key, m: Manifest)
      modifies `total, `sessions, `instances
      ensures Index() == AddUsage(old(Index()), k, m)
    {
      total := total + m.size;
      sessions := sessions[k.session := At(sessions, k.session) + m.size];
      instances := instances[m.identity.instance := At(instances, m.identity.instance) + m.size];
    }

    method RemoveUsageLocked(k: Key, m: Manifest)
      modifies `total, `sessions, `instances
      ensures Index() == RemoveUsage(old(Index()), k, m)
    {
      total := Clamp(total - m.size);
      sessions := sessions[k.session := Clamp(At(sessions, k.session) - m.size)];
      instances := instances[m.identity.instance := Clamp(At(instances, m.identity.instance) - m.size)];
    }

    /** Replacing a manifest is atomic, and may fail. */
    method WriteManifest(k: Key, m: Manifest) returns (ok: bool)
      modifies `manifests
      ensures manifests == if ok then old(manifests)[k := m] else old(manifests)
    {
      ok := *;
      if ok {
        manifests := manifests[k := m];
      }
    }

    /** Removing content may fail; most callers do not look. */
    method RemoveContent(k: Key) returns (ok: bool)
      modifies `data
      ensures data == if ok then old(data) - {k} else old(data)
    {
      ok := *;
      if ok {
        data := data - {k};
      }
    }

    /** Reads one manifest; ready content that is no longer there to be read is
        taken out of the index and marked. */
    method GetLocked(k: Key, now: int) returns (r: Result)
      requires Valid()
      modifies this
      ensures Valid()
      ensures data == old(data) || data == old(data) - {k}
      ensures k !in old(manifests) ==> r == Err(NotFound) && State() == old(State()) && data == old(data)
      ensures k in old(manifests) ==> r == Err(Io) || r == Ok(Looked(old(manifests)[k], ContentOf(old(data), k), now))
      ensures r.Ok? ==> manifests == old(manifests)[k := r.value]
      ensures r.Ok? && r.value.status.Ready? ==> data == old(data)
      ensures r.Err? ==> manifests == old(manifests)
      ensures r != Err(Io) && Exact(old(Index()), old(manifests)) ==> Exact(Index(), manifests)
      ensures r.Ok? && r.value == old(manifests)[k] ==> State() == old(State()) && data == old(data)
    {
      if k !in manifests {
        return Err(NotFound);
      }
      var m := manifests[k];
      ghost var was := m;
      var changed := false;
      if m.status.Ready? && m.expiresAt.Some? && now >= m.expiresAt.value {
        var _ := RemoveContent(k);
        RemoveUsageLocked(k, m);
        m := m.(status := Expired, error := "expired");
        changed := true;
      }
      if m.status.Ready? && ContentOf(data, k) != Some(m.size) {
        var _ := RemoveContent(k);
        RemoveUsageLocked(k, m);
        m := m.(status := Missing, error := "missing");
        changed := true;
      }
      if changed {
        var ok := WriteManifest(k, m);
        if !ok {
          return Err(Io);
        }
        if Exact(old(Index()), old(manifests)) {
          RemoveKeepsExact(old(Index()), old(manifests), k, m);
        }
      }
      return Ok(m);
    }

    /** The second half of `Put`: `existing` is the manifest the upload completes. */
    method Receive(k: Key, request: Manifest, existing: Option<Manifest>, upload: Upload, now: int) returns (r: Result)
      requires Valid() && now != ZERO_TIME && Uploadable(request)
      requires existing == (if k in manifests then Some(manifests[k]) else None)
      requires existing.Some? ==> existing.value.status.Preparing? && Compatible(existing.value, request)
      modifies this
      ensures Valid()
      ensures r.Err? ==> State() == old(State())
      ensures r.Ok? ==>
        && r.value == Published(request, existing, config, now)
        && manifests == old(manifests)[k := r.value] && data == old(data)[k := upload.written]
        && Index() == AddUsage(old(Index()), k, r.value)
      ensures r.Ok? ==>
        Fits(config, old(Index()), k, request) && upload.staged && Matches(upload, request) && upload.leaseHeld
      ensures r.Err? ==> r.error == Io || r.error == UploadRefusal(config, old(Index()), k, request, upload)
      ensures r.Err? && r.error != Io ==>
        !(Fits(config, old(Index()), k, request) && upload.staged && Matches(upload, request) && upload.leaseHeld)
    {
      if !Fits(config, Index(), k, request) {
        return Err(Quota);
      }
      if !upload.staged {
        return Err(Io);
      }
      if !Matches(upload, request) {
        return Err(Invalid);
      }
      if !upload.leaseHeld {
        return Err(LeaseLost);
      }
      if * {
        return Err(Io);
      }
      var m := Published(request, existing, config, now);
      data := data[k := upload.written];
      var ok := WriteManifest(k, m);
      if !ok {
        var _ := RemoveContent(k);
        return Err(Io);
      }
      AddUsageLocked(k, m);
      return Ok(m);
    }

    /** The first half of `Put`: decides from the stored manifest whether to go on. */
    method Admit(k: Key, request: Manifest, now: int) returns (existing: Option<Manifest>, r: Option<Result>)
      requires Valid() && Uploadable(request)
      modifies this
      ensures Valid()
      ensures
        var stored := Stored(old(manifests), old(data), k, now);
        && (r == Some(Err(Io)) || r == match stored
              case None => None
              case Some(m) =>
                if !Compatible(m, request) then Some(Err(Invalid))
                else if m.status.Ready? then Some(Ok(m))
                else if m.status.Preparing? then None
                else Some(Err(Invalid)))
        && (r.None? ==> existing == stored)
      ensures r.None? || r.value.Ok? ==> State() == old(State()) && data == old(data)
      ensures
        || manifests == old(manifests)
        || (k in old(manifests)
            && manifests == old(manifests)[k := Looked(old(manifests)[k], ContentOf(old(data), k), now)])
      ensures r != Some(Err(Io)) && Exact(old(Index()), old(manifests)) ==> Exact(Index(), manifests)
    {
      existing := None;
      var current := GetLocked(k, now);
      if current.Ok? {
        if Compatible(current.value, request) && current.value.status.Ready? {
          return existing, Some(current);
        }
        if !Compatible(current.value, request) || !current.value.status.Preparing? {
          return existing, Some(Err(Invalid));
        }
        return Some(current.value), None;
      } else if current.error != NotFound {
        return existing, Some(current);
      }
      return existing, None;
    }

    /** Stores the content of one artifact. */
    method Put(k: Key, request: Manifest, upload: Upload, now: int) returns (r: Result)
      requires Valid() && now != ZERO_TIME
      modifies this
      ensures Valid()
      ensures r.Ok? ==>
        k in manifests && manifests[k] == r.value && r.value.status.Ready? && Compatible(r.value, request)
      ensures r.Ok? ==> Accepts(config, old(manifests), old(data), old(Index()), k, request, upload, now)
      ensures r.Ok? ==>
        var stored := Stored(old(manifests), old(data), k, now);
        if stored.Some? && stored.value.status.Ready? then r.value == stored.value && data == old(data)
        else r.value == Published(request, stored, config, now) && data == old(data)[k := upload.written]
      ensures r.Err? ==>
        || r.error == Io
        || r.error == RefusalOf(config, old(manifests), old(data), old(Index()), k, request, upload, now)
      ensures r.Err? && r.error != Io ==>
        !Accepts(config, old(manifests), old(data), old(Index()), k, request, upload, now)
      ensures r.Err? ==> NothingReadied(old(manifests), manifests)
      // What an upload makes ready is what was declared, staged whole, and under the lease.
      ensures r.Ok? && (k in old(manifests) ==> r.value != old(manifests)[k]) ==>
        && upload.staged && upload.leaseHeld && !upload.cancelled
        && upload.written == r.value.size == request.size && upload.digest == r.value.digest == request.digest
        && 0 < r.value.size <= 26_214_400 && r.value.digest != ""
      ensures forall j :: j != k ==>
        (j in manifests <==> j in old(manifests)) && (j in manifests ==> manifests[j] == old(manifests)[j])
      ensures Evolves(old(manifests), manifests)
      ensures r != Err(Io) && Exact(old(Index()), old(manifests)) ==> Permitted(config, old(State()), State())
    {
      if !Uploadable(request) {
        return Err(Invalid);
      }
      if upload.cancelled {
        return Err(Cancelled);
      }
      var existing, answer := Admit(k, request, now);
      if answer.Some? {
        if k in old(manifests) {
          LookedAdvances(old(manifests)[k], ContentOf(old(data), k), now);
        }
        if answer != Some(Err(Io)) && Exact(old(Index()), old(manifests)) {
          QuietIsPermitted(config, old(State()), State());
        }
        return answer.value;
      }
      r := Receive(k, request, existing, upload, now);
      if r.Ok? && Exact(old(Index()), old(manifests)) {
        PublishIsPermitted(config, old(State()), k, r.value);
      }
    }

    /** Writes a report over the stored manifest. */
    method Amend(k: Key, report: Manifest, now: int) returns (r: Result)
      requires Valid() && Storable(report) && !report.status.Ready? && !report.status.Deleted?
      modifies this
      ensures r == Err(Io) || r == Amended(Stored(old(manifests), old(data), k, now), report)
      ensures r.Ok? ==> manifests == old(manifests)[k := r.value]
      ensures r.Err? ==>
        || manifests == old(manifests)
        || (k in old(manifests)
            && manifests == old(manifests)[k := Looked(old(manifests)[k], ContentOf(old(data), k), now)])
      ensures r != Err(Io) && Exact(old(Index()), old(manifests)) ==> Exact(Index(), manifests)
    {
      var existing := GetLocked(k, now);
      var m := report;
      if existing.Ok? {
        var e := existing.value;
        if !Compatible(e, m) {
          return Err(Invalid);
        }
        if Settles(e, m) {
          return existing;
        }
        m := m.(createdAt := e.createdAt);
        if m.mediaType == "" {
          m := m.(mediaType := e.mediaType);
        }
        if m.size == 0 {
          m := m.(size := e.size);
        }
        if m.digest == "" {
          m := m.(digest := e.digest);
        }
      } else if existing.error != NotFound {
        return existing;
      }
      ghost var looked := manifests;
      var ok := WriteManifest(k, m);
      if !ok {
        return Err(Io);
      }
      if Exact(Index(), looked) {
        RewriteKeepsExact(Index(), looked, k, m);
      }
      return Ok(m);
    }

    /** Records a status the host agent reports. */
    method Record(k: Key, report: Manifest, now: int) returns (r: Result)
      requires Valid() && now != ZERO_TIME
      modifies this
      ensures Valid()
      ensures r == Err(Io) || r == Recorded(Stored(old(manifests), old(data), k, now), report, now)
      ensures r.Ok? ==> manifests == old(manifests)[k := r.value]
      ensures Evolves(old(manifests), manifests) && NothingReadied(old(manifests), manifests)
      ensures r != Err(Io) && Exact(old(Index()), old(manifests)) ==> Permitted(config, old(State()), State())
    {
      if report.status.Deleted? {
        return Err(Invalid);
      }
      var m := report;
      if m.createdAt == ZERO_TIME {
        m := m.(createdAt := now);
      }
      if m.status.Ready? {
        m := m.(status := Missing, error := "not stored");
      }
      if !Storable(m) {
        return Err(Invalid);
      }
      r := Amend(k, m, now);
      AmendmentEvolves(old(manifests), old(data), k, m, now, r, manifests);
      if r != Err(Io) && Exact(old(Index()), old(manifests)) {
        QuietIsPermitted(config, old(State()), State());
      }
    }

    /** One manifest's turn in a reconciliation. */
    method ReconcileOne(k: Key, now: int) returns (ok: bool)
      requires Valid() && k in manifests
      modifies this
      ensures Valid()
      ensures
        var m := Reconciled(old(manifests)[k], ContentOf(old(data), k), now);
        && manifests == (if ok then old(manifests)[k := m] else old(manifests))
        && Index() == (if m.status.Ready? then AddUsage(old(Index()), k, m) else old(Index()))
        && (data == old(data) || (!m.status.Ready? && data == old(data) - {k}))
    {
      var m := manifests[k];
      var changed := false;
      if m.status.Preparing? && m.createdAt <= now - GRACE {
        var _ := RemoveContent(k);
        m := m.(status := Failed, error := "timed out");
        changed := true;
      }
      if m.status.Ready? && m.expiresAt.Some? && now >= m.expiresAt.value {
        var _ := RemoveContent(k);
        m := m.(status := Expired, error := "expired");
        changed := true;
      }
      if m.status.Ready? {
        if ContentOf(data, k) != Some(m.size) {
          var _ := RemoveContent(k);
          m := m.(status := Missing, error := "missing");
          changed := true;
        } else {
          AddUsageLocked(k, m);
        }
      } else {
        var _ := RemoveContent(k);
      }
      ok := true;
      if changed {
        ok := WriteManifest(k, m);
      }
    }

    /** Visits every manifest, in any order, and rebuilds the index. */
    method ReconcileManifests(now: int) returns (ok: bool)
      requires Valid()
      modifies this
      ensures Valid() && Evolves(old(manifests), manifests) && NothingReadied(old(manifests), manifests)
      ensures ok ==> Partway(old(manifests), old(data), now, {}, manifests, data) && Exact(Index(), manifests)
    {
      total, sessions, instances := 0, map[], map[];
      var todo := manifests.Keys;
      assert manifests - todo == map[];
      while todo != {}
        invariant Valid() && Partway(old(manifests), old(data), now, todo, manifests, data)
        invariant Counted(Index(), manifests, todo)
        decreases |todo|
      {
        var k :| k in todo;
        ghost var state, content := State(), data;
        ok := ReconcileOne(k, now);
        if !ok {
          PartwayEvolves(old(manifests), old(data), now, todo, manifests, content);
          return;
        }
        PartwayStep(old(manifests), old(data), now, todo, state.manifests, content, k, data);
        CountedStep(state.usage, state.manifests, todo, k, manifests[k]);
        todo := todo - {k};
      }
      assert manifests - todo == manifests;
      PartwayEvolves(old(manifests), old(data), now, todo, manifests, data);
      return true;
    }

    /** Removes old content that has no manifest. */
    method RemoveOrphans(stale: set<Key>)
      modifies `data
      ensures forall k :: k in data ==> k in old(data) && data[k] == old(data)[k]
      ensures forall k :: k in old(data) && (k in manifests || k !in stale) ==> k in data
    {
      var todo := data.Keys;
      while todo != {}
        invariant forall k :: k in data ==> k in old(data) && data[k] == old(data)[k]
        invariant forall k :: k in old(data) && (k in manifests || k !in stale) ==> k in data
        decreases |todo|
      {
        var k :| k in todo;
        todo := todo - {k};
        if k !in manifests && k in stale {
          var _ := RemoveContent(k);
        }
      }
    }

    /** Rebuilds the index from the disk. `stale` is the set of old content files. */
    method Reconcile(now: int, stale: set<Key>) returns (ok: bool)
      requires Valid()
      modifies this
      ensures Valid() && Evolves(old(manifests), manifests) && NothingReadied(old(manifests), manifests)
      ensures ok ==> manifests == ReconciledAll(old(manifests), old(data), now)
      ensures ok ==> Swept(old(manifests), old(data), now, stale, data)
      ensures ok ==> forall k ::
        k in old(data) && (if k in manifests then manifests[k].status == Ready else k !in stale) ==>
          k in data && data[k] == old(data)[k]
      ensures ok ==> Permitted(config, old(State()), State())
    {
      ok := ReconcileManifests(now);
      if ok {
        RemoveOrphans(stale);
        QuietIsPermitted(config, old(State()), State());
      }
    }

    /** Looks an artifact up by id alone, which may be ambiguous. */
    method FindById(id: nat) returns (found: Option<Key>, ambiguous: bool)
      ensures ambiguous <==> exists j, k :: j in manifests && k in manifests && j != k && j.id == id == k.id
      ensures !ambiguous && found.None? ==> forall k :: k in manifests ==> k.id != id
      ensures !ambiguous && found.Some? ==> found.value in manifests && found.value.id == id
    {
      found, ambiguous := None, false;
      var todo := manifests.Keys;
      while todo != {}
        invariant todo <= manifests.Keys
        invariant found.None? ==> forall k :: k in manifests && k !in todo ==> k.id != id
        invariant found.Some? ==> found.value in manifests && found.value !in todo && found.value.id == id
        invariant found.Some? ==> forall k :: k in manifests && k !in todo && k.id == id ==> k == found.value
        decreases |todo|
      {
        var k :| k in todo;
        todo := todo - {k};
        if k.id == id {
          if found.Some? {
            return found, true;
          }
          found := Some(k);
        }
      }
    }

    /** Marks one artifact deleted and removes its content. */
    method Discard(k: Key) returns (r: Result)
      requires Valid() && k in manifests
      modifies this
      ensures Valid()
      ensures r == Err(Io) || r == Ok(Discarded(old(manifests)[k]))
      ensures manifests == if r.Ok? then old(manifests)[k := r.value] else old(manifests)
      ensures r.Ok? && !old(manifests)[k].status.Deleted? ==> k !in data
      ensures r.Ok? && Exact(old(Index()), old(manifests)) ==> Exact(Index(), manifests)
    {
      var m := manifests[k];
      if m.status.Deleted? {
        return Ok(m);
      }
      if m.status.Ready? {
        RemoveUsageLocked(k, m);
      }
      var ok := RemoveContent(k);
      if !ok {
        return Err(Io);
      }
      m := m.(status := Deleted, error := "");
      ok := WriteManifest(k, m);
      if !ok {
        return Err(Io);
      }
      if Exact(old(Index()), old(manifests)) {
        if old(manifests)[k].status.Ready? {
          RemoveKeepsExact(old(Index()), old(manifests), k, m);
        } else {
          RewriteKeepsExact(old(Index()), old(manifests), k, m);
        }
      }
      return Ok(m);
    }

    /** Deletes an artifact on request. Its manifest stays, for good. */
    method DeleteArtifact(id: nat, now: int, stale: set<Key>) returns (r: Result)
      requires Valid()
      modifies this
      ensures Valid() && Evolves(old(manifests), manifests) && NothingReadied(old(manifests), manifests)
      ensures r != Err(Io) ==> Permitted(config, old(State()), State())
      ensures r.Ok? ==> r.value.status.Deleted? && exists k ::
        && k in old(manifests) && k.id == id && k in manifests && manifests[k] == r.value
        && (!old(manifests)[k].status.Deleted? ==> k !in data)
        && forall j :: j in old(manifests) && j.id == id ==> j == k
      ensures r == Err(NotFound) ==> forall k :: k in old(manifests) ==> k.id != id
      ensures r == Err(Ambiguous) ==>
        exists j, k :: j in old(manifests) && k in old(manifests) && j != k && j.id == id == k.id
      ensures r.Err? ==> r.error.Io? || r.error.NotFound? || r.error.Ambiguous?
    {
      var ok := Reconcile(now, stale);
      if !ok {
        return Err(Io);
      }
      var found, ambiguous := FindById(id);
      if ambiguous {
        return Err(Ambiguous);
      }
      if found.None? {
        return Err(NotFound);
      }
      ghost var reconciled := manifests;
      r := Discard(found.value);
      DiscardEvolves(old(manifests), reconciled, found.value, manifests);
      if r.Ok? {
        QuietIsPermitted(config, old(State()), State());
      }
    }

    /** Deletes everything a session stored. A failure may leave any part of it. */
    method DeleteSession(session: Session, now: int, stale: set<Key>) returns (ok: bool)
      requires Valid()
      modifies this
      ensures Valid()
      ensures ok ==>
        || (&& manifests == ReconciledAll(Outside(old(manifests), session), Outside(old(data), session), now)
            && Exact(Index(), manifests))
        || (FilesOf(old(manifests), old(data), session) == {} && State() == old(State()) && data == old(data))
      ensures ok ==> forall k :: k in manifests || k in data ==> k.session != session
      ensures forall k :: k in old(manifests) && k.session != session ==>
        k in manifests && Advances(old(manifests)[k], manifests[k])
    {
      var all := FilesOf(manifests, data, session);
      var directoryExists: bool := *;
      assert forall k :: k in manifests.Keys + data.Keys && k.session == session ==> k in all;
      if all == {} && !directoryExists {
        return true;
      }
      var gone :| gone <= all;
      manifests, data := manifests - gone, data - gone;
      if gone != all {
        return false;
      }
      assert manifests == Outside(old(manifests), session) && data == Outside(old(data), session);
      ok := Reconcile(now, stale);
    }

    method ServeGet(k: Key, now: int) returns (answer: Answer)
      requires Valid()
      modifies this
      ensures Valid() && Served(config, Get(k, now), answer, old(State()), State())
      ensures AnswerIs(config, Get(k, now), answer, old(manifests), old(data), old(Index()))
    {
      var r := GetLocked(k, now);
      if k in old(manifests) {
        LookedAdvances(old(manifests)[k], ContentOf(old(data), k), now);
      }
      if r != Err(Io) && Exact(old(Index()), old(manifests)) {
        QuietIsPermitted(config, old(State()), State());
      }
      answer := Answered(r);
    }

    method ServePut(k: Key, request: Manifest, upload: Upload, now: int) returns (answer: Answer)
      requires Valid() && now != ZERO_TIME
      modifies this
      ensures Valid() && Served(config, Call.Put(k, request, upload, now), answer, old(State()), State())
      ensures AnswerIs(config, Call.Put(k, request, upload, now), answer, old(manifests), old(data), old(Index()))
    {
      var r := Put(k, request, upload, now);
      answer := Answered(r);
      assert ReadiedBy(Call.Put(k, request, upload, now), old(manifests), manifests);
    }

    /** Serves one call. */
    method ServeOne(call: Call) returns (answer: Answer)
      requires Valid() && (call.Put? || call.Record? ==> call.now != ZERO_TIME)
      modifies this
      ensures Valid() && Served(config, call, answer, old(State()), State())
      ensures AnswerIs(config, call, answer, old(manifests), old(data), old(Index()))
      ensures call.Disturb? ==> data == call.data
    {
      match call {
        case Get(k, now) =>
          answer := ServeGet(k, now);
        case Put(k, request, upload, now) =>
          answer := ServePut(k, request, upload, now);
        case Record(k, report, now) =>
          var r := Record(k, report, now);
          return Answered(r);
        case Reconcile(now, stale) =>
          var ok := Reconcile(now, stale);
          return Scanned(ok);
        case DeleteArtifact(id, now, stale) =>
          var r := DeleteArtifact(id, now, stale);
          return Answered(r);
        case Disturb(files) =>
          data := files;
          if Exact(Index(), manifests) {
            QuietIsPermitted(config, old(State()), State());
          }
          return Disturbed;
      }
    }

    /** Serves any sequence of calls, with writes failing and content files changing
        at any point. `states` are the states in between. */
    method Serve(calls: seq<Call>) returns (answers: seq<Answer>, ghost states: seq<Snapshot>)
      requires Valid() && forall c :: c in calls && (c.Put? || c.Record?) ==> c.now != ZERO_TIME
      modifies this
      ensures Valid() && SoundRun(config, calls, answers, states)
      ensures states[0] == old(State()) && states[|calls|] == State()
    {
      answers, states := [], [State()];
      EvolvesIsReflexive(manifests);
      for i := 0 to |calls|
        invariant Valid() && SoundRun(config, calls[..i], answers, states)
        invariant states[0] == old(State()) && states[i] == State()
      {
        assert calls[i] in calls && calls[..i + 1] == calls[..i] + [calls[i]];
        var answer := ServeOne(calls[i]);
        SoundRunExtends(config, calls[..i], answers, states, calls[i], answer, State());
        answers, states := answers + [answer], states + [State()];
      }
      assert calls[..|calls|] == calls;
    }
  }
}
