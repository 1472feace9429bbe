/** Any number of attempts at one Hermes update job, running interleaved against
    the control plane and one host. Attempts are reclaimed, fenced and crash at
    any point; a fenced attempt may go on acting until it notices, and a request
    accepted before the fence may be carried out after it, except that an upload is
    committed only under the lease it came with. Each attempt makes the calls that
    `UpdateWorkflow.Next` allows, which is what
    `UpdateWorkflow.Attempt.ExecuteHermesUpdate` is proved to do. */
module UpdateProtocol {
  import opened Options
  import opened UpdateWorkflow

  /** Whether the instance's data may have been touched by the target release. */
  datatype Data = PreInstall | PostInstall

  /** An archive of the instance's data. Archives with the same SHA-256 hold the
      same content; any two captures may have the same SHA-256 or different ones. */
  datatype Archive = Archive(content: Data, variant: nat)

  datatype Point = Creating | Uploaded(archive: Archive) | Ready(archive: Archive) | Rejected

  /** One attempt, identified by its lease token. `call` is the call it is at,
      `busy` says the call was started and has not been answered. `local` is the
      archive it made itself, `plain` the plaintext backup it would roll back to. */
  datatype AttemptState = AttemptState(call: Option<Call>, busy: bool, local: Option<Archive>, plain: Option<Archive>)

  /** `uploads` holds the attempts whose upload was let in and is not committed. */
  datatype State = State(lease: nat, attempts: map<nat, AttemptState>, point: Point, uploads: set<nat>, data: Data)

  datatype Event =
    | Claim                                        // the lease expired; a new attempt is started
    | Halt(token: nat)                             // the attempt returns, is cancelled, or crashes
    | Answer(token: nat, reply: Reply, after: Data) // a call that is started and answered in one step
    | Start(token: nat)                            // a call that takes time is started
    | Finish(token: nat, ok: bool, after: Data, variant: nat) // and answered, or gets on
    | LateUpload(token: nat)                       // an upload let in earlier is committed, or given up
    | LateVerify                                   // a verification let in earlier, by anyone, succeeds
    | Reject                                       // the recovery point is marked failed
    | Reset                                        // the recovery point is reset for a retry

  function Initial(): State {
    State(0, map[], Creating, {}, PreInstall)
  }

  function Begin(): AttemptState {
    AttemptState(Some(Report(Preparing)), false, None, None)
  }

  /** The lease check every control-plane request starts with. */
  predicate Holds(s: State, token: nat) {
    token == s.lease && token in s.attempts
  }

  /** The end of an upload: it is committed if the point still waits for an archive
      and the upload's lease is still held. */
  function Commit(s: State, token: nat, archive: Archive): State {
    var done := s.(uploads := s.uploads - {token});
    if s.point.Creating? && Holds(s, token) then done.(point := Uploaded(archive)) else done
  }

  function MarkReady(s: State, archive: Archive): State {
    if s.point == Uploaded(archive) then s.(point := Ready(archive)) else s
  }

  /** The attempt's call is answered: it moves on as its workflow says. */
  function Advance(a: AttemptState, reply: Reply, original: Status): AttemptState
    requires a.call.Some?
  {
    a.(call := Next(a.call.value, reply, original), busy := false)
  }

  function Put(s: State, token: nat, a: AttemptState): State {
    s.(attempts := s.attempts[token := a])
  }

  /** Starting a call that takes time. The lease check of a request is this step;
      what the request then does comes later. */
  function StartCall(s: State, token: nat, a: AttemptState): Option<State>
    requires a.call.Some?
  {
    match a.call.value
    case Exec(CreateArchive) => Some(Put(s, token, a.(busy := true)))
    case Exec(InstallTarget) => Some(Put(s, token, a.(busy := true)).(data := PostInstall))
    case Upload =>
      if Holds(s, token) && a.local.Some?
      then Some(Put(s, token, a.(busy := true)).(uploads := s.uploads + {token}))
      else None
    case Verify => if Holds(s, token) && a.local.Some? then Some(Put(s, token, a.(busy := true))) else None
    case Download => if Holds(s, token) then Some(Put(s, token, a.(busy := true))) else None
    case _ => None
  }

  /** The second step of a download: what it does about the point it reads. An
      archive that is uploaded and not verified is verified first. */
  function ReadPoint(s: State, token: nat, a: AttemptState, original: Status): State
    requires a.call.Some?
  {
    match s.point
    case Creating => Put(s, token, Advance(a, Missing, original))
    case Rejected => Put(s, token, Advance(a, Err(Unreported), original))
    case Ready(archive) => Put(s, token, Advance(a.(plain := Some(archive)), Ok, original))
    case Uploaded(archive) => Put(s, token, a.(plain := Some(archive)))
  }

  /** The archive a capture makes. The holder of the lease captures undisturbed (see
      `CaptureOnlyBeforeReady`); what anyone else gets is the environment's choice. */
  function Captured(s: State, token: nat, after: Data, variant: nat): Archive {
    Archive(if Holds(s, token) then s.data else after, variant)
  }

  /** A call that was started gets on. `ok` is the environment's choice where it has one. */
  function FinishCall(s: State, token: nat, a: AttemptState, ok: bool, after: Data, variant: nat,
          original: Status): Option<State>
    requires a.call.Some?
  {
    var reply := if ok then Ok else Err(Stopped);
    match a.call.value
    case Exec(CreateArchive) =>
      var b := if ok then a.(local := Some(Captured(s, token, after, variant))) else a;
      Some(Put(s, token, Advance(b, reply, original)))
    case Exec(InstallTarget) =>
      // A refused or rolled-back installation may leave the data either way.
      Some(Put(s, token, Advance(a, reply, original)).(data := if ok then PostInstall else after))
    case Upload =>
      if a.local.None? || token !in s.uploads then None else
        var committed := Commit(s, token, a.local.value);
        var accepted := ok && PointIs(committed.point, a.local.value);
        Some(Put(committed, token, Advance(a, if accepted then Ok else Err(Unreported), original)))
    case Verify =>
      if a.local.None? then None else Some(Verified(s, token, a, a.local.value, ok, original))
    case Download =>
      if a.plain.None? then Some(ReadPoint(s, token, a, original))
      else Some(Verified(s, token, a, a.plain.value, ok, original))
    case _ => None
  }

  /** The end of a verification of `archive`. */
  function Verified(s: State, token: nat, a: AttemptState, archive: Archive, ok: bool, original: Status): State
    requires a.call.Some?
  {
    var verified := if ok then MarkReady(s, archive) else s;
    var accepted := ok && verified.point == Ready(archive);
    Put(verified, token, Advance(a, if accepted then Ok else Err(Unreported), original))
  }

  /** A call answered at once. A progress report is accepted only under the
      current lease. */
  function AnswerCall(s: State, token: nat, a: AttemptState, reply: Reply, after: Data, original: Status): Option<State>
    requires a.call.Some?
  {
    match a.call.value
    case Report(_) =>
      if reply.Missing? || reply.Cut? || (reply.Ok? && !Holds(s, token)) then None
      else Some(Put(s, token, Advance(a, reply, original)))
    case Decrypt =>
      if reply.Ok? && a.local.Some? then Some(Put(s, token, Advance(a.(plain := a.local), Ok, original)))
      else if reply.Err? then Some(Put(s, token, Advance(a, reply, original)))
      else None
    case Exec(RestoreArchive) =>
      // A completed restore puts the archived data back; a failed one may leave anything.
      if reply.Ok? && a.plain.Some?
      then Some(Put(s, token, Advance(a, Ok, original)).(data := a.plain.value.content))
      else if reply.Err? then Some(Put(s, token, Advance(a, reply, original)).(data := after))
      else if reply.Cut? then Some(Put(s, token, Advance(a, Cut, original)))
      else None
    case Exec(step) =>
      if reply.Missing? || reply.Conflict? || (reply.Ok? && step in {CreateArchive, InstallTarget}) then None
      else Some(Put(s, token, Advance(a, reply, original)).(
                  data := if step == StartTarget && !reply.Cut? then PostInstall else s.data))
    case _ =>
      // A request that is refused, or whose reply never arrives.
      if reply.Err? || reply.Conflict? then Some(Put(s, token, Advance(a, Err(Unreported), original))) else None
  }

  function Step(s: State, e: Event, original: Status): Option<State> {
    match e
    case Claim => Some(Put(s, s.lease + 1, Begin()).(lease := s.lease + 1))
    case Halt(t) =>
      if t in s.attempts then Some(Put(s, t, s.attempts[t].(call := None, busy := false))) else None
    case Answer(t, reply, after) =>
      if t in s.attempts && s.attempts[t].call.Some? && (reply.Err? || !s.attempts[t].busy)
      then AnswerCall(s, t, s.attempts[t], reply, after, original) else None
    case Start(t) =>
      if t in s.attempts && s.attempts[t].call.Some? && !s.attempts[t].busy
      then StartCall(s, t, s.attempts[t]) else None
    case Finish(t, ok, after, variant) =>
      if t in s.attempts && s.attempts[t].call.Some? && s.attempts[t].busy
      then FinishCall(s, t, s.attempts[t], ok, after, variant, original) else None
    case LateUpload(t) =>
      if t in s.uploads && t in s.attempts && s.attempts[t].local.Some?
      then Some(Commit(s, t, s.attempts[t].local.value)) else None
    case LateVerify => if s.point.Uploaded? then Some(MarkReady(s, s.point.archive)) else None
    case Reject => if s.point.Creating? || s.point.Uploaded? then Some(s.(point := Rejected)) else None
    case Reset => if s.point.Ready? then None else Some(s.(point := Creating))
  }

  /** The state after a run, if every event of it was possible. */
  function Run(events: seq<Event>, original: Status): Option<State> {
    if events == [] then Some(Initial())
    else
      var before := Run(events[..|events| - 1], original);
      if before.None? then None else Step(before.value, events[|events| - 1], original)
  }

  /** Past an accepted INSTALLING report: the attempt may change the host's image and data. */
  predicate Armed(a: AttemptState) {
    a.call.Some? && a.call.value in {
      Exec(InstallTarget), Report(RestoringState), Exec(StartTarget), Exec(StopTarget),
      Exec(RestoreArchive), Exec(RestartOriginal), Report(VerifyingVersion)}
  }

  /** Told that no backup exists, and its own archive not yet handed over. */
  predicate Capturing(a: AttemptState) {
    a.call == Some(Exec(CreateArchive)) || (a.call == Some(Upload) && !a.busy)
  }

  /** Not yet uploading. */
  predicate Early(a: AttemptState) {
    a.call.Some? && (Depth(a.call.value) < Depth(Upload) || (a.call.value == Upload && !a.busy))
  }

  predicate PointIs(point: Point, archive: Archive) {
    point == Uploaded(archive) || point == Ready(archive)
  }

  /** What each attempt knows at the call it has reached. */
  predicate AttemptInv(s: State, token: nat, a: AttemptState) {
    && 1 <= token <= s.lease
    && (a.call in {Some(Upload), Some(Verify), Some(Decrypt)} ==> a.local.Some?)
    && (Early(a) ==> token !in s.uploads)
    && (a.call == Some(Decrypt) ==> s.point == Ready(a.local.value))
    && (a.call == Some(Report(Installing)) || Armed(a) ==> a.plain.Some? && s.point == Ready(a.plain.value))
  }

  /** While the holder of the lease captures an archive the point has none, and
      nobody else can give it one. */
  predicate CaptureInv(s: State) {
    s.lease in s.attempts && Capturing(s.attempts[s.lease]) ==>
      && (s.point.Creating? || s.point.Rejected?)
      && (s.attempts[s.lease].call == Some(Upload) && s.attempts[s.lease].local.Some? ==>
            s.attempts[s.lease].local.value.content == PreInstall)
  }

  predicate ArchiveInv(s: State) {
    && (s.data == PostInstall ==> s.point.Ready?)
    && (s.point.Uploaded? || s.point.Ready? ==> s.point.archive.content == PreInstall)
    && (forall t :: t in s.uploads ==>
          t in s.attempts && s.attempts[t].local.Some? && s.attempts[t].local.value.content == PreInstall)
  }

  predicate Inv(s: State) {
    && (forall t :: t in s.attempts ==> AttemptInv(s, t, s.attempts[t]))
    && ArchiveInv(s)
    && CaptureInv(s)
  }

  lemma ClaimKeepsInv(s: State)
    requires Inv(s)
    ensures Inv(Put(s, s.lease + 1, Begin()).(lease := s.lease + 1))
  {
  }

  lemma CommitKeepsInv(s: State, t: nat)
    requires Inv(s) && t in s.uploads
    ensures t in s.attempts && s.attempts[t].local.Some?
    ensures Inv(Commit(s, t, s.attempts[t].local.value))
  {
  }

  lemma MarkReadyKeepsInv(s: State, archive: Archive)
    requires Inv(s)
    ensures Inv(MarkReady(s, archive))
  {
  }

  /** Where `Next` can lead, read backwards. */
  lemma Came(a: AttemptState, reply: Reply, original: Status)
    requires a.call.Some?
    ensures
      var b := Advance(a, reply, original);
      && (Armed(b) ==> Armed(a) || (a.call == Some(Report(Installing)) && reply.Ok?))
      && (b.call == Some(Report(Installing)) ==> a.call in {Some(Download), Some(Decrypt)} && reply.Ok?)
      && (b.call == Some(Decrypt) ==> a.call == Some(Verify) && reply.Ok?)
      && (b.call == Some(Verify) ==> a.call == Some(Upload) && reply.Ok?)
      && (b.call == Some(Upload) ==> a.call == Some(Exec(CreateArchive)) && reply.Ok?)
      && (b.call == Some(Exec(CreateArchive)) ==> a.call == Some(Download) && reply.Missing?)
      && (Early(b) ==> Early(a))
      && !b.busy && b.local == a.local && b.plain == a.plain
  {
    NextIsDeeper(a.call.value, reply, original);
  }

  /** An attempt's own change of state, with nothing else changed. */
  lemma PutKeepsInv(s: State, t: nat, b: AttemptState)
    requires Inv(s) && t in s.attempts && AttemptInv(s, t, b)
    requires b.local == s.attempts[t].local
    requires Armed(b) ==> Armed(s.attempts[t]) || t == s.lease
    requires t == s.lease && Capturing(b) ==> CaptureInv(Put(s, t, b))
    ensures Inv(Put(s, t, b))
  {
  }

  /** An attempt is told `reply` and moves on; `a` may have just learned its plaintext. */
  lemma AdvanceKeepsInv(s: State, t: nat, a: AttemptState, reply: Reply, original: Status)
    requires Inv(s) && t in s.attempts && s.attempts[t].call.Some?
    requires a == s.attempts[t].(plain := a.plain)
    requires a.plain == s.attempts[t].plain || a.call.value in {Download, Decrypt}
    requires reply.Ok? ==>
      match a.call.value
      case Report(Installing) => t == s.lease
      case Exec(CreateArchive) => false
      case Verify => s.point == Ready(a.local.value)
      case Download => a.plain.Some? && s.point == Ready(a.plain.value)
      case Decrypt => a.plain == a.local
      case _ => true
    requires reply.Missing? && a.call == Some(Download) ==> s.point.Creating?
    ensures Inv(Put(s, t, Advance(a, reply, original)))
  {
    Came(a, reply, original);
    PutKeepsInv(s, t, Advance(a, reply, original));
  }

  /** A change of the host's data by an armed attempt. */
  lemma TouchKeepsInv(s: State, t: nat, data: Data)
    requires Inv(s) && t in s.attempts && Armed(s.attempts[t])
    ensures Inv(s.(data := data))
  {
  }

  lemma AnswerKeepsInv(s: State, t: nat, reply: Reply, after: Data, original: Status)
    requires Inv(s) && t in s.attempts && s.attempts[t].call.Some? && (reply.Err? || !s.attempts[t].busy)
    requires AnswerCall(s, t, s.attempts[t], reply, after, original).Some?
    ensures Inv(AnswerCall(s, t, s.attempts[t], reply, after, original).value)
  {
    var a := s.attempts[t];
    match a.call.value
    case Report(_) => AdvanceKeepsInv(s, t, a, reply, original);
    case Decrypt => AdvanceKeepsInv(s, t, if reply.Ok? then a.(plain := a.local) else a, reply, original);
    case Exec(step) =>
      if step in {RestoreArchive, StartTarget} && !reply.Cut? {
        var data := if step == StartTarget then PostInstall else if reply.Ok? then a.plain.value.content else after;
        TouchKeepsInv(s, t, data);
        AdvanceKeepsInv(s.(data := data), t, a, reply, original);
      } else {
        AdvanceKeepsInv(s, t, a, reply, original);
      }
    case _ => AdvanceKeepsInv(s, t, a, Err(Unreported), original);
  }

  lemma StartUploadKeepsInv(s: State, t: nat)
    requires Inv(s) && t in s.attempts && s.attempts[t].call == Some(Upload) && !s.attempts[t].busy
    requires Holds(s, t)
    ensures Inv(Put(s, t, s.attempts[t].(busy := true)).(uploads := s.uploads + {t}))
  {
  }

  lemma StartKeepsInv(s: State, t: nat)
    requires Inv(s) && t in s.attempts && s.attempts[t].call.Some? && !s.attempts[t].busy
    requires StartCall(s, t, s.attempts[t]).Some?
    ensures Inv(StartCall(s, t, s.attempts[t]).value)
  {
    var busy := s.attempts[t].(busy := true);
    match s.attempts[t].call.value
    case Exec(InstallTarget) =>
      TouchKeepsInv(s, t, PostInstall);
      PutKeepsInv(s.(data := PostInstall), t, busy);
    case Upload => StartUploadKeepsInv(s, t);
    case _ => PutKeepsInv(s, t, busy);
  }

  lemma FinishCreateKeepsInv(s: State, t: nat, archive: Archive, original: Status)
    requires Inv(s) && t in s.attempts && s.attempts[t].call == Some(Exec(CreateArchive))
    requires t == s.lease ==> archive.content == s.data
    ensures Inv(Put(s, t, Advance(s.attempts[t].(local := Some(archive)), Ok, original)))
  {
  }

  lemma FinishInstallKeepsInv(s: State, t: nat, reply: Reply, data: Data, original: Status)
    requires Inv(s) && t in s.attempts && s.attempts[t].call == Some(Exec(InstallTarget))
    ensures Inv(Put(s, t, Advance(s.attempts[t], reply, original)).(data := data))
  {
    TouchKeepsInv(s, t, data);
    AdvanceKeepsInv(s.(data := data), t, s.attempts[t], reply, original);
  }

  lemma ReadPointKeepsInv(s: State, t: nat, original: Status)
    requires Inv(s) && t in s.attempts && s.attempts[t].call == Some(Download)
    ensures Inv(ReadPoint(s, t, s.attempts[t], original))
  {
    var a := s.attempts[t];
    match s.point
    case Creating => AdvanceKeepsInv(s, t, a, Missing, original);
    case Rejected => AdvanceKeepsInv(s, t, a, Err(Unreported), original);
    case Ready(archive) => AdvanceKeepsInv(s, t, a.(plain := Some(archive)), Ok, original);
    case Uploaded(archive) => PutKeepsInv(s, t, a.(plain := Some(archive)));
  }

  /** Both ways a verification is answered: the attempt's own archive after an
      upload, and a published archive found by a download. */
  lemma VerifiedKeepsInv(s: State, t: nat, archive: Archive, ok: bool, original: Status)
    requires Inv(s) && t in s.attempts
    requires (s.attempts[t].call == Some(Verify) && s.attempts[t].local == Some(archive))
          || (s.attempts[t].call == Some(Download) && s.attempts[t].plain == Some(archive))
    ensures Inv(Verified(s, t, s.attempts[t], archive, ok, original))
  {
    MarkReadyKeepsInv(s, archive);
    var verified := if ok then MarkReady(s, archive) else s;
    AdvanceKeepsInv(verified, t, s.attempts[t],
      if ok && verified.point == Ready(archive) then Ok else Err(Unreported), original);
  }

  lemma FinishKeepsInv(s: State, t: nat, ok: bool, after: Data, variant: nat, original: Status)
    requires Inv(s) && t in s.attempts && s.attempts[t].call.Some? && s.attempts[t].busy
    requires FinishCall(s, t, s.attempts[t], ok, after, variant, original).Some?
    ensures Inv(FinishCall(s, t, s.attempts[t], ok, after, variant, original).value)
  {
    var a := s.attempts[t];
    match a.call.value
    case Exec(CreateArchive) =>
      if ok {
        FinishCreateKeepsInv(s, t, Captured(s, t, after, variant), original);
      } else {
        AdvanceKeepsInv(s, t, a, Err(Stopped), original);
      }
    case Exec(InstallTarget) =>
      FinishInstallKeepsInv(s, t, if ok then Ok else Err(Stopped), if ok then PostInstall else after, original);
    case Upload =>
      CommitKeepsInv(s, t);
      var committed := Commit(s, t, a.local.value);
      var accepted := ok && PointIs(committed.point, a.local.value);
      AdvanceKeepsInv(committed, t, a, if accepted then Ok else Err(Unreported), original);
    case Verify => VerifiedKeepsInv(s, t, a.local.value, ok, original);
    case Download =>
      if a.plain.None? {
        ReadPointKeepsInv(s, t, original);
      } else {
        VerifiedKeepsInv(s, t, a.plain.value, ok, original);
      }
    case _ =>
  }

  lemma StepKeepsInv(s: State, e: Event, original: Status)
    requires Inv(s) && Step(s, e, original).Some?
    ensures Inv(Step(s, e, original).value)
  {
    match e
    case Claim => ClaimKeepsInv(s);
    case Halt(t) => PutKeepsInv(s, t, s.attempts[t].(call := None, busy := false));
    case Answer(t, reply, after) => AnswerKeepsInv(s, t, reply, after, original);
    case Start(t) => StartKeepsInv(s, t);
    case Finish(t, ok, after, variant) => FinishKeepsInv(s, t, ok, after, variant, original);
    case LateUpload(t) => CommitKeepsInv(s, t);
    case LateVerify => MarkReadyKeepsInv(s, s.point.archive);
    case Reject =>
    case Reset =>
  }

  lemma {:induction false} RunKeepsInv(events: seq<Event>, original: Status)
    requires Run(events, original).Some?
    ensures Inv(Run(events, original).value)
  {
    if events != [] {
      RunKeepsInv(events[..|events| - 1], original);
      StepKeepsInv(Run(events[..|events| - 1], original).value, events[|events| - 1], original);
    }
  }

  /** The target release is installed only once the recovery point is ready, and
      then with that point's pre-install archive at hand for a rollback. This
      holds for fenced attempts too. */
  lemma InstallOnlyAfterReady(events: seq<Event>, token: nat, original: Status)
    requires Run(events + [Start(token)], original).Some?
    requires Run(events, original).Some? && token in Run(events, original).value.attempts
    requires Run(events, original).value.attempts[token].call == Some(Exec(InstallTarget))
    ensures
      var s := Run(events, original).value;
      && s.point.Ready?
      && s.attempts[token].plain == Some(s.point.archive)
      && s.point.archive.content == PreInstall
  {
    RunKeepsInv(events, original);
  }

  /** The holder of the lease starts to archive the instance only while the
      point is not ready and the data has not been touched. */
  lemma CaptureOnlyBeforeReady(events: seq<Event>, token: nat, original: Status)
    requires Run(events, original).Some? && Holds(Run(events, original).value, token)
    requires Run(events, original).value.attempts[token].call == Some(Exec(CreateArchive))
    ensures !Run(events, original).value.point.Ready? && Run(events, original).value.data == PreInstall
  {
    RunKeepsInv(events, original);
  }

  /** Whatever an update job publishes, or rolls back to, is pre-install data. */
  lemma ArchiveIsPreInstall(events: seq<Event>, archive: Archive, original: Status)
    requires Run(events, original).Some?
    requires
      var s := Run(events, original).value;
      || PointIs(s.point, archive)
      || exists t ::
        t in s.attempts && s.attempts[t].call == Some(Exec(RestoreArchive)) && s.attempts[t].plain == Some(archive)
    ensures archive.content == PreInstall
  {
    RunKeepsInv(events, original);
  }

  /** Data touched by the target release always has a ready backup behind it. */
  lemma TouchedDataHasBackup(events: seq<Event>, original: Status)
    requires Run(events, original).Some? && Run(events, original).value.data == PostInstall
    ensures Run(events, original).value.point.Ready?
    ensures Run(events, original).value.point.archive.content == PreInstall
  {
    RunKeepsInv(events, original);
  }

  /** A rollback that completes has put pre-install data back, in any run and whether
      or not its attempt still holds the lease. */
  lemma RollbackRestores(events: seq<Event>, token: nat, after: Data, original: Status)
    requires Run(events, original).Some? && token in Run(events, original).value.attempts
    requires Run(events, original).value.attempts[token].call == Some(Exec(RestoreArchive))
    requires Step(Run(events, original).value, Answer(token, Ok, after), original).Some?
    ensures Step(Run(events, original).value, Answer(token, Ok, after), original).value.data == PreInstall
  {
    RunKeepsInv(events, original);
  }

  /** A ready point stays ready, with the same archive, for the rest of the run. */
  lemma {:induction false} ReadyIsFinal(events: seq<Event>, n: nat, original: Status)
    requires n <= |events| && Run(events, original).Some?
    ensures Run(events[..n], original).Some?
    ensures Run(events[..n], original).value.point.Ready? ==>
              Run(events, original).value.point == Run(events[..n], original).value.point
    decreases |events|
  {
    if n == |events| {
      assert events[..n] == events;
    } else {
      var before := events[..|events| - 1];
      assert before[..n] == events[..n];
      ReadyIsFinal(before, n, original);
      PointAfterStep(Run(before, original).value, events[|events| - 1], original);
    }
  }

  lemma PointAfterStep(s: State, e: Event, original: Status)
    requires Step(s, e, original).Some?
    ensures s.point.Ready? ==> Step(s, e, original).value.point == s.point
  {
  }

  lemma RunExtends(events: seq<Event>, e: Event, original: Status)
    requires Run(events, original).Some?
    ensures Run(events + [e], original) == Step(Run(events, original).value, e, original)
  {
    assert (events + [e])[..|events|] == events;
  }

  /** The first `n` exchanges of an attempt, all of them successful. */
  function Accepted(token: nat, n: nat): seq<Event> {
    if n == 0 then [] else Accepted(token, n - 1) + [Answer(token, Ok, PreInstall)]
  }

  function CallAt(n: nat): Call
    requires n <= 5
  {
    [Report(Preparing), Exec(PrepareImage), Report(Stopping), Exec(StopInstance), Report(BackingUp), Download][n]
  }

  /** The newest attempt, which has nothing in hand, is at `call`. */
  function NewestAt(s: State, call: Call): State {
    Put(s, s.lease, AttemptState(Some(call), false, None, None))
  }

  lemma MoveNewest(s: State, call: Call, next: Call)
    ensures Put(NewestAt(s, call), s.lease, AttemptState(Some(next), false, None, None)) == NewestAt(s, next)
  {
    assert Put(NewestAt(s, call), s.lease, NewestAt(s, next).attempts[s.lease]).attempts == NewestAt(s, next).attempts;
  }

  lemma AcceptStep(s: State, n: nat, original: Status)
    requires n < 5
    ensures Step(NewestAt(s, CallAt(n)), Answer(s.lease, Ok, PreInstall), original) == Some(NewestAt(s, CallAt(n + 1)))
  {
    MoveNewest(s, CallAt(n), CallAt(n + 1));
  }

  lemma {:induction false} AcceptedReach(events: seq<Event>, s: State, n: nat, original: Status)
    requires n <= 5 && Run(events, original) == Some(NewestAt(s, Report(Preparing)))
    ensures Run(events + Accepted(s.lease, n), original) == Some(NewestAt(s, CallAt(n)))
  {
    if n == 0 {
      assert events + [] == events;
    } else {
      AcceptedReach(events, s, n - 1, original);
      var ok := Answer(s.lease, Ok, PreInstall);
      var before := events + Accepted(s.lease, n - 1);
      RunExtends(before, ok, original);
      AcceptStep(s, n - 1, original);
      assert events + Accepted(s.lease, n) == before + [ok];
    }
  }

  lemma ReachCapture(events: seq<Event>, s: State, original: Status) returns (extended: seq<Event>)
    requires Run(events, original) == Some(s) && s.point.Creating?
    ensures Run(extended, original) == Some(NewestAt(s.(lease := s.lease + 1), Exec(CreateArchive)))
  {
    var s' := s.(lease := s.lease + 1);
    RunExtends(events, Claim, original);
    AcceptedReach(events + [Claim], s', 5, original);
    var before := events + [Claim] + Accepted(s'.lease, 5);
    RunExtends(before, Start(s'.lease), original);
    var started := before + [Start(s'.lease)];
    var answer := Finish(s'.lease, true, PreInstall, 0);
    RunExtends(started, answer, original);
    DownloadMisses(s', original);
    extended := started + [answer];
  }

  lemma DownloadMisses(s: State, original: Status)
    requires s.point.Creating?
    ensures
      var started := Step(NewestAt(s, Download), Start(s.lease), original);
      && started.Some?
      && Step(started.value, Finish(s.lease, true, PreInstall, 0), original) == Some(NewestAt(s, Exec(CreateArchive)))
  {
    var started := Step(NewestAt(s, Download), Start(s.lease), original).value;
    var answered := Step(started, Finish(s.lease, true, PreInstall, 0), original).value;
    assert answered.attempts == NewestAt(s, Exec(CreateArchive)).attempts;
  }

  /** The holder of the lease captures, uploads or verifies undisturbed. */
  lemma Undisturbed(events: seq<Event>, s: State, original: Status) returns (extended: seq<Event>, s': State)
    requires Run(events, original) == Some(s)
    requires Holds(s, s.lease) && !s.attempts[s.lease].busy
    requires
      match s.attempts[s.lease].call
      case Some(Exec(CreateArchive)) => s.point.Creating?
      case Some(Upload) => s.point.Creating? && s.attempts[s.lease].local.Some?
      case Some(Verify) => s.attempts[s.lease].local.Some? && s.point == Uploaded(s.attempts[s.lease].local.value)
      case _ => false
    ensures Run(extended, original) == Some(s')
    ensures s'.lease == s.lease && s'.attempts.Keys == s.attempts.Keys
    ensures forall t :: t in s.attempts && t != s.lease ==> s'.attempts[t] == s.attempts[t]
    ensures s'.attempts[s.lease].call == Next(s.attempts[s.lease].call.value, Ok, original)
    ensures !s'.attempts[s.lease].busy && s'.attempts[s.lease].local.Some?
    ensures s'.point == match s.attempts[s.lease].call.value
                        case Upload => Uploaded(s'.attempts[s.lease].local.value)
                        case Verify => Ready(s'.attempts[s.lease].local.value)
                        case _ => Creating
  {
    RunExtends(events, Start(s.lease), original);
    var started := events + [Start(s.lease)];
    RunExtends(started, Finish(s.lease, true, PreInstall, 0), original);
    extended := started + [Finish(s.lease, true, PreInstall, 0)];
    s' := Run(extended, original).value;
  }

  /** The holder of the lease is at `call`, with the archive of the ready point at hand. */
  predicate HolderAt(s: State, call: Call, archive: Archive) {
    && Holds(s, s.lease) && s.point == Ready(archive) && archive.content == PreInstall
    && s.attempts[s.lease].call == Some(call) && !s.attempts[s.lease].busy
    && s.attempts[s.lease].plain == Some(archive)
  }

  /** The holder's next call is answered. */
  lemma Onward(events: seq<Event>, s: State, call: Call, reply: Reply, archive: Archive, original: Status)
    returns (extended: seq<Event>, s': State)
    requires Run(events, original) == Some(s) && HolderAt(s, call, archive)
    requires call in {Report(Installing), Report(RestoringState), Exec(StartTarget), Exec(StopTarget),
                      Exec(RestoreArchive)}
    requires reply == Ok || reply == Err(Failed)
    requires Next(call, reply, original).Some?
    ensures Run(extended, original) == Some(s') && events < extended
    ensures HolderAt(s', Next(call, reply, original).value, archive)
    ensures s'.data == if call == Exec(StartTarget) then PostInstall
                       else if call == Exec(RestoreArchive) then PreInstall else s.data
  {
    var e := Answer(s.lease, reply, PostInstall);
    RunExtends(events, e, original);
    extended, s' := events + [e], Step(s, e, original).value;
  }

  /** The target is installed by the holder. */
  lemma Installed(events: seq<Event>, s: State, archive: Archive, original: Status)
    returns (extended: seq<Event>, s': State)
    requires Run(events, original) == Some(s) && HolderAt(s, Exec(InstallTarget), archive)
    ensures Run(extended, original) == Some(s') && events < extended
    ensures HolderAt(s', Report(RestoringState), archive) && s'.data == PostInstall
  {
    RunExtends(events, Start(s.lease), original);
    var started := events + [Start(s.lease)];
    var e := Finish(s.lease, true, PostInstall, 0);
    RunExtends(started, e, original);
    extended := started + [e];
    s' := Run(extended, original).value;
  }

  /** A run that goes all the way: an attempt backs the instance up and installs the
      target, which does not start, and puts the backup back. */
  ghost predicate RollsBack(events: seq<Event>, n: nat, original: Status) {
    && n <= |events| && Run(events[..n], original).Some? && Run(events, original).Some?
    && Run(events[..n], original).value.data == PostInstall
    && var s := Run(events, original).value;
    && s.data == PreInstall && Holds(s, s.lease) && s.attempts[s.lease].call == Some(Exec(RestartOriginal))
  }

  lemma BackedUp(original: Status) returns (events: seq<Event>, s: State)
    ensures Run(events, original) == Some(s) && Holds(s, s.lease)
    ensures
      var a := s.attempts[s.lease];
      a.call == Some(Decrypt) && !a.busy && a.local.Some? && s.point == Ready(a.local.value)
  {
    assert Run([], original) == Some(Initial());
    events := ReachCapture([], Initial(), original);
    s := NewestAt(Initial().(lease := 1), Exec(CreateArchive));
    events, s := Undisturbed(events, s, original);
    events, s := Undisturbed(events, s, original);
    events, s := Undisturbed(events, s, original);
  }

  lemma Prepared(original: Status) returns (events: seq<Event>, s: State, archive: Archive)
    ensures Run(events, original) == Some(s) && HolderAt(s, Exec(InstallTarget), archive)
  {
    events, s := BackedUp(original);
    archive := s.attempts[s.lease].local.value;
    RunKeepsInv(events, original);
    var e := Answer(s.lease, Ok, PreInstall);
    RunExtends(events, e, original);
    events, s := events + [e], Step(s, e, original).value;
    events, s := Onward(events, s, Report(Installing), Ok, archive, original);
  }

  lemma RollbackIsReached()
    ensures exists events: seq<Event>, n: nat :: RollsBack(events, n, Running)
  {
    var events, s, archive := Prepared(Running);
    events, s := Installed(events, s, archive, Running);
    events, s := Onward(events, s, Report(RestoringState), Ok, archive, Running);
    events, s := Onward(events, s, Exec(StartTarget), Err(Failed), archive, Running);
    var touched := events;
    events, s := Onward(events, s, Exec(StopTarget), Ok, archive, Running);
    events, s := Onward(events, s, Exec(RestoreArchive), Ok, archive, Running);
    assert events[..|touched|] == touched;
    assert RollsBack(events, |touched|, Running);
  }

  /** A run after which an attempt that no longer holds the lease can start to
      archive the instance although the point is ready. */
  ghost predicate MayCaptureLate(events: seq<Event>, token: nat, original: Status) {
    && Run(events, original).Some?
    && var s := Run(events, original).value;
    && token in s.attempts && s.attempts[token].call == Some(Exec(CreateArchive))
    && !Holds(s, token) && s.point.Ready?
    && Step(s, Start(token), original).Some?
  }

  /** `CaptureOnlyBeforeReady` does need the lease: the first attempt is fenced
      after it was told there is no backup, the second makes the point ready, and
      the first has not noticed yet. By `ArchiveIsPreInstall` what it captures is
      never published. */
  lemma FencedAttemptMayCapture(original: Status)
    ensures exists events: seq<Event>, token: nat :: MayCaptureLate(events, token, original)
  {
    assert Run([], original) == Some(Initial());
    var e1 := ReachCapture([], Initial(), original);
    var s1 := NewestAt(Initial().(lease := 1), Exec(CreateArchive));
    var e2 := ReachCapture(e1, s1, original);
    var e3, s3 := Undisturbed(e2, NewestAt(s1.(lease := 2), Exec(CreateArchive)), original);
    var e4, s4 := Undisturbed(e3, s3, original);
    var e5, s5 := Undisturbed(e4, s4, original);
    assert MayCaptureLate(e5, 1, original);
  }

  /** A run after which an attempt that lost the lease has an archive of data that the
      target release may have touched; `ArchiveIsPreInstall` is what keeps it out. */
  ghost predicate HoldsTouchedArchive(events: seq<Event>, token: nat, original: Status) {
    && Run(events, original).Some?
    && var s := Run(events, original).value;
    && token in s.attempts && !Holds(s, token) && s.point.Ready?
    && s.attempts[token].local.Some? && s.attempts[token].local.value.content == PostInstall
  }

  lemma LateCaptureMayBeTouched(original: Status)
    ensures exists events: seq<Event>, token: nat :: HoldsTouchedArchive(events, token, original)
  {
    FencedAttemptMayCapture(original);
    var events: seq<Event>, token: nat :| MayCaptureLate(events, token, original);
    RunExtends(events, Start(token), original);
    var started := events + [Start(token)];
    RunExtends(started, Finish(token, true, PostInstall, 0), original);
    assert HoldsTouchedArchive(started + [Finish(token, true, PostInstall, 0)], token, original);
  }
}
