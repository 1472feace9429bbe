/** The Host Agent's side of one Hermes update: the sequence of progress
    reports, executor steps and recovery-point requests that one attempt makes,
    and the result it hands back to the control plane. */
module UpdateWorkflow {
  import opened Options

  /** Instance states as reported in a job result. A step that was cut short
      before it reached the executor reports no state at all. */
  datatype Status = Running | Stopped | Failed | Unreported

  datatype Stage = Preparing | Stopping | BackingUp | Installing | RestoringState | VerifyingVersion

  datatype ExecStep =
    | PrepareImage
    | StopInstance
    | CreateArchive
    | InstallTarget
    | StartOriginal
    | StartTarget
    | StopTarget
    | RestoreArchive
    | RestartOriginal

  /** Everything an attempt can ask of the outside world. */
  datatype Call = Report(stage: Stage) | Exec(step: ExecStep) | Download | Upload | Verify | Decrypt

  /** `Conflict` is a 409 on a progress report, `Missing` a 404 on the download
      of an existing backup, `Cut` an executor step refused locally because the
      attempt already knows it is fenced. */
  datatype Reply = Ok | Missing | Conflict | Err(status: Status) | Cut

  datatype Exchange = Exchange(call: Call, reply: Reply)

  /** Restarting the original runtime after a failure is attempted only for an
      instance that was running. */
  function Fallback(original: Status): Option<Call> {
    if original == Running then Some(Exec(StartOriginal)) else None
  }

  /** The call that may follow `call` answered by `reply`; None ends the attempt. */
  function Next(call: Call, reply: Reply, original: Status): Option<Call> {
    match call
    case Report(Preparing) => if reply.Ok? then Some(Exec(PrepareImage)) else None
    case Exec(PrepareImage) => if reply.Ok? then Some(Report(Stopping)) else None
    case Report(Stopping) => if reply.Ok? then Some(Exec(StopInstance)) else None
    case Exec(StopInstance) => if reply.Ok? then Some(Report(BackingUp)) else Fallback(original)
    case Report(BackingUp) => if reply.Ok? then Some(Download) else Fallback(original)
    case Download =>
      if reply.Ok? then Some(Report(Installing))
      else if reply.Missing? then Some(Exec(CreateArchive))
      else Fallback(original)
    case Exec(CreateArchive) => if reply.Ok? then Some(Upload) else Fallback(original)
    case Upload => if reply.Ok? then Some(Verify) else Fallback(original)
    case Verify => if reply.Ok? then Some(Decrypt) else Fallback(original)
    case Decrypt => if reply.Ok? then Some(Report(Installing)) else Fallback(original)
    case Report(Installing) => if reply.Ok? then Some(Exec(InstallTarget)) else Fallback(original)
    case Exec(InstallTarget) =>
      if reply.Ok? then Some(Report(RestoringState))
      else if reply == Err(Stopped) then Fallback(original)
      else None
    case Report(RestoringState) =>
      Some(if original == Running then Exec(StartTarget) else Report(VerifyingVersion))
    case Exec(StartTarget) => Some(if reply.Ok? then Report(VerifyingVersion) else Exec(StopTarget))
    case Exec(StopTarget) => if reply.Ok? then Some(Exec(RestoreArchive)) else None
    case Exec(RestoreArchive) => if reply.Ok? then Some(Exec(RestartOriginal)) else None
    case Exec(StartOriginal) => None
    case Exec(RestartOriginal) => None
    case Report(VerifyingVersion) => None
  }

  /** A log is well formed when every call is the one the workflow allows after
      the exchange before it. An attempt may stop after any exchange. */
  ghost predicate FollowsWorkflow(log: seq<Exchange>, original: Status) {
    && (log != [] ==> log[0].call == Report(Preparing))
    && forall i :: 0 < i < |log| ==>
      Next(log[i - 1].call, log[i - 1].reply, original) == Some(log[i].call)
  }

  /** Some progress report was answered 409. */
  ghost predicate Refused(log: seq<Exchange>) {
    exists i :: 0 <= i < |log| && log[i].reply.Conflict?
  }

  /** The two steps whose failure leaves the run state unknown: stopping the
      instance, and starting the target runtime. */
  predicate Unsure(x: Exchange) {
    x.call in {Exec(StopInstance), Exec(StartTarget)} && !x.reply.Ok?
  }

  /** A failed install answers one of two states. */
  predicate Plain(x: Exchange) {
    x.call == Exec(InstallTarget) ==> !x.reply.Ok? && (x.reply.Err? ==> x.reply.status in {Stopped, Failed})
  }

  /** Some call of the attempt did not succeed. A download that finds no backup is
      not a failure. */
  ghost predicate SomethingFailed(log: seq<Exchange>) {
    exists i :: 0 <= i < |log| && Fails(log[i])
  }

  predicate Fails(x: Exchange) {
    !x.reply.Ok? && !(x.call == Download && x.reply.Missing?)
  }

  predicate MayFollow(log: seq<Exchange>, call: Call, original: Status) {
    if log == [] then call == Report(Preparing)
    else Next(log[|log| - 1].call, log[|log| - 1].reply, original) == Some(call)
  }

  lemma LogExtends(log: seq<Exchange>, x: Exchange, original: Status)
    requires FollowsWorkflow(log, original) && MayFollow(log, x.call, original)
    ensures FollowsWorkflow(log + [x], original)
    ensures QuietAfterBreak(log) && Steady(log) ==> QuietAfterBreak(log + [x])
    ensures Refused(log + [x]) <==> Refused(log) || x.reply.Conflict?
  {
    var longer := log + [x];
    assert longer[|log|] == x;
    assert forall i :: 0 <= i < |log| ==> longer[i] == log[i];
    assert Refused(log) ==> Refused(longer);
  }

  ghost predicate Answered(log: seq<Exchange>, call: Call, reply: Reply) {
    Exchange(call, reply) in log
  }

  ghost predicate Tried(log: seq<Exchange>, step: ExecStep) {
    exists x :: x in log && x.call == Exec(step)
  }

  ghost predicate Unsuccessful(log: seq<Exchange>, step: ExecStep) {
    exists x :: x in log && x.call == Exec(step) && !x.reply.Ok?
  }

  /** Some start of the instance, on either image, was answered with success. */
  ghost predicate Started(log: seq<Exchange>) {
    || Answered(log, Exec(StartOriginal), Ok)
    || Answered(log, Exec(RestartOriginal), Ok)
    || Answered(log, Exec(StartTarget), Ok)
  }

  /** A step that was to put the instance back failed, or the install itself did. */
  ghost predicate LeftBroken(log: seq<Exchange>) {
    || Unsuccessful(log, StartOriginal)
    || Unsuccessful(log, StopTarget)
    || Unsuccessful(log, RestoreArchive)
    || Unsuccessful(log, RestartOriginal)
    || Answered(log, Exec(InstallTarget), Err(Failed))
  }

  /** What the answers of a whole attempt make of the reported status. */
  ghost predicate StatusFits(log: seq<Exchange>, original: Status, status: Status) {
    var untouched := !Tried(log, StopInstance);
    && (status == Running <==> Started(log) || (untouched && original == Running))
    && (status == Failed <==> LeftBroken(log) || (untouched && original == Failed))
    && (status == Unreported <==> Answered(log, Exec(InstallTarget), Cut) || (untouched && original == Unreported))
  }

  /** An answer that ends the attempt: a 409, or a local refusal. */
  predicate Broken(r: Reply) {
    r.Conflict? || r.Cut?
  }

  /** No call of any kind comes after such an answer. */
  ghost predicate QuietAfterBreak(log: seq<Exchange>) {
    forall i :: 0 <= i < |log| - 1 ==> !Broken(log[i].reply)
  }

  predicate Steady(log: seq<Exchange>) {
    log != [] ==> !Broken(log[|log| - 1].reply)
  }

  /** The workflow has no further call. */
  predicate AtEnd(log: seq<Exchange>, original: Status) {
    log != [] && Next(log[|log| - 1].call, log[|log| - 1].reply, original).None?
  }

  /** An instance that was running is not left behind: if it was touched, and the
      target was not installed, starting it again was tried; if the target was
      installed and did not start, stopping it for a rollback was. */
  ghost predicate NotAbandoned(log: seq<Exchange>, original: Status) {
    && (original == Running && Tried(log, StopInstance) && !Tried(log, InstallTarget) ==> Tried(log, StartOriginal))
    && (original == Running && Answered(log, Exec(InstallTarget), Err(Stopped)) ==> Tried(log, StartOriginal))
    && (Unsuccessful(log, StartTarget) ==> Tried(log, StopTarget))
  }

  /** How far into the workflow a call is. */
  function Depth(call: Call): nat {
    match call
    case Report(Preparing) => 0
    case Exec(PrepareImage) => 1
    case Report(Stopping) => 2
    case Exec(StopInstance) => 3
    case Report(BackingUp) => 4
    case Download => 5
    case Exec(CreateArchive) => 6
    case Upload => 7
    case Verify => 8
    case Decrypt => 9
    case Report(Installing) => 10
    case Exec(InstallTarget) => 11
    case Exec(StartOriginal) => 12
    case Report(RestoringState) => 13
    case Exec(StartTarget) => 14
    case Exec(StopTarget) => 15
    case Exec(RestoreArchive) => 16
    case Exec(RestartOriginal) => 17
    case Report(VerifyingVersion) => 18
  }

  lemma NextIsDeeper(call: Call, reply: Reply, original: Status)
    ensures Next(call, reply, original).Some? ==> Depth(call) < Depth(Next(call, reply, original).value)
  {
  }

  /** An attempt only goes deeper, so it makes no call twice and ends. */
  lemma {:induction false} OnlyDeeper(log: seq<Exchange>, original: Status, i: nat, j: nat)
    requires FollowsWorkflow(log, original) && i < j < |log|
    ensures Depth(log[i].call) < Depth(log[j].call)
    decreases j - i
  {
    NextIsDeeper(log[j - 1].call, log[j - 1].reply, original);
    if i < j - 1 {
      OnlyDeeper(log, original, i, j - 1);
    }
  }

  /** `x` came before an exchange of that depth, and so did what follows on it. */
  predicate Precedes(x: Exchange, depth: nat, original: Status) {
    var next := Next(x.call, x.reply, original);
    Depth(x.call) < depth && next.Some? && Depth(next.value) <= depth
  }

  /** The last exchange is deeper than all the rest, which the workflow went on from. */
  lemma LastIsDeepest(log: seq<Exchange>, original: Status)
    requires FollowsWorkflow(log, original) && log != []
    ensures forall x :: x in log ==> x == log[|log| - 1] || Precedes(x, Depth(log[|log| - 1].call), original)
  {
    var last := |log| - 1;
    forall x | x in log ensures x == log[last] || Precedes(x, Depth(log[last].call), original) {
      var i :| 0 <= i < |log| && log[i] == x;
      if i < last {
        OnlyDeeper(log, original, i, last);
        assert Next(log[i].call, log[i].reply, original) == Some(log[i + 1].call);
        if i + 1 < last {
          OnlyDeeper(log, original, i + 1, last);
        }
      }
    }
  }

  /** An attempt stops the instance only with the target image ready and after two
      accepted reports. */
  lemma StopFollowsPrepare(log: seq<Exchange>, original: Status, i: nat)
    requires FollowsWorkflow(log, original) && i < |log| && log[i].call == Exec(StopInstance)
    ensures i == 3 && log[..3] ==
      [Exchange(Report(Preparing), Ok), Exchange(Exec(PrepareImage), Ok), Exchange(Report(Stopping), Ok)]
  {
    assert Next(log[i - 1].call, log[i - 1].reply, original) == Some(log[i].call);
    assert Next(log[i - 2].call, log[i - 2].reply, original) == Some(log[i - 1].call);
    assert Next(log[i - 3].call, log[i - 3].reply, original) == Some(log[i - 2].call);
    if i > 3 {
      OnlyDeeper(log, original, 0, i - 3);
    }
  }

  /** An attempt archives the instance only after it has stopped it, and after the
      control plane was found to have no backup. */
  lemma CaptureFollowsStop(log: seq<Exchange>, original: Status, i: nat)
    requires FollowsWorkflow(log, original) && i < |log| && log[i].call == Exec(CreateArchive)
    ensures i >= 3 && log[i - 1] == Exchange(Download, Missing) && log[i - 3] == Exchange(Exec(StopInstance), Ok)
  {
    assert Next(log[i - 1].call, log[i - 1].reply, original) == Some(log[i].call);
    assert Next(log[i - 2].call, log[i - 2].reply, original) == Some(log[i - 1].call);
    assert Next(log[i - 3].call, log[i - 3].reply, original) == Some(log[i - 2].call);
  }

  /** An attempt installs the target only with a backup in hand: one the control
      plane had, or its own, uploaded, verified and decrypted. */
  lemma InstallFollowsBackup(log: seq<Exchange>, original: Status, i: nat)
    requires FollowsWorkflow(log, original) && i < |log| && log[i].call == Exec(InstallTarget)
    ensures i >= 2 && log[i - 1] == Exchange(Report(Installing), Ok)
    ensures log[i - 2] == Exchange(Download, Ok) ||
      (i >= 5 && log[i - 2] == Exchange(Decrypt, Ok) && log[i - 3] == Exchange(Verify, Ok) &&
        log[i - 4] == Exchange(Upload, Ok))
  {
    assert Next(log[i - 1].call, log[i - 1].reply, original) == Some(log[i].call);
    assert Next(log[i - 2].call, log[i - 2].reply, original) == Some(log[i - 1].call);
    if log[i - 2].call == Decrypt {
      assert Next(log[i - 3].call, log[i - 3].reply, original) == Some(log[i - 2].call);
      assert Next(log[i - 4].call, log[i - 4].reply, original) == Some(log[i - 3].call);
    }
  }

  /** So every call from the install on, through any start, stop or rollback, comes
      after a backup that the control plane had, or verified for this attempt. */
  lemma {:induction false} TouchFollowsBackup(log: seq<Exchange>, original: Status, i: nat) returns (j: nat)
    requires FollowsWorkflow(log, original) && i < |log|
    requires Depth(log[i].call) >= Depth(Exec(InstallTarget)) && log[i].call != Exec(StartOriginal)
    ensures j < i && (log[j] == Exchange(Download, Ok) ||
      (j >= 1 && log[j] == Exchange(Decrypt, Ok) && log[j - 1] == Exchange(Verify, Ok)))
    decreases i
  {
    if log[i].call == Exec(InstallTarget) {
      InstallFollowsBackup(log, original, i);
      j := i - 2;
    } else {
      assert Next(log[i - 1].call, log[i - 1].reply, original) == Some(log[i].call);
      j := TouchFollowsBackup(log, original, i - 1);
    }
  }

  /** It puts the backup back only after an installed target did not start and was
      stopped again. */
  lemma RollbackFollowsFailedStart(log: seq<Exchange>, original: Status, i: nat)
    requires FollowsWorkflow(log, original) && i < |log| && log[i].call == Exec(RestoreArchive)
    ensures i >= 4 && log[i - 1] == Exchange(Exec(StopTarget), Ok)
    ensures log[i - 2].call == Exec(StartTarget) && !log[i - 2].reply.Ok?
    ensures log[i - 4] == Exchange(Exec(InstallTarget), Ok)
  {
    assert Next(log[i - 1].call, log[i - 1].reply, original) == Some(log[i].call);
    assert Next(log[i - 2].call, log[i - 2].reply, original) == Some(log[i - 1].call);
    assert Next(log[i - 3].call, log[i - 3].reply, original) == Some(log[i - 2].call);
    assert Next(log[i - 4].call, log[i - 4].reply, original) == Some(log[i - 3].call);
  }

  datatype Image = OriginalImage | TargetImage

  /** `imageID` is the installed image reported to the control plane, if any. */
  datatype JobResult = JobResult(success: bool, status: Status, imageID: Option<Image>)

  /** The status an attempt reports if its last exchange is `x`. */
  function StatusAfter(x: Exchange, original: Status): Status {
    match x.call
    case Exec(InstallTarget) => if x.reply.Err? then x.reply.status else if x.reply.Cut? then Unreported else Stopped
    case Exec(StartOriginal) => if x.reply.Ok? then Running else Failed
    case Exec(StopTarget) => if x.reply.Ok? then Stopped else Failed
    case Exec(RestoreArchive) => if x.reply.Ok? then Stopped else Failed
    case Exec(RestartOriginal) => if x.reply.Ok? then Running else Failed
    case Exec(StartTarget) => if x.reply.Ok? then Running else Stopped
    case Report(VerifyingVersion) => if original == Running then Running else Stopped
    case _ => if Depth(x.call) < Depth(Exec(StopInstance)) then original else Stopped
  }

  /** The target image is installed and no rollback has begun. */
  predicate KeepsTarget(x: Exchange) {
    x.call in {Report(RestoringState), Exec(StartTarget), Report(VerifyingVersion)}
  }

  /** The result of an attempt whose last exchange is `x`. */
  function ResultAfter(x: Exchange, original: Status, early: bool): JobResult {
    JobResult(x.call == Report(VerifyingVersion) && !early, StatusAfter(x, original),
              if KeepsTarget(x) then Some(TargetImage) else None)
  }

  /** Deep in the workflow the instance has been stopped, the target been installed,
      and, once a rollback begins, its start has failed. */
  lemma {:induction false} Passed(log: seq<Exchange>, original: Status, i: nat)
    requires FollowsWorkflow(log, original) && i < |log|
    ensures Depth(log[i].call) >= Depth(Exec(StopInstance)) ==> Tried(log, StopInstance)
    ensures Depth(log[i].call) > Depth(Exec(StartOriginal)) ==> Answered(log, Exec(InstallTarget), Ok)
    ensures Depth(Exec(StopTarget)) <= Depth(log[i].call) <= Depth(Exec(RestartOriginal)) ==>
      original == Running && Tried(log, StopTarget) && Unsuccessful(log, StartTarget)
    ensures Depth(log[i].call) == Depth(Exec(StartTarget)) ==> original == Running
  {
    assert log[i] in log;
    if i > 0 {
      Passed(log, original, i - 1);
      assert Next(log[i - 1].call, log[i - 1].reply, original) == Some(log[i].call);
    }
  }

  /** No call has two answers. */
  lemma OneAnswer(log: seq<Exchange>, original: Status, x: Exchange, y: Exchange)
    requires FollowsWorkflow(log, original) && x in log && y in log && x.call == y.call
    ensures x == y
  {
    var i :| 0 <= i < |log| && log[i] == x;
    var j :| 0 <= j < |log| && log[j] == y;
    if i < j {
      OnlyDeeper(log, original, i, j);
    } else if j < i {
      OnlyDeeper(log, original, j, i);
    }
  }

  lemma OnlyToVerifying(x: Exchange, original: Status)
    requires Next(x.call, x.reply, original) == Some(Report(VerifyingVersion))
    ensures x == Exchange(Exec(StartTarget), Ok) || (x.call == Report(RestoringState) && original != Running)
  {
  }

  lemma WentOn(log: seq<Exchange>, original: Status, x: Exchange)
    requires FollowsWorkflow(log, original) && AtEnd(log, original) && x in log
    requires Next(x.call, x.reply, original).Some?
    ensures Depth(Next(x.call, x.reply, original).value) <= Depth(log[|log| - 1].call)
  {
    LastIsDeepest(log, original);
  }

  /** A last report on the version came right after the start, or in its place. */
  lemma BeforeVerifying(log: seq<Exchange>, original: Status)
    requires FollowsWorkflow(log, original) && log != [] && log[|log| - 1].call == Report(VerifyingVersion)
    ensures !Tried(log, StopTarget) && !Tried(log, StartOriginal) && !Tried(log, RestartOriginal)
    ensures original == Running <==> Answered(log, Exec(StartTarget), Ok)
  {
    var x := log[|log| - 2];
    assert Next(x.call, x.reply, original) == Some(log[|log| - 1].call);
    OnlyToVerifying(x, original);
    LastButOne(log, original);
    assert x in log;
    if x.call == Exec(StartTarget) {
      Passed(log, original, |log| - 2);
    }
  }

  lemma LastButOne(log: seq<Exchange>, original: Status)
    requires FollowsWorkflow(log, original) && |log| >= 2
    ensures
      var x := log[|log| - 2];
      forall y :: y in log ==> y == log[|log| - 1] || y == x || Precedes(y, Depth(x.call), original)
  {
    var before := log[..|log| - 1];
    LastIsDeepest(before, original);
    assert forall y :: y in log ==> y in before || y == log[|log| - 1];
  }

  lemma StartedOfLast(log: seq<Exchange>, original: Status)
    requires FollowsWorkflow(log, original) && log != []
    ensures
      var last := log[|log| - 1];
      Started(log) <==>
        || (last.call in {Exec(StartOriginal), Exec(RestartOriginal), Exec(StartTarget)} && last.reply.Ok?)
        || (last.call == Report(VerifyingVersion) && original == Running)
  {
    var last := log[|log| - 1];
    assert last in log;
    LastIsDeepest(log, original);
    if last.call == Report(VerifyingVersion) {
      BeforeVerifying(log, original);
    }
  }

  lemma BrokenOfLast(log: seq<Exchange>, original: Status)
    requires FollowsWorkflow(log, original) && log != []
    ensures
      var last := log[|log| - 1];
      && (LeftBroken(log) <==>
           || (last.call in {Exec(StartOriginal), Exec(StopTarget), Exec(RestoreArchive), Exec(RestartOriginal)}
               && !last.reply.Ok?)
           || last == Exchange(Exec(InstallTarget), Err(Failed)))
      && (Answered(log, Exec(InstallTarget), Cut) <==> last == Exchange(Exec(InstallTarget), Cut))
  {
    assert log[|log| - 1] in log;
    LastIsDeepest(log, original);
  }

  /** What the last answer says about the status agrees with all the answers. */
  lemma StatusOfLast(log: seq<Exchange>, original: Status)
    requires FollowsWorkflow(log, original) && log != [] && Plain(log[|log| - 1])
    ensures StatusFits(log, original, StatusAfter(log[|log| - 1], original))
  {
    var last := log[|log| - 1];
    StartedOfLast(log, original);
    BrokenOfLast(log, original);
    Passed(log, original, |log| - 1);
    if Depth(last.call) < Depth(Exec(StopInstance)) {
      LastIsDeepest(log, original);
      assert !Tried(log, StopInstance);
    }
  }

  lemma TargetNeverStarted(log: seq<Exchange>, original: Status)
    requires FollowsWorkflow(log, original) && AtEnd(log, original)
    requires Answered(log, Exec(InstallTarget), Ok) && log[|log| - 1].call != Report(VerifyingVersion)
    ensures Unsuccessful(log, StartTarget)
  {
    WentOn(log, original, Exchange(Exec(InstallTarget), Ok));
    Passed(log, original, |log| - 1);
  }

  lemma TouchedIsStarted(log: seq<Exchange>, original: Status)
    requires FollowsWorkflow(log, original) && AtEnd(log, original)
    requires original == Running && Tried(log, StopInstance) && !Tried(log, InstallTarget)
    ensures Tried(log, StartOriginal)
  {
    assert log[|log| - 1] in log;
    LastIsDeepest(log, original);
    Passed(log, original, |log| - 1);
  }

  /** At the end of the workflow everything has been tried that puts the instance back. */
  lemma EndIsNotAbandoned(log: seq<Exchange>, original: Status)
    requires FollowsWorkflow(log, original) && AtEnd(log, original)
    ensures NotAbandoned(log, original)
  {
    if original == Running && Tried(log, StopInstance) && !Tried(log, InstallTarget) {
      TouchedIsStarted(log, original);
    }
    if original == Running && Answered(log, Exec(InstallTarget), Err(Stopped)) {
      StartsAgain(log, original);
    }
    if Unsuccessful(log, StartTarget) {
      StopsForRollback(log, original);
    }
  }

  lemma StartsAgain(log: seq<Exchange>, original: Status)
    requires FollowsWorkflow(log, original) && AtEnd(log, original) && original == Running
    requires Answered(log, Exec(InstallTarget), Err(Stopped))
    ensures Tried(log, StartOriginal)
  {
    var last := log[|log| - 1];
    assert last in log;
    WentOn(log, original, Exchange(Exec(InstallTarget), Err(Stopped)));
    Passed(log, original, |log| - 1);
    if Answered(log, Exec(InstallTarget), Ok) {
      OneAnswer(log, original, Exchange(Exec(InstallTarget), Ok), Exchange(Exec(InstallTarget), Err(Stopped)));
    }
  }

  lemma StopsForRollback(log: seq<Exchange>, original: Status)
    requires FollowsWorkflow(log, original) && AtEnd(log, original) && Unsuccessful(log, StartTarget)
    ensures Tried(log, StopTarget)
  {
    var x :| x in log && x.call == Exec(StartTarget) && !x.reply.Ok?;
    WentOn(log, original, x);
    Passed(log, original, |log| - 1);
    if log[|log| - 1].call == Report(VerifyingVersion) {
      BeforeVerifying(log, original);
      var i :| 0 <= i < |log| && log[i] == x;
      Passed(log, original, i);
      OneAnswer(log, original, x, Exchange(Exec(StartTarget), Ok));
    }
  }

  lemma TargetIsKept(log: seq<Exchange>, original: Status)
    requires FollowsWorkflow(log, original) && log != []
    requires log[|log| - 1] != Exchange(Exec(InstallTarget), Ok)
    ensures KeepsTarget(log[|log| - 1]) <==> Answered(log, Exec(InstallTarget), Ok) && !Tried(log, StopTarget)
  {
    LastIsDeepest(log, original);
    Passed(log, original, |log| - 1);
    if log[|log| - 1].call == Report(VerifyingVersion) {
      BeforeVerifying(log, original);
    }
  }

  /** An attempt that ends without success has had a failure. */
  lemma NoSuccess(log: seq<Exchange>, original: Status)
    requires FollowsWorkflow(log, original)
    requires Refused(log) || (AtEnd(log, original) && log[|log| - 1].call != Report(VerifyingVersion))
    ensures SomethingFailed(log)
  {
    if i :| 0 <= i < |log| && log[i].reply.Conflict? {
      assert Fails(log[i]);
    } else {
      var n := |log| - 1;
      if !Fails(log[n]) {
        assert log[n].call in {Exec(StartOriginal), Exec(RestartOriginal)};
        assert Next(log[n - 1].call, log[n - 1].reply, original) == Some(log[n].call);
        Passed(log, original, n);
        if x :| x in log && x.call == Exec(StartTarget) && !x.reply.Ok? {
          var i :| 0 <= i < |log| && log[i] == x;
          assert Fails(log[i]);
        } else {
          assert Fails(log[n - 1]);
        }
      }
    }
  }

  /** What the result of a whole attempt says, against everything that was answered.
      `fenced` tells that the attempt was cancelled or had lost its lease. */
  lemma ResultFits(log: seq<Exchange>, original: Status, early: bool, fenced: bool)
    requires FollowsWorkflow(log, original) && log != [] && Plain(log[|log| - 1])
    requires (fenced || AtEnd(log, original)) && (early ==> fenced)
    ensures
      var result := ResultAfter(log[|log| - 1], original, early);
      && StatusFits(log, original, result.status)
      && (fenced || NotAbandoned(log, original))
      && (result.success ==> Answered(log, Exec(InstallTarget), Ok))
      && (result.imageID.Some? <==> Answered(log, Exec(InstallTarget), Ok) && !Tried(log, StopTarget))
      && (!result.success && Answered(log, Exec(InstallTarget), Ok) ==> fenced || Unsuccessful(log, StartTarget))
      && (!result.success && !fenced ==> SomethingFailed(log))
  {
    StatusOfLast(log, original);
    TargetIsKept(log, original);
    if AtEnd(log, original) {
      EndIsNotAbandoned(log, original);
      if log[|log| - 1].call != Report(VerifyingVersion) {
        NoSuccess(log, original);
        if Answered(log, Exec(InstallTarget), Ok) {
          TargetNeverStarted(log, original);
        }
      }
    }
  }

  /** The host an attempt acts on, together with what the attempt knows about
      its own lease. Each method is one exchange with an environment that may
      answer in any way its postconditions allow; those postconditions are the
      assumptions made about the executor. */
  class Attempt {
    var image: Image
    var up: bool
    var leaseLost: bool
    var cancelled: bool
    ghost var log: seq<Exchange>

    constructor(running: bool)
      ensures image == OriginalImage && up == running && !leaseLost && !cancelled && log == []
    {
      image := OriginalImage;
      up := running;
      leaseLost := false;
      cancelled := false;
      log := [];
    }

    /** Lease bookkeeping agrees with the log, which follows the workflow. */
    ghost predicate Valid(original: Status)
      reads this
    {
      FollowsWorkflow(log, original) && (leaseLost <==> Refused(log))
    }

    /** No answer so far ends the attempt. */
    ghost predicate OnCourse()
      reads this
    {
      QuietAfterBreak(log) && Steady(log)
    }

    /** The attempt has come to its end with this result. */
    ghost predicate Ended(original: Status, result: JobResult, early: bool)
      reads this
    {
      && log != [] && QuietAfterBreak(log) && Plain(log[|log| - 1])
      && result == ResultAfter(log[|log| - 1], original, early)
      && (leaseLost || cancelled || AtEnd(log, original))
    }

    /** What the result says of image and run state is so. */
    ghost predicate HostAgrees(result: JobResult)
      reads this
    {
      && (result.imageID.Some? ==> image == TargetImage)
      && (result.imageID.None? && result.status in {Running, Stopped} ==> image == OriginalImage)
      && (result.status == Running ==> up)
      && (result.status == Stopped ==> !up || (log != [] && Unsure(log[|log| - 1])))
    }

    /** A step up to the install failed, leaving the original image in place. */
    ghost predicate FailedEarly()
      reads this
    {
      && log != [] && QuietAfterBreak(log) && (Steady(log) || leaseLost || cancelled)
      && Depth(Exec(StopInstance)) <= Depth(log[|log| - 1].call) <= Depth(Exec(InstallTarget))
      && Fails(log[|log| - 1])
      && (log[|log| - 1].call == Exec(InstallTarget) ==> log[|log| - 1].reply == Err(Stopped))
    }

    /** The next exchange may be `call`. */
    ghost predicate Expects(call: Call, original: Status)
      reads this
    {
      MayFollow(log, call, original)
    }

    /** Has the attempt learned that it must stop touching the host? */
    method Fenced() returns (b: bool)
      modifies `cancelled
      ensures b == (leaseLost || cancelled)
      ensures old(cancelled) ==> cancelled
    {
      var expired: bool := *;
      cancelled := cancelled || expired;
      b := leaseLost || cancelled;
    }

    method SendReport(stage: Stage, ghost original: Status) returns (ok: bool)
      requires Valid(original) && Expects(Report(stage), original)
      modifies `leaseLost, `log
      ensures Valid(original) && (old(OnCourse()) ==> QuietAfterBreak(log))
      ensures exists r: Reply ::
        ok == r.Ok? && !r.Cut? && !r.Missing? && log == old(log) + [Exchange(Report(stage), r)]
      ensures leaseLost == (old(leaseLost) || log[|log| - 1].reply.Conflict?)
    {
      var conflict: bool, accepted: bool := *, *;
      var r := if accepted then Ok else if conflict then Conflict else Err(Unreported);
      leaseLost := leaseLost || r.Conflict?;
      LogExtends(log, Exchange(Report(stage), r), original);
      log := log + [Exchange(Report(stage), r)];
      ok := r.Ok?;
    }

    /** One executor step, refused locally when the attempt is already fenced. */
    method Execute(step: ExecStep, ghost original: Status) returns (r: Reply)
      requires Valid(original) && Expects(Exec(step), original)
      modifies `cancelled, `image, `up, `log
      ensures Valid(original) && (old(OnCourse()) ==> QuietAfterBreak(log))
      ensures r in {Ok, Cut} || r.Err?
      ensures log == old(log) + [Exchange(Exec(step), r)]
      ensures old(leaseLost) || old(cancelled) ==> r.Cut?
      ensures r.Cut? ==> leaseLost || cancelled
      ensures old(cancelled) ==> cancelled
      ensures r.Cut? ==> image == old(image) && up == old(up)
      ensures step in {PrepareImage, CreateArchive} ==> image == old(image) && up == old(up)
      ensures step in {StopInstance, StopTarget} ==> image == old(image) && (r.Ok? ==> !up)
      ensures step in {StartOriginal, StartTarget, RestartOriginal} ==> image == old(image) && (r.Ok? ==> up)
      ensures step == InstallTarget && r.Ok? ==> image == TargetImage && !up
      ensures step == InstallTarget && r == Err(Stopped) ==> image == old(image) && !up
      ensures step == InstallTarget && r.Err? ==> r.status in {Stopped, Failed}
      ensures step == RestoreArchive && r.Ok? ==> image == OriginalImage && !up
    {
      var fenced := Fenced();
      if fenced {
        r := Cut;
      } else {
        var success: bool, status: Status := *, *;
        if step == InstallTarget && status != Stopped {
          status := Failed;
        }
        r := if success then Ok else Err(status);
        var anyUp: bool := *;
        match step {
          case PrepareImage =>
          case CreateArchive =>
          case StopInstance => up := if success then false else anyUp;
          case StopTarget => up := if success then false else anyUp;
          case StartOriginal => up := success || anyUp;
          case StartTarget => up := success || anyUp;
          case RestartOriginal => up := success || anyUp;
          case InstallTarget =>
            var anyImage: Image := *;
            image := if success then TargetImage else if status == Stopped then image else anyImage;
            up := !success && status != Stopped && anyUp;
          case RestoreArchive =>
            var anyImage: Image := *;
            image := if success then OriginalImage else anyImage;
            up := !success && anyUp;
        }
      }
      LogExtends(log, Exchange(Exec(step), r), original);
      log := log + [Exchange(Exec(step), r)];
    }

    /** A recovery-point request or a local decryption; none of them touches the host. */
    method Request(call: Call, ghost original: Status) returns (r: Reply)
      requires call in {Download, Upload, Verify, Decrypt}
      requires Valid(original) && Expects(call, original)
      modifies `log
      ensures Valid(original) && (old(OnCourse()) ==> QuietAfterBreak(log))
      ensures r.Ok? || r.Err? || (r.Missing? && call == Download)
      ensures log == old(log) + [Exchange(call, r)]
    {
      var ok: bool, absent: bool := *, *;
      r := if ok then Ok else if absent && call == Download then Missing else Err(Unreported);
      LogExtends(log, Exchange(call, r), original);
      log := log + [Exchange(call, r)];
    }

    /** Report state after a failure that left the original image in place. */
    method RestoreOriginalState(original: Status) returns (status: Status)
      requires Valid(original) && FailedEarly()
      modifies `cancelled, `image, `up, `log
      ensures Valid(original) && image == old(image)
      ensures Ended(original, JobResult(false, status, None), false)
      ensures original != Running || old(leaseLost) || old(cancelled) ==> status == Stopped && log == old(log)
      ensures status in {Running, Stopped, Failed}
      ensures status == Running ==> up && original == Running
      ensures status == Stopped ==> up == old(up) && log == old(log)
    {
      if original != Running {
        return Stopped;
      }
      var fenced := Fenced();
      if fenced {
        return Stopped;
      }
      var started := Execute(StartOriginal, original);
      return if started.Ok? then Running else Failed;
    }

    /** One attempt of the update workflow, call by call. `early` is set by the return
        that guards a lost lease after the last progress report. */
    method ExecuteWorkflow(original: Status) returns (result: JobResult, early: bool)
      requires log == [] && !leaseLost
      requires image == OriginalImage && up == (original == Running)
      modifies this
      ensures Valid(original) && Ended(original, result, early) && HostAgrees(result)
      ensures result.success && original == Stopped ==> !up
      ensures early ==> original !in {Running, Stopped} && (leaseLost || cancelled)
    {
      early := false;
      var done;
      result, done := PrepareAndStop(original);
      if done { return; }
      var ready := BackUp(original);
      if ready {
        ready := SendReport(Installing, original);
      }
      if !ready {
        var status := RestoreOriginalState(original);
        result := result.(status := status);
        return;
      }
      result, early := Install(original);
    }

    /** What the result of a first attempt says, and how far the attempt goes. */
    method ExecuteHermesUpdate(original: Status) returns (result: JobResult, early: bool)
      requires log == [] && !leaseLost
      requires image == OriginalImage && up == (original == Running)
      modifies this
      ensures log != [] && FollowsWorkflow(log, original) && QuietAfterBreak(log) && (leaseLost <==> Refused(log))
      // The status is the one that the answers call for, and the attempt goes on to
      // the end of the workflow unless it is fenced.
      ensures StatusFits(log, original, result.status)
      ensures leaseLost || cancelled || (AtEnd(log, original) && NotAbandoned(log, original))
      // What a successful result means.
      ensures result.success && original in {Running, Stopped} ==>
                result.status == original && up == (original == Running)
      ensures result.success ==> result.imageID == Some(TargetImage) && Answered(log, Exec(InstallTarget), Ok)
      ensures result.success ==> log[|log| - 1].call == Report(VerifyingVersion)
      ensures !result.success ==> cancelled || SomethingFailed(log)
      ensures !result.success && Answered(log, Exec(InstallTarget), Ok) ==>
                leaseLost || cancelled || Unsuccessful(log, StartTarget)
      // The image reported is the image on the host.
      ensures result.imageID.Some? <==> Answered(log, Exec(InstallTarget), Ok) && !Tried(log, StopTarget)
      ensures result.imageID.Some? ==> result.imageID == Some(TargetImage) && image == TargetImage
      ensures result.imageID.None? && result.status in {Running, Stopped} ==> image == OriginalImage
      // The run state reported is the run state of the host.
      ensures result.status == Running ==> up
      ensures result.status == Stopped ==> !up || Unsuccessful(log, StopInstance) || Unsuccessful(log, StartTarget)
      ensures early ==> original !in {Running, Stopped}
    {
      result, early := ExecuteWorkflow(original);
      assert log[|log| - 1] in log;
      ResultFits(log, original, early, leaseLost || cancelled);
      if leaseLost {
        NoSuccess(log, original);
      }
    }

    /** The target image is made ready and the instance stopped. `done` tells that
        the attempt ends here. */
    method PrepareAndStop(original: Status) returns (result: JobResult, done: bool)
      requires log == [] && !leaseLost
      requires image == OriginalImage && up == (original == Running)
      modifies `cancelled, `image, `up, `leaseLost, `log
      ensures Valid(original) && image == OriginalImage
      ensures !done ==> !up && result == JobResult(false, Stopped, None)
      ensures !done ==> Expects(Report(BackingUp), original) && OnCourse()
      ensures done ==> Ended(original, result, false) && HostAgrees(result)
    {
      result, done := JobResult(false, original, None), true;
      var reported := SendReport(Preparing, original);
      if !reported { return; }
      var prepared := Execute(PrepareImage, original);
      if !prepared.Ok? { return; }
      reported := SendReport(Stopping, original);
      if !reported { return; }
      var stopped := Execute(StopInstance, original);
      if !stopped.Ok? {
        var status := RestoreOriginalState(original);
        result := result.(status := status);
        return;
      }
      result, done := result.(status := Stopped), false;
    }

    /** A verified backup is at hand: install the target image on the stopped
        instance and bring the instance back to its original run state. */
    method Install(original: Status) returns (result: JobResult, early: bool)
      requires Valid(original) && Expects(Exec(InstallTarget), original) && OnCourse()
      requires image == OriginalImage && !up
      modifies this
      ensures Valid(original) && Ended(original, result, early) && HostAgrees(result)
      ensures result.success && original == Stopped ==> !up
      ensures early ==> original !in {Running, Stopped} && (leaseLost || cancelled)
    {
      early := false;
      var installed := Execute(InstallTarget, original);
      if !installed.Ok? {
        result := JobResult(false, if installed.Err? then installed.status else Unreported, None);
        if installed == Err(Stopped) {
          var status := RestoreOriginalState(original);
          result := result.(status := status);
        }
        return;
      }
      result, early := RestoreRunState(original);
    }

    /** The target image is installed: bring the instance back to its original
        run state, or report why that could not be done. */
    method RestoreRunState(original: Status) returns (result: JobResult, early: bool)
      requires Valid(original) && Expects(Report(RestoringState), original) && OnCourse()
      requires image == TargetImage && !up
      modifies this
      ensures Valid(original) && Ended(original, result, early) && HostAgrees(result)
      ensures result.success && original == Stopped ==> !up
      ensures early ==> original !in {Running, Stopped} && (leaseLost || cancelled)
    {
      early := false;
      result := JobResult(false, Stopped, Some(TargetImage));
      var reported := SendReport(RestoringState, original);
      if !reported {
        var fenced := Fenced();
        if fenced { return; }
      }
      if original == Running {
        var done;
        result, done := StartTargetRuntime(result);
        if done { return; }
      }
      reported := SendReport(VerifyingVersion, original);
      if !reported {
        var fenced := Fenced();
        if fenced && result.status != original {
          early := true;
          return;
        }
      }
      result := result.(success := true);
    }

    /** The instance was running: start it on the target image, or put it back as it
        was. `done` tells that the attempt ends here, without success. */
    method StartTargetRuntime(installed: JobResult) returns (result: JobResult, done: bool)
      requires Valid(Running) && Expects(Exec(StartTarget), Running) && OnCourse()
      requires log[|log| - 1].call == Report(RestoringState)
      requires image == TargetImage && !up && installed == JobResult(false, Stopped, Some(TargetImage))
      modifies `cancelled, `image, `up, `leaseLost, `log
      ensures Valid(Running)
      ensures !done ==> result == installed.(status := Running) && up && image == TargetImage
      ensures !done ==> Expects(Report(VerifyingVersion), Running) && OnCourse()
      ensures done ==> Ended(Running, result, false) && HostAgrees(result) && !result.success
    {
      result, done := installed, true;
      var fenced := Fenced();
      if fenced { return; }
      var started := Execute(StartTarget, Running);
      if !started.Ok? {
        // A fenced attempt leaves the target runtime in whatever state it is in.
        fenced := Fenced();
        if fenced { return; }
        result := RollBack(Running, result);
        return;
      }
      result, done := result.(status := Running), false;
    }

    /** Obtain a verified plaintext backup: reuse the recovery point when the
        control plane already has it, otherwise create, upload and verify one. */
    method BackUp(original: Status) returns (ready: bool)
      requires Valid(original) && Expects(Report(BackingUp), original) && OnCourse()
      modifies `cancelled, `image, `up, `leaseLost, `log
      ensures Valid(original) && image == old(image) && up == old(up)
      ensures ready ==> Expects(Report(Installing), original) && OnCourse()
      ensures !ready ==> FailedEarly()
    {
      ready := SendReport(BackingUp, original);
      if !ready { return; }
      var existing := Request(Download, original);
      if existing.Ok? || existing.Err? {
        return existing.Ok?;
      }
      ready := CreateBackUp(original);
    }

    /** Archive the stopped instance, upload the archive, have it verified, decrypt it. */
    method CreateBackUp(original: Status) returns (ready: bool)
      requires Valid(original) && Expects(Exec(CreateArchive), original) && OnCourse()
      modifies `cancelled, `image, `up, `log
      ensures Valid(original) && image == old(image) && up == old(up)
      ensures ready ==> Expects(Report(Installing), original) && OnCourse()
      ensures !ready ==> FailedEarly()
    {
      var backup := Execute(CreateArchive, original);
      if !backup.Ok? { return false; }
      ready := HandOver(original);
    }

    /** The archive is uploaded, verified and decrypted again. */
    method HandOver(original: Status) returns (ready: bool)
      requires Valid(original) && Expects(Upload, original) && OnCourse()
      modifies `log
      ensures Valid(original)
      ensures ready ==> Expects(Report(Installing), original) && OnCourse()
      ensures !ready ==> FailedEarly()
    {
      var uploaded := Request(Upload, original);
      if !uploaded.Ok? { return false; }
      var verified := Request(Verify, original);
      if !verified.Ok? { return false; }
      var decrypted := Request(Decrypt, original);
      return decrypted.Ok?;
    }

    /** The target runtime did not start: put the backup and the original runtime back. */
    method RollBack(original: Status, installed: JobResult) returns (result: JobResult)
      requires Valid(original) && Expects(Exec(StopTarget), original) && OnCourse()
      modifies `cancelled, `image, `up, `log
      ensures Valid(original) && Ended(original, result, false) && HostAgrees(result)
      ensures !result.success && result.imageID.None? && result.status in {Running, Failed}
    {
      result := installed.(success := false, status := Failed, imageID := None);
      var targetStopped := Execute(StopTarget, original);
      if !targetStopped.Ok? { return; }
      var status := RestoreBackup(original);
      result := result.(status := status);
    }

    /** The target is stopped: put the archive back and start the original runtime. */
    method RestoreBackup(original: Status) returns (status: Status)
      requires Valid(original) && Expects(Exec(RestoreArchive), original) && OnCourse()
      modifies `cancelled, `image, `up, `log
      ensures Valid(original) && Ended(original, JobResult(false, status, None), false)
      ensures status in {Running, Failed} && (status == Running ==> image == OriginalImage && up)
    {
      status := Failed;
      var restored := Execute(RestoreArchive, original);
      if !restored.Ok? { return; }
      var restarted := Execute(RestartOriginal, original);
      if !restarted.Ok? { return; }
      status := Running;
    }
  }
}
