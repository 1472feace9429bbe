/** Controlled policy rollouts: a canary, then one instance at a time, with
    operator pause, resume and cancel, and an automatic pause after a failure.

    A reconcile pass reads the rollout's targets under its lock, but its metadata
    comes from a snapshot taken before the lock; `snapshot` below is that
    metadata, and a pass is fresh when it equals what is stored. */
module PolicyRollout {

  datatype Target = Pending | Running | Succeeded | Failed | Blocked

  datatype Control = Active | Paused | Canceling

  datatype Metadata = Metadata(control: Control, acknowledged: bool)

  datatype Operation = Open | Completed | Aborted

  /** What the store answers about the child operation of a running target. */
  datatype Child = InProgress | ChildSucceeded | ChildFailed | Unavailable

  /** The outcome of queueing a target: refused, already on the frozen release, or started. */
  datatype Queued = Refused | AlreadyCurrent | Launched

  datatype State = State(targets: seq<Target>, canary: nat, metadata: Metadata, operation: Operation)

  predicate Terminal(t: Target) {
    !t.Pending? && !t.Running?
  }

  predicate AllTerminal(targets: seq<Target>) {
    forall i :: 0 <= i < |targets| ==> Terminal(targets[i])
  }

  predicate AnyIs(targets: seq<Target>, status: Target) {
    exists i :: 0 <= i < |targets| && targets[i] == status
  }

  function Observed(t: Target, child: Child): Target {
    if !t.Running? then t
    else match child
      case InProgress => Running
      case ChildSucceeded => Succeeded
      case ChildFailed => Failed
      case Unavailable => Failed
  }

  function ChildOf(children: seq<Child>, i: nat): Child {
    if i < |children| then children[i] else InProgress
  }

  function Observe(targets: seq<Target>, children: seq<Child>): (r: seq<Target>)
    ensures |r| == |targets|
  {
    seq(|targets|, i requires 0 <= i < |targets| => Observed(targets[i], ChildOf(children, i)))
  }

  function BlockPending(targets: seq<Target>): (r: seq<Target>)
    ensures |r| == |targets|
  {
    seq(|targets|, i requires 0 <= i < |targets| => if targets[i].Pending? then Blocked else targets[i])
  }

  function AfterQueue(queued: Queued): Target {
    match queued
    case Refused => Blocked
    case AlreadyCurrent => Succeeded
    case Launched => Running
  }

  /** The first target that has not been started; |targets| if there is none. */
  function FirstPending(targets: seq<Target>): (k: nat)
    ensures k <= |targets|
    ensures k < |targets| ==> targets[k].Pending?
    ensures forall i :: 0 <= i < k ==> !targets[i].Pending?
  {
    if targets == [] || targets[0].Pending? then 0 else 1 + FirstPending(targets[1..])
  }

  /** Did some running target fail in this observation? */
  predicate FailedNow(before: seq<Target>, after: seq<Target>) {
    exists i :: 0 <= i < |before| && i < |after| && !before[i].Failed? && after[i].Failed?
  }

  /** The conditional update of the stored operation: a closed operation keeps its outcome. */
  function Close(s: State, targets: seq<Target>, snapshot: Metadata): State {
    var outcome :=
      if snapshot.control.Canceling? || AnyIs(targets, Failed) || AnyIs(targets, Blocked) then Aborted else Completed;
    s.(targets := targets, operation := if s.operation.Open? then outcome else s.operation)
  }

  function Settle(s: State, targets: seq<Target>, snapshot: Metadata): State {
    if AllTerminal(targets) then Close(s, targets, snapshot) else s.(targets := targets)
  }

  /** An automatic pause applies when a target is still pending; the store
      accepts it only while the stored control is active. */
  predicate PauseApplies(targets: seq<Target>, snapshot: Metadata) {
    AnyIs(targets, Pending) && snapshot.control.Active?
  }

  function AutoPause(s: State, targets: seq<Target>): State {
    if s.metadata.control.Active? && s.operation.Open?
    then s.(targets := targets, metadata := Metadata(Paused, false))
    else s.(targets := targets)
  }

  predicate CanaryStops(s: State, targets: seq<Target>, snapshot: Metadata) {
    && s.canary < |targets| && !snapshot.acknowledged
    && (targets[s.canary].Failed? || targets[s.canary].Blocked?)
  }

  /** One reconcile pass. */
  function Pass(s: State, snapshot: Metadata, children: seq<Child>, queued: Queued): State {
    var targets := Observe(s.targets, children);
    if AllTerminal(targets) then Close(s, targets, snapshot)
    else if snapshot.control.Canceling? then Settle(s, BlockPending(targets), snapshot)
    else if FailedNow(s.targets, targets) && PauseApplies(targets, snapshot) then AutoPause(s, targets)
    else if snapshot.control.Paused? || AnyIs(targets, Running) then s.(targets := targets)
    else StartNext(s, targets, snapshot, queued)
  }

  /** Nothing is running and some target is pending: the canary goes first, and
      the others only once it has been dealt with. */
  function StartNext(s: State, targets: seq<Target>, snapshot: Metadata, queued: Queued): State
    requires AnyIs(targets, Pending)
  {
    if s.canary < |targets| && targets[s.canary].Pending? then
      Settle(s, targets[s.canary := AfterQueue(queued)], snapshot)
    else if CanaryStops(s, targets, snapshot) then
      if PauseApplies(targets, snapshot) then AutoPause(s, targets) else s.(targets := targets)
    else
      var k := FirstPending(targets);
      var next := targets[k := AfterQueue(queued)];
      if queued.Refused? && PauseApplies(next, snapshot) then AutoPause(s, next)
      else Settle(s, next, snapshot)
  }

  /** What an operator may ask for, given the stored control. */
  predicate Allowed(s: State, requested: Control) {
    && s.operation.Open?
    && match requested
       case Paused => s.metadata.control.Active?
       case Active => s.metadata.control.Paused?
       case Canceling => !s.metadata.control.Canceling?
  }

  /** A control change, before the pass that follows it under the same lock. */
  function Change(s: State, requested: Control): State {
    if requested.Canceling? then s.(metadata := s.metadata.(control := Canceling), targets := BlockPending(s.targets))
    else s.(metadata := Metadata(requested, s.metadata.acknowledged || requested.Active?))
  }

  datatype Event =
    | Reconcile(snapshot: Metadata, children: seq<Child>, queued: Queued)
    | Operator(requested: Control, children: seq<Child>, queued: Queued)

  function Step(s: State, e: Event): State {
    match e
    case Reconcile(snapshot, children, queued) => Pass(s, snapshot, children, queued)
    case Operator(requested, children, queued) =>
      if Allowed(s, requested)
      then var changed := Change(s, requested); Pass(changed, changed.metadata, children, queued)
      else s
  }

  /** A rollout as it is created: the targets found blocked by the preview are
      recorded as such, the canary is one of the others. */
  predicate Created(s: State) {
    && s.metadata == Metadata(Active, false) && s.operation.Open?
    && s.canary < |s.targets| && s.targets[s.canary].Pending?
    && forall i :: 0 <= i < |s.targets| ==> s.targets[i].Pending? || s.targets[i].Blocked?
  }

  function Run(s: State, events: seq<Event>): State {
    if events == [] then s else Step(Run(s, events[..|events| - 1]), events[|events| - 1])
  }

  /** The rollout as the reconciler updates it: rows changed in place. */
  class Rollout {
    const rows: array<Target>
    const canary: nat
    var metadata: Metadata
    var operation: Operation

    constructor (targets: seq<Target>, canary: nat)
      ensures View() == State(targets, canary, Metadata(Active, false), Open)
      ensures fresh(rows)
    {
      rows := new Target[|targets|](i requires 0 <= i < |targets| => targets[i]);
      this.canary := canary;
      metadata := Metadata(Active, false);
      operation := Open;
      new;
      assert rows[..] == targets;
    }

    function View(): State
      reads this, rows
    {
      State(rows[..], canary, metadata, operation)
    }

    /** The first loop of a pass: record the outcome of finished children. */
    method ObserveChildren(children: seq<Child>) returns (targetFailed: bool)
      modifies rows
      ensures rows[..] == Observe(old(rows[..]), children)
      ensures targetFailed == FailedNow(old(rows[..]), rows[..])
    {
      targetFailed := false;
      for i := 0 to rows.Length
        invariant forall j :: 0 <= j < i ==> rows[j] == Observed(old(rows[j]), ChildOf(children, j))
        invariant forall j :: i <= j < rows.Length ==> rows[j] == old(rows[j])
        invariant targetFailed == exists j :: 0 <= j < i && !old(rows[j]).Failed? && rows[j].Failed?
      {
        if rows[i].Running? {
          rows[i] := Observed(rows[i], ChildOf(children, i));
          targetFailed := targetFailed || rows[i].Failed?;
        }
      }
    }

    method CountOf(status: Target) returns (found: bool)
      ensures found == AnyIs(rows[..], status)
    {
      found := false;
      for i := 0 to rows.Length
        invariant found == exists j :: 0 <= j < i && rows[j] == status
      {
        if rows[i] == status {
          found := true;
        }
      }
    }

    method IsTerminal() returns (terminal: bool)
      ensures terminal == AllTerminal(rows[..])
    {
      for i := 0 to rows.Length
        invariant forall j :: 0 <= j < i ==> Terminal(rows[j])
      {
        if rows[i].Pending? || rows[i].Running? {
          assert !Terminal(rows[..][i]);
          return false;
        }
      }
      return true;
    }

    method BlockPendingRows()
      modifies rows
      ensures rows[..] == BlockPending(old(rows[..]))
    {
      for i := 0 to rows.Length
        invariant forall j :: 0 <= j < i ==> rows[j] == if old(rows[j]).Pending? then Blocked else old(rows[j])
        invariant forall j :: i <= j < rows.Length ==> rows[j] == old(rows[j])
      {
        if rows[i].Pending? {
          rows[i] := Blocked;
        }
      }
    }

    method TryAutoPause(snapshot: Metadata) returns (paused: bool)
      modifies `metadata
      ensures paused == PauseApplies(rows[..], snapshot)
      ensures View() == if paused then AutoPause(old(View()), rows[..]) else old(View())
    {
      var pending := CountOf(Pending);
      if !pending || !snapshot.control.Active? {
        return false;
      }
      if metadata.control.Active? && operation.Open? {
        metadata := Metadata(Paused, false);
      }
      return true;
    }

    method Finish(snapshot: Metadata)
      modifies `operation
      ensures View() == Close(old(View()), rows[..], snapshot)
    {
      var failed := CountOf(Failed);
      var blocked := CountOf(Blocked);
      if operation.Open? {
        operation := if snapshot.control.Canceling? || failed || blocked then Aborted else Completed;
      }
    }

    method FindPending() returns (k: nat)
      ensures k == FirstPending(rows[..])
    {
      k := 0;
      while k < rows.Length && !rows[k].Pending?
        invariant k <= rows.Length
        invariant FirstPending(rows[..]) == k + FirstPending(rows[k..])
      {
        assert rows[k..][1..] == rows[k + 1..];
        k := k + 1;
      }
    }

    method Reconcile(snapshot: Metadata, children: seq<Child>, queued: Queued)
      modifies this, rows
      ensures View() == Pass(old(View()), snapshot, children, queued)
    {
      var targetFailed := ObserveChildren(children);
      var terminal := IsTerminal();
      if terminal {
        Finish(snapshot);
        return;
      }
      if snapshot.control.Canceling? {
        BlockPendingRows();
        terminal := IsTerminal();
        if terminal {
          Finish(snapshot);
        }
        return;
      }
      if targetFailed && snapshot.control.Active? {
        var paused := TryAutoPause(snapshot);
        if paused { return; }
      }
      if snapshot.control.Paused? { return; }
      var running := CountOf(Running);
      if running { return; }
      StartNextRow(snapshot, queued);
    }

    method StartNextRow(snapshot: Metadata, queued: Queued)
      requires AnyIs(rows[..], Pending)
      modifies this, rows
      ensures View() == StartNext(old(View()), old(rows[..]), snapshot, queued)
    {
      var terminal;
      if canary < rows.Length && rows[canary].Pending? {
        rows[canary] := AfterQueue(queued);
      } else if canary < rows.Length && !snapshot.acknowledged && (rows[canary].Failed? || rows[canary].Blocked?) {
        var paused := TryAutoPause(snapshot);
        if paused { return; }
      } else {
        var k := FindPending();
        if k < rows.Length {
          rows[k] := AfterQueue(queued);
          if rows[k].Blocked? {
            var paused := TryAutoPause(snapshot);
            if paused { return; }
          }
        }
      }
      terminal := IsTerminal();
      if terminal {
        Finish(snapshot);
      }
    }
  }

  predicate Starts(before: seq<Target>, after: seq<Target>, i: nat) {
    i < |before| && i < |after| && before[i].Pending? && after[i].Running?
  }

  predicate AtMostOneRunning(targets: seq<Target>) {
    forall i, j :: 0 <= i < j < |targets| ==> !(targets[i].Running? && targets[j].Running?)
  }

  /** A target moves forward only: pending, then running, then one final status. */
  predicate Moves(t: Target, u: Target) {
    t == u || (t.Pending? && !u.Failed?) || (t.Running? && (u.Succeeded? || u.Failed?))
  }

  /** What a pass does to the targets: after observing the children it leaves
      them, or blocks the pending ones of a canceled rollout, or queues one. */
  lemma PassTargets(s: State, snapshot: Metadata, children: seq<Child>, queued: Queued) returns (k: nat)
    ensures
      var targets := Observe(s.targets, children);
      var after := Pass(s, snapshot, children, queued).targets;
      || after == targets
      || (snapshot.control.Canceling? && after == BlockPending(targets))
      || (&& k < |targets| && targets[k].Pending? && after == targets[k := AfterQueue(queued)]
          && snapshot.control.Active? && !AnyIs(targets, Running) && !FailedNow(s.targets, targets)
          && !CanaryStops(s, targets, snapshot)
          && (k == s.canary || s.canary >= |targets| || Terminal(targets[s.canary])))
  {
    var targets := Observe(s.targets, children);
    k := if s.canary < |targets| && targets[s.canary].Pending? then s.canary else FirstPending(targets);
    assert AnyIs(targets, Pending) <==> !AllTerminal(targets) && FirstPending(targets) < |targets|;
    if s.canary < |targets| && !targets[s.canary].Pending? && !AnyIs(targets, Running) {
      assert Terminal(targets[s.canary]);
    }
  }

  /** Everything a pass does, whatever the snapshot says. */
  lemma PassFacts(s: State, snapshot: Metadata, children: seq<Child>, queued: Queued)
    ensures
      var s' := Pass(s, snapshot, children, queued);
      && s'.canary == s.canary && |s'.targets| == |s.targets|
      && (forall i :: 0 <= i < |s.targets| ==> Moves(s.targets[i], s'.targets[i]))
      && (AtMostOneRunning(s.targets) ==> AtMostOneRunning(s'.targets))
  {
    var k := PassTargets(s, snapshot, children, queued);
    var targets := Observe(s.targets, children);
    if !AnyIs(targets, Running) {
      assert forall i :: 0 <= i < |targets| ==> !targets[i].Running?;
    }
  }

  /** What a pass does to the stored metadata and to the operation. */
  lemma PassRecord(s: State, snapshot: Metadata, children: seq<Child>, queued: Queued)
    ensures
      var s' := Pass(s, snapshot, children, queued);
      && (s'.metadata == s.metadata ||
          (s.metadata.control.Active? && s.operation.Open? && s'.metadata == Metadata(Paused, false)))
      && (s'.operation == s.operation ||
          (&& s.operation.Open? && AllTerminal(s'.targets) && s'.metadata == s.metadata
           && s'.operation == Close(s, s'.targets, snapshot).operation))
  {
  }

  lemma NoNewPending(before: seq<Target>, after: seq<Target>)
    requires |before| == |after| && forall i :: 0 <= i < |before| ==> Moves(before[i], after[i])
    requires !AnyIs(before, Pending)
    ensures !AnyIs(after, Pending)
  {
    forall i | 0 <= i < |after| ensures !after[i].Pending? {
      assert Moves(before[i], after[i]);
    }
  }

  /** When a pass starts a target, nothing else is running, the snapshot allows
      it, the canary is the target or is done, and the pass saw no failure. */
  lemma StartFacts(s: State, snapshot: Metadata, children: seq<Child>, queued: Queued, i: nat)
    requires Starts(s.targets, Pass(s, snapshot, children, queued).targets, i)
    ensures
      var s' := Pass(s, snapshot, children, queued);
      && snapshot.control.Active?
      && (forall j :: 0 <= j < |s.targets| && j != i ==> !s'.targets[j].Running?)
      && (s.canary < |s.targets| && i != s.canary ==> Terminal(s'.targets[s.canary]))
      && (i != s.canary ==> forall j :: 0 <= j < i && j < |s.targets| ==> !s.targets[j].Pending?)
      && !FailedNow(s.targets, s'.targets)
      && !CanaryStops(s, Observe(s.targets, children), snapshot)
  {
    var k := PassTargets(s, snapshot, children, queued);
    var targets := Observe(s.targets, children);
    assert !AnyIs(targets, Running) ==> forall j :: 0 <= j < |targets| ==> !targets[j].Running?;
  }

  /** What becomes of one target in a pass, by what the pass was told. */
  lemma PassFate(s: State, snapshot: Metadata, children: seq<Child>, queued: Queued, i: nat)
    requires i < |s.targets|
    ensures
      var t, after := s.targets[i], Pass(s, snapshot, children, queued).targets;
      && i < |after|
      && (Terminal(t) ==> after[i] == t)
      && (t.Running? ==>
        && (after[i].Running? <==> i >= |children| || children[i].InProgress?)
        && (after[i].Succeeded? <==> i < |children| && children[i].ChildSucceeded?)
        && (after[i].Failed? <==> i < |children| && (children[i].ChildFailed? || children[i].Unavailable?)))
      && (t.Pending? && !after[i].Pending? ==>
        && (after[i].Running? <==> !snapshot.control.Canceling? && queued.Launched?)
        && (after[i].Succeeded? <==> !snapshot.control.Canceling? && queued.AlreadyCurrent?)
        && (after[i].Blocked? <==> snapshot.control.Canceling? || queued.Refused?))
  {
    var k := PassTargets(s, snapshot, children, queued);
    var targets := Observe(s.targets, children);
    assert targets[i] == Observed(s.targets[i], ChildOf(children, i));
  }

  /** The pass inside an event, and the state and snapshot it works with. */
  function PassState(s: State, e: Event): State {
    if e.Operator? && Allowed(s, e.requested) then Change(s, e.requested) else s
  }

  function PassSnapshot(s: State, e: Event): Metadata {
    match e
    case Reconcile(snapshot, _, _) => snapshot
    case Operator(_, _, _) => PassState(s, e).metadata
  }

  predicate Effective(s: State, e: Event) {
    e.Operator? ==> Allowed(s, e.requested)
  }

  lemma StepFacts(s: State, e: Event)
    ensures
      var s' := Step(s, e);
      && s'.canary == s.canary && |s'.targets| == |s.targets|
      && (forall i :: 0 <= i < |s.targets| ==> Moves(s.targets[i], s'.targets[i]))
      && (AtMostOneRunning(s.targets) ==> AtMostOneRunning(s'.targets))
  {
    PassFacts(PassState(s, e), PassSnapshot(s, e), e.children, e.queued);
    var t := PassState(s, e).targets;
    assert forall i :: 0 <= i < |s.targets| ==> t[i] == s.targets[i] || (s.targets[i].Pending? && t[i].Blocked?);
  }

  lemma {:induction false} RunFacts(s: State, events: seq<Event>)
    ensures Run(s, events).canary == s.canary && |Run(s, events).targets| == |s.targets|
    ensures AtMostOneRunning(s.targets) ==> AtMostOneRunning(Run(s, events).targets)
  {
    if events != [] {
      RunFacts(s, events[..|events| - 1]);
      StepFacts(Run(s, events[..|events| - 1]), events[|events| - 1]);
    }
  }

  /** In every reachable state at most one target is running. No fresh snapshot is needed. */
  lemma OneAtATime(s: State, events: seq<Event>)
    requires Created(s)
    ensures AtMostOneRunning(Run(s, events).targets)
  {
    RunFacts(s, events);
  }

  lemma StepStarts(s: State, e: Event, i: nat)
    requires Starts(s.targets, Step(s, e).targets, i)
    ensures PassSnapshot(s, e).control.Active?
    ensures
      var after := Step(s, e).targets;
      i == s.canary || s.canary >= |s.targets| || (s.canary < |after| && Terminal(after[s.canary]))
  {
    if Effective(s, e) {
      StartFacts(PassState(s, e), PassSnapshot(s, e), e.children, e.queued, i);
    }
  }

  /** No target but the canary starts before the canary is done. No fresh snapshot is needed. */
  lemma CanaryFirst(s: State, events: seq<Event>, e: Event, i: nat)
    requires Created(s)
    requires Starts(Run(s, events).targets, Step(Run(s, events), e).targets, i)
    ensures
      var after := Step(Run(s, events), e).targets;
      i == s.canary || (s.canary < |after| && Terminal(after[s.canary]))
  {
    RunFacts(s, events);
    StepStarts(Run(s, events), e, i);
  }

  /** Event `n` of the run has a pass in it, before which target `i` has that status. */
  predicate Visits(s: State, events: seq<Event>, n: nat, i: nat, status: Target)
    requires n < |events|
  {
    var before := Run(s, events[..n]);
    Effective(before, events[n]) && i < |before.targets| && before.targets[i] == status
  }

  /** That event takes the pending target `i`. */
  predicate Takes(s: State, events: seq<Event>, n: nat, i: nat)
    requires n < |events|
  {
    var after := Run(s, events[..n + 1]);
    Visits(s, events, n, i, Pending) && i < |after.targets| && !after.targets[i].Pending?
  }

  predicate Cancels(s: State, events: seq<Event>, n: nat)
    requires n < |events|
  {
    PassSnapshot(Run(s, events[..n]), events[n]).control.Canceling?
  }

  predicate SawChild(s: State, events: seq<Event>, n: nat, i: nat, children: set<Child>)
    requires n < |events|
  {
    Visits(s, events, n, i, Running) && i < |events[n].children| && events[n].children[i] in children
  }

  /** What event `n` was told makes target `i` that final status: of its child while it
      runs, or of the target itself when it is taken from the pending ones. */
  predicate Told(s: State, events: seq<Event>, n: nat, i: nat, status: Target)
    requires n < |events|
  {
    match status
    case Succeeded =>
      || SawChild(s, events, n, i, {ChildSucceeded})
      || (Takes(s, events, n, i) && events[n].queued.AlreadyCurrent? && !Cancels(s, events, n))
    case Failed => SawChild(s, events, n, i, {ChildFailed, Unavailable})
    case Blocked => Takes(s, events, n, i) && (events[n].queued.Refused? || Cancels(s, events, n))
    case _ => false
  }

  ghost predicate EverTold(s: State, events: seq<Event>, i: nat, status: Target) {
    exists n :: 0 <= n < |events| && Told(s, events, n, i, status)
  }

  lemma ToldInPrefix(s: State, events: seq<Event>, n: nat, i: nat, status: Target)
    requires n + 1 < |events|
    ensures Told(s, events[..|events| - 1], n, i, status) == Told(s, events, n, i, status)
  {
    var shorter := events[..|events| - 1];
    assert shorter[..n] == events[..n] && shorter[..n + 1] == events[..n + 1] && shorter[n] == events[n];
  }

  lemma EverToldExtends(s: State, events: seq<Event>, i: nat, status: Target)
    requires events != []
    ensures EverTold(s, events, i, status) <==>
      EverTold(s, events[..|events| - 1], i, status) || Told(s, events, |events| - 1, i, status)
  {
    var shorter := events[..|events| - 1];
    forall n | 0 <= n < |shorter| ensures Told(s, shorter, n, i, status) == Told(s, events, n, i, status) {
      ToldInPrefix(s, events, n, i, status);
    }
  }

  /** What the last event of a run does to one target. */
  lemma LastFate(s: State, events: seq<Event>, i: nat, status: Target)
    requires events != [] && i < |Run(s, events[..|events| - 1]).targets| && Terminal(status)
    ensures
      var n := |events| - 1;
      var t, after := Run(s, events[..n]).targets[i], Run(s, events).targets;
      i < |after| && (after[i] == status <==> t == status || Told(s, events, n, i, status))
  {
    var n := |events| - 1;
    var before, e := Run(s, events[..n]), events[n];
    assert events[..n + 1] == events;
    if Effective(before, e) {
      PassFate(PassState(before, e), PassSnapshot(before, e), e.children, e.queued, i);
    }
  }

  /** In every run a target has succeeded exactly if a pass saw its child succeed while
      it was running, or was told on queueing it that there is nothing to do; it has
      failed exactly if a pass saw its child failed or unavailable; and it is blocked
      exactly if it was to begin with, was refused on queueing, or was canceled. */
  lemma {:induction false} FateExactly(s: State, events: seq<Event>, i: nat, status: Target)
    requires Created(s) && i < |s.targets| && status in {Succeeded, Failed, Blocked}
    ensures i < |Run(s, events).targets|
    ensures Run(s, events).targets[i] == status <==> s.targets[i] == status || EverTold(s, events, i, status)
  {
    if events != [] {
      FateExactly(s, events[..|events| - 1], i, status);
      EverToldExtends(s, events, i, status);
      LastFate(s, events, i, status);
    }
  }

  /** An operator's request is honoured exactly if the rollout is open and in a state
      from which it can be made; a resume may be undone by a pause in its own pass. */
  lemma ControlFollowsRequests(s: State, e: Event)
    requires e.Operator?
    ensures
      var now, s' := s.metadata.control, Step(s, e);
      var honoured := s.operation.Open? &&
        match e.requested
        case Paused => now.Active?
        case Active => now.Paused?
        case Canceling => now.Active? || now.Paused?;
      && (!honoured ==> s' == s)
      && (honoured && !e.requested.Active? ==> s'.metadata == Metadata(e.requested, s.metadata.acknowledged))
      && (honoured && e.requested.Active? ==> s'.metadata in {Metadata(Active, true), Metadata(Paused, false)})
      && (honoured && e.requested.Canceling? ==> forall i :: 0 <= i < |s.targets| && s.targets[i].Pending? ==>
           i < |s'.targets| && s'.targets[i].Blocked?)
  {
    if Allowed(s, e.requested) {
      PassRecord(Change(s, e.requested), Change(s, e.requested).metadata, e.children, e.queued);
      PassFacts(Change(s, e.requested), Change(s, e.requested).metadata, e.children, e.queued);
    }
  }

  predicate AnyLeft(targets: seq<Target>) {
    exists i :: 0 <= i < |targets| && (targets[i].Pending? || targets[i].Running?)
  }

  lemma LeftExactly(targets: seq<Target>)
    ensures AnyLeft(targets) <==> !AllTerminal(targets)
  {
  }

  /** In every run, with any snapshots, the operation is open exactly as long as some
      target is pending or running. */
  lemma {:induction false} OpenExactly(s: State, events: seq<Event>)
    requires Created(s)
    ensures Run(s, events).operation.Open? <==> AnyLeft(Run(s, events).targets)
  {
    if events != [] {
      var before, e := Run(s, events[..|events| - 1]), events[|events| - 1];
      OpenExactly(s, events[..|events| - 1]);
      if Effective(before, e) {
        PassOpen(before, PassState(before, e), PassSnapshot(before, e), e.children, e.queued);
      }
    }
  }

  lemma PassCloses(s: State, snapshot: Metadata, children: seq<Child>, queued: Queued)
    requires s.operation.Open?
    ensures
      var s' := Pass(s, snapshot, children, queued);
      s'.operation.Open? <==> !AllTerminal(s'.targets)
  {
  }

  lemma PassOpen(before: State, s: State, snapshot: Metadata, children: seq<Child>, queued: Queued)
    requires before.operation == s.operation && (before.operation.Open? <==> AnyLeft(before.targets))
    requires s.targets == before.targets || s.targets == BlockPending(before.targets)
    ensures
      var s' := Pass(s, snapshot, children, queued);
      s'.operation.Open? <==> AnyLeft(s'.targets)
  {
    var s' := Pass(s, snapshot, children, queued);
    LeftExactly(s'.targets);
    if before.operation.Open? {
      PassCloses(s, snapshot, children, queued);
    } else {
      PassFacts(s, snapshot, children, queued);
      PassRecord(s, snapshot, children, queued);
      forall i | 0 <= i < |s'.targets| ensures Terminal(s'.targets[i]) {
        assert Moves(s.targets[i], s'.targets[i]) && Terminal(before.targets[i]);
      }
    }
  }

  /** A committed cancel has blocked every pending target, and is never undone. */
  lemma {:induction false} CancelingHasNoPending(s: State, events: seq<Event>)
    requires Created(s)
    ensures Run(s, events).metadata.control.Canceling? ==> !AnyIs(Run(s, events).targets, Pending)
  {
    if events != [] {
      var before := Run(s, events[..|events| - 1]);
      CancelingHasNoPending(s, events[..|events| - 1]);
      var e := events[|events| - 1];
      var s1 := PassState(before, e);
      PassFacts(s1, PassSnapshot(before, e), e.children, e.queued);
      PassRecord(s1, PassSnapshot(before, e), e.children, e.queued);
      if s1.metadata.control.Canceling? {
        NoNewPending(s1.targets, Run(s, events).targets);
      }
    }
  }

  /** Once a cancel has committed no target starts again, even from a pass that
      holds an older snapshot. */
  lemma CancelIsFinal(s: State, events: seq<Event>, e: Event, i: nat)
    requires Created(s) && Run(s, events).metadata.control.Canceling?
    ensures !Starts(Run(s, events).targets, Step(Run(s, events), e).targets, i)
    ensures Step(Run(s, events), e).metadata.control.Canceling?
  {
    CancelingHasNoPending(s, events);
  }

  function Weight(targets: seq<Target>): nat {
    if targets == [] then 0
    else (if targets[0].Pending? then 2 else if targets[0].Running? then 1 else 0) + Weight(targets[1..])
  }

  lemma {:induction false} MovesLowerWeight(before: seq<Target>, after: seq<Target>)
    requires |before| == |after| && forall i :: 0 <= i < |before| ==> Moves(before[i], after[i])
    ensures before == after || Weight(after) < Weight(before)
  {
    if before != [] {
      MovesLowerWeight(before[1..], after[1..]);
      assert before[1..] == after[1..] && before[0] == after[0] ==> before == after;
      assert Moves(before[0], after[0]);
    }
  }

  /** How many events of a run changed some target. */
  function Changes(s: State, events: seq<Event>): nat {
    if events == [] then 0
    else
      var before := events[..|events| - 1];
      Changes(s, before) + if Run(s, before).targets != Run(s, events).targets then 1 else 0
  }

  lemma {:induction false} WeightAtMostTwice(targets: seq<Target>)
    ensures Weight(targets) <= 2 * |targets|
  {
    if targets != [] {
      WeightAtMostTwice(targets[1..]);
    }
  }

  /** Twice the pending plus the running targets pays for every change: a rollout
      of n targets changes at most 2n times, whatever happens to it. */
  lemma {:induction false} ChangesAreBounded(s: State, events: seq<Event>)
    ensures Changes(s, events) + Weight(Run(s, events).targets) <= Weight(s.targets) <= 2 * |s.targets|
  {
    WeightAtMostTwice(s.targets);
    if events != [] {
      var before := events[..|events| - 1];
      ChangesAreBounded(s, before);
      StepFacts(Run(s, before), events[|events| - 1]);
      MovesLowerWeight(Run(s, before).targets, Run(s, events).targets);
    }
  }

  /** Every pass of the run worked with the stored metadata. */
  ghost predicate Fresh(s: State, events: seq<Event>) {
    forall i :: 0 <= i < |events| && events[i].Reconcile? ==> events[i].snapshot == Run(s, events[..i]).metadata
  }

  lemma FreshPrefix(s: State, events: seq<Event>)
    requires events != [] && Fresh(s, events)
    ensures Fresh(s, events[..|events| - 1])
    ensures PassSnapshot(Run(s, events[..|events| - 1]), events[|events| - 1]) ==
              PassState(Run(s, events[..|events| - 1]), events[|events| - 1]).metadata
  {
    var before := events[..|events| - 1];
    assert forall i :: 0 <= i < |before| ==> before[..i] == events[..i] && before[i] == events[i];
  }

  ghost predicate AllSucceeded(targets: seq<Target>) {
    forall i :: 0 <= i < |targets| ==> targets[i].Succeeded?
  }

  /** What a closed rollout says about its targets. */
  ghost predicate OutcomeInv(s: State) {
    && (s.metadata.control.Canceling? ==> !AnyIs(s.targets, Pending))
    && (!s.operation.Open? ==>
      && AllTerminal(s.targets)
      && (s.operation.Completed? <==> AllSucceeded(s.targets) && !s.metadata.control.Canceling?))
  }

  lemma TerminalTargets(targets: seq<Target>)
    requires AllTerminal(targets)
    ensures AllSucceeded(targets) <==> !AnyIs(targets, Failed) && !AnyIs(targets, Blocked)
  {
    if !AnyIs(targets, Failed) && !AnyIs(targets, Blocked) {
      forall i | 0 <= i < |targets| ensures targets[i].Succeeded? {
        assert Terminal(targets[i]);
      }
    }
  }

  lemma PassKeepsOutcome(s: State, children: seq<Child>, queued: Queued)
    requires OutcomeInv(s)
    ensures OutcomeInv(Pass(s, s.metadata, children, queued))
  {
    var s' := Pass(s, s.metadata, children, queued);
    PassFacts(s, s.metadata, children, queued);
    PassRecord(s, s.metadata, children, queued);
    if !AnyIs(s.targets, Pending) {
      NoNewPending(s.targets, s'.targets);
    }
    if AllTerminal(s'.targets) {
      TerminalTargets(s'.targets);
    }
    if AllTerminal(s.targets) {
      forall i | 0 <= i < |s.targets| ensures s'.targets[i] == s.targets[i] {
        assert Terminal(s.targets[i]) && Moves(s.targets[i], s'.targets[i]);
      }
      assert s'.targets == s.targets;
    }
  }

  /** With fresh metadata a rollout is reported as succeeded exactly when every
      target succeeded and it was not being canceled. */
  lemma {:induction false} OutcomeIsAccurate(s: State, events: seq<Event>)
    requires Created(s) && Fresh(s, events)
    ensures OutcomeInv(Run(s, events))
  {
    if events != [] {
      FreshPrefix(s, events);
      OutcomeIsAccurate(s, events[..|events| - 1]);
      var before, e := Run(s, events[..|events| - 1]), events[|events| - 1];
      if Effective(before, e) {
        PassKeepsOutcome(PassState(before, e), e.children, e.queued);
      }
    }
  }

  /** The child of some running target is seen to have failed, or cannot be read. */
  predicate ChildFails(targets: seq<Target>, children: seq<Child>) {
    exists i :: 0 <= i < |targets| && i < |children| && targets[i].Running?
                && (children[i].ChildFailed? || children[i].Unavailable?)
  }

  lemma FailureIsSeen(targets: seq<Target>, children: seq<Child>)
    ensures FailedNow(targets, Observe(targets, children)) <==> ChildFails(targets, children)
  {
    var after := Observe(targets, children);
    if ChildFails(targets, children) {
      var i :| 0 <= i < |targets| && i < |children| && targets[i].Running?
               && (children[i].ChildFailed? || children[i].Unavailable?);
      assert after[i].Failed?;
    }
  }

  /** Some target other than the canary is refused. */
  predicate Refuses(s: State, after: State) {
    exists i :: 0 <= i < |s.targets| && i < |after.targets| && i != s.canary
                && s.targets[i].Pending? && after.targets[i].Blocked?
  }

  /** What makes a rollout stop: a running target failed, or one other than the
      canary was refused. */
  predicate Setback(s: State, children: seq<Child>, after: State) {
    ChildFails(s.targets, children) || Refuses(s, after)
  }

  predicate Pauses(s: State, e: Event) {
    e.Operator? && e.requested.Paused? && Allowed(s, e.requested)
  }

  predicate Resumes(s: State, e: Event) {
    e.Operator? && e.requested.Active? && Allowed(s, e.requested)
  }

  /** Has there been a setback, or a pause, that no operator resume came after? */
  function Halted(s: State, events: seq<Event>): bool {
    if events == [] then false
    else
      var before, e := Run(s, events[..|events| - 1]), events[|events| - 1];
      || (Halted(s, events[..|events| - 1]) && !Resumes(before, e))
      || Pauses(before, e)
      || (Effective(before, e) && Setback(before, e.children, Step(before, e)))
  }

  predicate Held(s: State) {
    !s.metadata.control.Active? || !AnyIs(s.targets, Pending)
  }

  lemma PauseOnFailure(s: State, children: seq<Child>, queued: Queued)
    requires s.metadata.control.Active? && s.operation.Open?
    requires FailedNow(s.targets, Observe(s.targets, children)) && AnyIs(Observe(s.targets, children), Pending)
    ensures Pass(s, s.metadata, children, queued) == AutoPause(s, Observe(s.targets, children))
  {
  }

  lemma PauseOnRefusal(s: State, children: seq<Child>, queued: Queued, i: nat)
    requires s.metadata.control.Active? && s.operation.Open? && i < |s.targets| && i != s.canary
    requires !FailedNow(s.targets, Observe(s.targets, children))
    requires s.targets[i].Pending? && Pass(s, s.metadata, children, queued).targets[i].Blocked?
    requires AnyIs(Pass(s, s.metadata, children, queued).targets, Pending)
    ensures Pass(s, s.metadata, children, queued).metadata.control.Paused?
  {
    assert Observe(s.targets, children)[i].Pending?;
  }

  /** A pass that sees a setback pauses the rollout unless nothing is left to start. */
  lemma PauseOnSetback(s: State, children: seq<Child>, queued: Queued)
    requires s.metadata.control.Active? && s.operation.Open?
    requires Setback(s, children, Pass(s, s.metadata, children, queued))
    requires AnyIs(Pass(s, s.metadata, children, queued).targets, Pending)
    ensures Pass(s, s.metadata, children, queued).metadata.control.Paused?
  {
    var targets, after := Observe(s.targets, children), Pass(s, s.metadata, children, queued).targets;
    var k := PassTargets(s, s.metadata, children, queued);
    var p :| 0 <= p < |after| && after[p] == Pending;
    assert targets[p] == Pending;
    FailureIsSeen(s.targets, children);
    if FailedNow(s.targets, targets) {
      PauseOnFailure(s, children, queued);
    } else {
      assert !FailedNow(s.targets, after);
      var i :| 0 <= i < |s.targets| && i < |after| && i != s.canary && s.targets[i].Pending? && after[i].Blocked?;
      PauseOnRefusal(s, children, queued, i);
    }
  }

  lemma PassHolds(s: State, children: seq<Child>, queued: Queued)
    requires OutcomeInv(s)
    requires Held(s) || Setback(s, children, Pass(s, s.metadata, children, queued))
    ensures Held(Pass(s, s.metadata, children, queued))
  {
    var s' := Pass(s, s.metadata, children, queued);
    PassFacts(s, s.metadata, children, queued);
    PassRecord(s, s.metadata, children, queued);
    if !AnyIs(s.targets, Pending) {
      NoNewPending(s.targets, s'.targets);
    } else if s.metadata.control.Active? && AnyIs(s'.targets, Pending) {
      assert s.operation.Open?;
      PauseOnSetback(s, children, queued);
    }
  }

  lemma {:induction false} HaltedIsHeld(s: State, events: seq<Event>)
    requires Created(s) && Fresh(s, events)
    ensures Halted(s, events) ==> Held(Run(s, events))
  {
    if events != [] {
      FreshPrefix(s, events);
      HaltedIsHeld(s, events[..|events| - 1]);
      OutcomeIsAccurate(s, events[..|events| - 1]);
      var before, e := Run(s, events[..|events| - 1]), events[|events| - 1];
      if Halted(s, events) && Effective(before, e) {
        PassHolds(PassState(before, e), e.children, e.queued);
      }
    }
  }

  /** With fresh metadata, once a target failed (or one other than the canary was
      refused) nothing starts until an operator resumes the rollout afterwards. */
  lemma NoStartAfterSetback(s: State, events: seq<Event>, e: Event, i: nat)
    requires Created(s) && Fresh(s, events + [e])
    requires Halted(s, events) && !Resumes(Run(s, events), e)
    ensures !Starts(Run(s, events).targets, Step(Run(s, events), e).targets, i)
  {
    assert (events + [e])[..|events + [e]| - 1] == events;
    FreshPrefix(s, events + [e]);
    HaltedIsHeld(s, events);
    var now := Run(s, events);
    if Starts(now.targets, Step(now, e).targets, i) {
      assert now.targets[i].Pending?;
      StartFacts(PassState(now, e), PassSnapshot(now, e), e.children, e.queued, i);
    }
  }

  predicate CanaryStopped(s: State) {
    s.canary < |s.targets| && (s.targets[s.canary].Failed? || s.targets[s.canary].Blocked?)
  }

  /** While no child fails, observing the children leaves the canary as stopped as it was. */
  lemma SeenStopped(s: State, children: seq<Child>)
    requires !FailedNow(s.targets, Observe(s.targets, children))
    ensures
      var targets := Observe(s.targets, children);
      CanaryStopped(s) <==> s.canary < |targets| && (targets[s.canary].Failed? || targets[s.canary].Blocked?)
  {
  }

  lemma StartsIf(s: State, snapshot: Metadata, children: seq<Child>)
    requires
      var targets := Observe(s.targets, children);
      snapshot.control.Active? && AnyIs(targets, Pending) && !AnyIs(targets, Running)
      && !FailedNow(s.targets, targets) && !CanaryStops(s, targets, snapshot)
    ensures exists i: nat :: Starts(s.targets, Pass(s, snapshot, children, Launched).targets, i)
  {
    var targets := Observe(s.targets, children);
    var after := Pass(s, snapshot, children, Launched).targets;
    var p :| 0 <= p < |targets| && targets[p] == Pending;
    assert !Terminal(targets[p]);
    var k := if s.canary < |targets| && targets[s.canary].Pending? then s.canary else FirstPending(targets);
    assert s.targets[k].Pending?;
    assert after == targets[k := Running];
    assert Starts(s.targets, after, k);
  }

  /** Exactly when a pass that can start a target does so, whatever its snapshot. */
  lemma StartsExactly(s: State, snapshot: Metadata, children: seq<Child>)
    ensures
      var targets := Observe(s.targets, children);
      (exists i: nat :: Starts(s.targets, Pass(s, snapshot, children, Launched).targets, i)) <==>
        && snapshot.control.Active? && AnyIs(targets, Pending) && !AnyIs(targets, Running)
        && !ChildFails(s.targets, children) && (CanaryStopped(s) ==> snapshot.acknowledged)
  {
    var targets := Observe(s.targets, children);
    var after := Pass(s, snapshot, children, Launched).targets;
    FailureIsSeen(s.targets, children);
    if !FailedNow(s.targets, targets) {
      SeenStopped(s, children);
    }
    if i: nat :| Starts(s.targets, after, i) {
      StartFacts(s, snapshot, children, Launched, i);
      assert targets[i].Pending?;
      var k := PassTargets(s, snapshot, children, Launched);
    }
    if snapshot.control.Active? && AnyIs(targets, Pending) && !AnyIs(targets, Running)
       && !FailedNow(s.targets, targets) && !CanaryStops(s, targets, snapshot) {
      StartsIf(s, snapshot, children);
    }
  }

  /** A pass that sees no failure, in an open and active rollout. */
  lemma QuietPassPauses(s: State, snapshot: Metadata, children: seq<Child>, queued: Queued)
    requires s.metadata.control.Active? && s.operation.Open? && snapshot.control.Active?
    requires !ChildFails(s.targets, children)
    ensures
      var s' := Pass(s, snapshot, children, queued);
      s'.metadata.control.Paused? <==>
        && AnyIs(s'.targets, Pending)
        && ((CanaryStopped(s) && !snapshot.acknowledged && !AnyIs(s'.targets, Running)) || Refuses(s, s'))
  {
    var targets, s' := Observe(s.targets, children), Pass(s, snapshot, children, queued);
    FailureIsSeen(s.targets, children);
    SeenStopped(s, children);
    var k := PassTargets(s, snapshot, children, queued);
    if s'.targets == targets {
      assert !Refuses(s, s');
    }
  }

  /** Exactly when a pass pauses the rollout. */
  lemma PausesExactly(s: State, snapshot: Metadata, children: seq<Child>, queued: Queued)
    ensures
      var s' := Pass(s, snapshot, children, queued);
      s.metadata.control.Active? && s'.metadata.control.Paused? <==>
        && s.metadata.control.Active? && s.operation.Open? && snapshot.control.Active?
        && AnyIs(s'.targets, Pending)
        && (|| ChildFails(s.targets, children)
            || (CanaryStopped(s) && !snapshot.acknowledged && !AnyIs(s'.targets, Running))
            || Refuses(s, s'))
  {
    FailureIsSeen(s.targets, children);
    if s.metadata.control.Active? && s.operation.Open? && snapshot.control.Active? {
      if !ChildFails(s.targets, children) {
        QuietPassPauses(s, snapshot, children, queued);
      }
    }
  }

  /** Has an operator resumed the rollout since it last paused itself? */
  function Resumed(s: State, events: seq<Event>): bool {
    if events == [] then false
    else
      var before, e := Run(s, events[..|events| - 1]), events[|events| - 1];
      (Resumed(s, events[..|events| - 1]) || Resumes(before, e)) && !PausesItself(before, e)
  }

  predicate PausesItself(before: State, e: Event) {
    PassState(before, e).metadata.control.Active? && Step(before, e).metadata.control.Paused?
  }

  /** The stored acknowledgement records exactly that. */
  lemma {:induction false} AcknowledgedExactly(s: State, events: seq<Event>)
    requires Created(s)
    ensures Run(s, events).metadata.acknowledged <==> Resumed(s, events)
  {
    if events != [] {
      var before, e := Run(s, events[..|events| - 1]), events[|events| - 1];
      AcknowledgedExactly(s, events[..|events| - 1]);
      PassRecord(PassState(before, e), PassSnapshot(before, e), e.children, e.queued);
    }
  }

  /** With fresh metadata, a canary that failed or was refused holds back every
      pass of the run until an operator resumes the rollout. */
  lemma StoppedCanaryHolds(s: State, events: seq<Event>, e: Event, i: nat)
    requires Created(s) && Fresh(s, events + [e]) && CanaryStopped(Run(s, events))
    requires !Resumed(s, events) && !Resumes(Run(s, events), e)
    ensures !Starts(Run(s, events).targets, Step(Run(s, events), e).targets, i)
  {
    assert (events + [e])[..|events + [e]| - 1] == events;
    FreshPrefix(s, events + [e]);
    AcknowledgedExactly(s, events);
    var now := Run(s, events);
    if Starts(now.targets, Step(now, e).targets, i) {
      var at := PassState(now, e);
      StartFacts(at, at.metadata, e.children, e.queued, i);
    }
  }

  ghost predicate NeverResumed(s: State, events: seq<Event>) {
    forall i :: 0 <= i < |events| ==> !Resumes(Run(s, events[..i]), events[i])
  }

  lemma {:induction false} NeverResumedIsNotResumed(s: State, events: seq<Event>)
    requires NeverResumed(s, events)
    ensures !Resumed(s, events)
  {
    if events != [] {
      var before := events[..|events| - 1];
      assert forall i :: 0 <= i < |before| ==> before[..i] == events[..i] && before[i] == events[i];
      NeverResumedIsNotResumed(s, before);
    }
  }

  /** In particular, if nobody has ever resumed the rollout. */
  lemma RefusedCanaryHolds(s: State, events: seq<Event>, e: Event, i: nat)
    requires Created(s) && Fresh(s, events + [e]) && CanaryStopped(Run(s, events))
    requires NeverResumed(s, events + [e])
    ensures !Starts(Run(s, events).targets, Step(Run(s, events), e).targets, i)
  {
    var all := events + [e];
    assert all[..|events|] == events && all[|events|] == e;
    assert NeverResumed(s, events) by {
      assert forall j :: 0 <= j < |events| ==> all[..j] == events[..j] && all[j] == events[j];
    }
    NeverResumedIsNotResumed(s, events);
    StoppedCanaryHolds(s, events, e, i);
  }

  /** And it holds no longer than that: in a reachable state in which everything
      else allows a start, a fresh pass starts a target exactly if the rollout has
      been resumed since it last paused itself. */
  lemma StoppedCanaryHoldsExactly(s: State, events: seq<Event>, children: seq<Child>)
    requires Created(s) && CanaryStopped(Run(s, events))
    requires Run(s, events).metadata.control.Active?
    requires
      var now, targets := Run(s, events), Observe(Run(s, events).targets, children);
      AnyIs(targets, Pending) && !AnyIs(targets, Running) && !ChildFails(now.targets, children)
    ensures
      var now := Run(s, events);
      (exists i: nat :: Starts(now.targets, Pass(now, now.metadata, children, Launched).targets, i)) <==>
        Resumed(s, events)
  {
    var now := Run(s, events);
    StartsExactly(now, now.metadata, children);
    AcknowledgedExactly(s, events);
  }

  predicate CanaryIs(s: State, status: Target) {
    s.canary < |s.targets| && s.targets[s.canary] == status
  }

  /** A fresh run whose last pass starts a target although the event before it
      saw the canary refused. */
  ghost predicate SkipsRefusedCanary(s: State, before: seq<Event>, refused: Event, pass: Event, i: nat) {
    && Created(s) && Fresh(s, before + [refused] + [pass]) && pass.Reconcile?
    && var s1 := Run(s, before);
    && var s2 := Step(s1, refused);
    && CanaryIs(s1, Pending) && CanaryIs(s2, Blocked)
    && Starts(s2.targets, Step(s2, pass).targets, i)
  }

  lemma FreshExtends(s: State, events: seq<Event>, e: Event)
    requires Fresh(s, events) && (e.Reconcile? ==> e.snapshot == Run(s, events).metadata)
    ensures Fresh(s, events + [e]) && Run(s, events + [e]) == Step(Run(s, events), e)
  {
    var all := events + [e];
    assert all[..|events|] == events;
    assert forall i :: 0 <= i < |events| ==> all[..i] == events[..i] && all[i] == events[i];
  }

  lemma EarlyResume() returns (s1: State, s2: State)
    ensures s1 == Step(State([Pending, Pending], 0, Metadata(Active, false), Open), Operator(Paused, [], Refused))
    ensures s1 == State([Pending, Pending], 0, Metadata(Paused, false), Open)
    ensures s2 == Step(s1, Operator(Active, [], Refused))
    ensures s2 == State([Blocked, Pending], 0, Metadata(Active, true), Open)
  {
    var s0 := State([Pending, Pending], 0, Metadata(Active, false), Open);
    assert !Terminal(s0.targets[0]) && !Terminal(s0.targets[1]);
    assert Observe(s0.targets, []) == s0.targets;
    s1 := Step(s0, Operator(Paused, [], Refused));
    s2 := Step(s1, Operator(Active, [], Refused));
    var after := [Blocked, Pending];
    assert !Terminal(after[1]) && s1.targets[0 := Blocked] == after;
  }

  lemma SkipAfterRefusal(s: State, before: seq<Event>, refused: Event, s2: State)
    requires Created(s) && Fresh(s, before + [refused]) && Run(s, before + [refused]) == s2
    requires CanaryIs(Run(s, before), Pending) && CanaryIs(s2, Blocked) && s2 == Step(Run(s, before), refused)
    requires s2.metadata == Metadata(Active, true) && !AnyIs(s2.targets, Running) && AnyIs(s2.targets, Pending)
    ensures exists pass: Event, i: nat :: SkipsRefusedCanary(s, before, refused, pass, i)
  {
    var pass := Reconcile(s2.metadata, [], Launched);
    FreshExtends(s, before + [refused], pass);
    assert Observe(s2.targets, []) == s2.targets;
    StartsExactly(s2, s2.metadata, []);
    var i: nat :| Starts(s2.targets, Pass(s2, s2.metadata, [], Launched).targets, i);
    assert SkipsRefusedCanary(s, before, refused, pass, i);
  }

  lemma TwoOperatorSteps(s: State, first: Event, second: Event, s1: State, s2: State)
    requires first.Operator? && second.Operator? && s1 == Step(s, first) && s2 == Step(s1, second)
    ensures Fresh(s, [first] + [second]) && Run(s, [first]) == s1 && Run(s, [first] + [second]) == s2
  {
    var none: seq<Event> := [];
    FreshExtends(s, none, first);
    assert none + [first] == [first];
    FreshExtends(s, [first], second);
  }

  /** Pausing and resuming before the first pass acknowledges in advance a canary
      failure that has not happened yet. */
  lemma EarlyResumeSkipsCanaryGate()
    ensures exists s: State, before: seq<Event>, refused: Event, pass: Event, i: nat ::
              SkipsRefusedCanary(s, before, refused, pass, i)
  {
    var s0 := State([Pending, Pending], 0, Metadata(Active, false), Open);
    var s1, s2 := EarlyResume();
    assert s2.targets[1].Pending?;
    TwoOperatorSteps(s0, Operator(Paused, [], Refused), Operator(Active, [], Refused), s1, s2);
    SkipAfterRefusal(s0, [Operator(Paused, [], Refused)], Operator(Active, [], Refused), s2);
  }

  /** In a run with fresh metadata up to a setback, a pass that then holds a
      snapshot of its own starts a target exactly if that snapshot is active and
      does not see a stopped canary unacknowledged; such a snapshot is stale. */
  lemma StaleStartExactly(s: State, events: seq<Event>, snapshot: Metadata, children: seq<Child>)
    requires Created(s) && Fresh(s, events) && Halted(s, events)
    requires
      var now, targets := Run(s, events), Observe(Run(s, events).targets, children);
      AnyIs(targets, Pending) && !AnyIs(targets, Running) && !ChildFails(now.targets, children)
    ensures
      var now := Run(s, events);
      && ((exists i: nat :: Starts(now.targets, Pass(now, snapshot, children, Launched).targets, i)) <==>
            snapshot.control.Active? && (CanaryStopped(now) ==> snapshot.acknowledged))
      && (snapshot.control.Active? ==> snapshot != now.metadata)
  {
    var now := Run(s, events);
    var targets := Observe(now.targets, children);
    StartsExactly(now, snapshot, children);
    HaltedIsHeld(s, events);
    var p :| 0 <= p < |targets| && targets[p] == Pending;
    assert now.targets[p] == Pending;
  }

  /** A run with fresh metadata up to a setback, after which a pass that read its
      metadata before event `n` of the run starts a target. */
  ghost predicate StartsAfterSetback(s: State, events: seq<Event>, n: nat, i: nat) {
    && Created(s) && Fresh(s, events) && Halted(s, events) && n <= |events|
    && var late := Reconcile(Run(s, events[..n]).metadata, [], Launched);
    && Starts(Run(s, events).targets, Step(Run(s, events), late).targets, i)
  }

  function Three(a: Target, b: Target, c: Target, control: Control): State {
    State([a, b, c], 0, Metadata(control, false), Open)
  }

  lemma CanaryIsCurrent()
    ensures Step(Three(Pending, Pending, Pending, Active), Reconcile(Metadata(Active, false), [], AlreadyCurrent))
         == Three(Succeeded, Pending, Pending, Active)
  {
    var s := Three(Pending, Pending, Pending, Active);
    assert !Terminal(s.targets[1]) && Observe(s.targets, []) == s.targets;
    var next := s.targets[0 := Succeeded];
    assert next == [Succeeded, Pending, Pending] && !Terminal(next[1]);
  }

  lemma SecondStarts()
    ensures Step(Three(Succeeded, Pending, Pending, Active), Reconcile(Metadata(Active, false), [], Launched))
         == Three(Succeeded, Running, Pending, Active)
  {
    var s := Three(Succeeded, Pending, Pending, Active);
    assert !Terminal(s.targets[1]) && Observe(s.targets, []) == s.targets;
    assert FirstPending(s.targets) == 1;
    var next := s.targets[1 := Running];
    assert next == [Succeeded, Running, Pending] && !Terminal(next[1]);
  }

  lemma SecondFails()
    ensures Step(Three(Succeeded, Running, Pending, Active),
      Reconcile(Metadata(Active, false), [InProgress, ChildFailed], Launched))
         == Three(Succeeded, Failed, Pending, Paused)
  {
    var s := Three(Succeeded, Running, Pending, Active);
    var targets := Observe(s.targets, [InProgress, ChildFailed]);
    assert targets == [Succeeded, Failed, Pending];
    assert !Terminal(targets[2]) && targets[2] == Pending;
    assert !s.targets[1].Failed? && targets[1].Failed?;
  }

  lemma OneLeft()
    ensures
      var s := Three(Succeeded, Failed, Pending, Paused);
      !AnyIs(s.targets, Running) && AnyIs(s.targets, Pending) && !CanaryStopped(s)
  {
    assert Three(Succeeded, Failed, Pending, Paused).targets[2] == Pending;
  }

  lemma HaltedByFailure(s: State, events: seq<Event>, e: Event)
    requires e.Reconcile? && ChildFails(Run(s, events).targets, e.children)
    ensures Halted(s, events + [e])
  {
    assert (events + [e])[..|events|] == events;
  }

  lemma LateStart(s: State, events: seq<Event>)
    requires Created(s) && Fresh(s, events) && Halted(s, events)
    requires !AnyIs(Run(s, events).targets, Running) && AnyIs(Run(s, events).targets, Pending)
    requires !CanaryStopped(Run(s, events))
    ensures exists i: nat :: StartsAfterSetback(s, events, 0, i)
  {
    var now := Run(s, events);
    assert Observe(now.targets, []) == now.targets;
    StaleStartExactly(s, events, s.metadata, []);
    var i: nat :| Starts(now.targets, Pass(now, s.metadata, [], Launched).targets, i);
    assert events[..0] == [];
    assert StartsAfterSetback(s, events, 0, i);
  }

  /** A run with fresh metadata, longer by one event. */
  lemma Extend(s: State, events: seq<Event>, now: State, e: Event) returns (longer: seq<Event>)
    requires Fresh(s, events) && Run(s, events) == now && (e.Reconcile? ==> e.snapshot == now.metadata)
    ensures Fresh(s, longer) && Run(s, longer) == Step(now, e)
  {
    FreshExtends(s, events, e);
    longer := events + [e];
  }

  /** Three passes with fresh metadata, the last of which sees a target fail. */
  lemma SetbackRun(s0: State, e1: Event, e2: Event, e3: Event, s1: State, s2: State, s3: State)
    requires Created(s0) && e1.Reconcile? && e2.Reconcile? && e3.Reconcile?
    requires e1.snapshot == s0.metadata && e2.snapshot == s1.metadata && e3.snapshot == s2.metadata
    requires s1 == Step(s0, e1) && s2 == Step(s1, e2) && s3 == Step(s2, e3)
    requires ChildFails(s2.targets, e3.children)
    requires !AnyIs(s3.targets, Running) && AnyIs(s3.targets, Pending) && !CanaryStopped(s3)
    ensures exists events: seq<Event>, n: nat, i: nat :: StartsAfterSetback(s0, events, n, i)
  {
    var events := Extend(s0, [], s0, e1);
    events := Extend(s0, events, s1, e2);
    HaltedByFailure(s0, events, e3);
    FreshExtends(s0, events, e3);
    LateStart(s0, events + [e3]);
  }

  /** Three targets: the canary has nothing to do, the second one starts and fails. */
  lemma Scenario() returns (s0: State, e1: Event, e2: Event, e3: Event, s1: State, s2: State, s3: State)
    ensures Created(s0) && e1.Reconcile? && e2.Reconcile? && e3.Reconcile?
    ensures e1.snapshot == s0.metadata && e2.snapshot == s1.metadata && e3.snapshot == s2.metadata
    ensures s1 == Step(s0, e1) && s2 == Step(s1, e2) && s3 == Step(s2, e3)
    ensures ChildFails(s2.targets, e3.children)
    ensures !AnyIs(s3.targets, Running) && AnyIs(s3.targets, Pending) && !CanaryStopped(s3)
  {
    s0, s1 := Three(Pending, Pending, Pending, Active), Three(Succeeded, Pending, Pending, Active);
    s2, s3 := Three(Succeeded, Running, Pending, Active), Three(Succeeded, Failed, Pending, Paused);
    e1 := Reconcile(Metadata(Active, false), [], AlreadyCurrent);
    e2 := Reconcile(Metadata(Active, false), [], Launched);
    e3 := Reconcile(Metadata(Active, false), [InProgress, ChildFailed], Launched);
    CanaryIsCurrent();
    SecondStarts();
    SecondFails();
    OneLeft();
    assert s2.targets[1].Running? && e3.children[1].ChildFailed?;
  }

  /** A stale pass does not honour the pause: a run in which it starts a target
      after a setback. */
  lemma StalePassIgnoresPause()
    ensures exists s: State, events: seq<Event>, n: nat, i: nat :: StartsAfterSetback(s, events, n, i)
  {
    var s0, e1, e2, e3, s1, s2, s3 := Scenario();
    SetbackRun(s0, e1, e2, e3, s1, s2, s3);
  }

  /** Once a cancel has committed, a pass reports success exactly if every target
      has succeeded and its snapshot does not know of the cancel. */
  lemma StaleSuccessExactly(s: State, events: seq<Event>, snapshot: Metadata, children: seq<Child>, queued: Queued)
    requires Created(s)
    requires Run(s, events).metadata.control.Canceling? && Run(s, events).operation.Open?
    ensures Pass(Run(s, events), snapshot, children, queued).operation.Completed? <==>
      AllSucceeded(Observe(Run(s, events).targets, children)) && !snapshot.control.Canceling?
  {
    var now := Run(s, events);
    var targets := Observe(now.targets, children);
    CancelingHasNoPending(s, events);
    assert !AnyIs(targets, Pending);
    if AllTerminal(targets) {
      TerminalTargets(targets);
    } else {
      var i :| 0 <= i < |targets| && !Terminal(targets[i]);
      assert targets[i] == Running;
      var blocked := BlockPending(targets);
      assert blocked == targets;
    }
  }

  /** A run with a cancel in it, after which a pass that read its metadata before
      event `n` of the run reports success. */
  ghost predicate SucceedsAfterCancel(s: State, events: seq<Event>, n: nat, children: seq<Child>) {
    && Created(s) && Fresh(s, events) && n <= |events|
    && Run(s, events).metadata.control.Canceling? && Run(s, events).operation.Open?
    && Step(Run(s, events), Reconcile(Run(s, events[..n]).metadata, children, Refused)).operation.Completed?
  }

  function Alone(t: Target, control: Control): State {
    State([t], 0, Metadata(control, false), Open)
  }

  lemma OnlyOneStarts()
    ensures Step(Alone(Pending, Active), Reconcile(Metadata(Active, false), [], Launched)) == Alone(Running, Active)
  {
    var s := Alone(Pending, Active);
    assert !Terminal(s.targets[0]) && Observe(s.targets, []) == s.targets;
    assert s.targets[0 := Running] == [Running] && !Terminal([Running][0]);
  }

  lemma OnlyOneIsCanceled()
    ensures Step(Alone(Running, Active), Operator(Canceling, [], Refused)) == Alone(Running, Canceling)
  {
    var s := Alone(Running, Active);
    assert BlockPending(s.targets) == s.targets && Observe(s.targets, []) == s.targets;
    assert !Terminal(s.targets[0]);
  }

  /** A pass with fresh metadata, and a cancel. */
  lemma CancelRun(s0: State, e1: Event, e2: Event, s1: State, s2: State, children: seq<Child>)
    requires Created(s0) && e1.Reconcile? && e2.Operator? && e1.snapshot == s0.metadata
    requires s1 == Step(s0, e1) && s2 == Step(s1, e2)
    requires s2.metadata.control.Canceling? && s2.operation.Open? && AllSucceeded(Observe(s2.targets, children))
    ensures exists events: seq<Event>, n: nat :: SucceedsAfterCancel(s0, events, n, children)
  {
    var events := Extend(s0, [], s0, e1);
    events := Extend(s0, events, s1, e2);
    StaleSuccessExactly(s0, events, s0.metadata, children, Refused);
    assert events[..0] == [];
    assert SucceedsAfterCancel(s0, events, 0, children);
  }

  /** A stale pass can report success for a rollout that was canceled: such a run. */
  lemma StalePassReportsSuccess()
    ensures exists s: State, events: seq<Event>, n: nat, children: seq<Child> ::
      SucceedsAfterCancel(s, events, n, children)
  {
    var s0, s2 := Alone(Pending, Active), Alone(Running, Canceling);
    OnlyOneStarts();
    OnlyOneIsCanceled();
    assert Observe(s2.targets, [ChildSucceeded]) == [Succeeded];
    CancelRun(s0,
      Reconcile(Metadata(Active, false), [], Launched), Operator(Canceling, [], Refused),
      Alone(Running, Active), s2, [ChildSucceeded]);
  }
}
