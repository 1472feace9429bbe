/** Campaigns: a diagnostics refresh over many instances, a few at a time. A
    reconciler settles the targets that are running, then starts pending ones up to
    the campaign's concurrency. */
module Campaign {
  import opened Options

  datatype Status = Pending | Running | Succeeded | Failed | Blocked

  type RequestId = nat

  datatype Target = Target(status: Status, request: RequestId, requestedAt: Option<int>)

  /** What the store says of a running target's instance: gone, not readable now, or
      its pending observation request and when its last observation arrived. */
  datatype Look = Gone | Unreadable | Found(request: Option<RequestId>, receivedAt: Option<int>)

  /** What comes of queueing a target. */
  datatype Queueing = Started(request: RequestId) | Refused | Broken

  /** What one pass sees. */
  datatype World = World(now: int, looks: seq<Look>, queueings: seq<Queueing>)

  predicate Open(t: Target) {
    t.status.Pending? || t.status.Running?
  }

  /** A running target settles on a fresh observation, on a lost instance or
      request, or when time is up, in this order. */
  function Settled(t: Target, look: Look, now: int, timeout: nat): Target {
    if !t.status.Running? || t.requestedAt.None? then t
    else match look
      case Gone => t.(status := Failed)
      case Unreadable => t
      case Found(request, receivedAt) =>
        if request.None? && receivedAt.Some? && receivedAt.value >= t.requestedAt.value then t.(status := Succeeded)
        else if request.Some? && request.value != t.request then t.(status := Failed)
        else if now - t.requestedAt.value >= timeout then t.(status := Failed)
        else t
  }

  function Queued(t: Target, q: Queueing, now: int): Target {
    match q
    case Started(request) => Target(Running, request, Some(now))
    case Refused => t.(status := Blocked)
    case Broken => t.(status := Failed)
  }

  /** The first loop of a pass, from target `i` on. */
  function SettleFrom(ts: seq<Target>, w: World, timeout: nat, i: nat): seq<Target>
    requires i <= |ts| <= |w.looks|
    decreases |ts| - i
  {
    if i == |ts| then ts else SettleFrom(ts[i := Settled(ts[i], w.looks[i], w.now, timeout)], w, timeout, i + 1)
  }

  /** The second loop, from target `i` on with `running` targets running. */
  function StartFrom(ts: seq<Target>, w: World, concurrency: nat, running: nat, i: nat): seq<Target>
    requires i <= |ts| <= |w.queueings|
    decreases |ts| - i
  {
    if i == |ts| || running >= concurrency then ts
    else if !ts[i].status.Pending? then StartFrom(ts, w, concurrency, running, i + 1)
    else
      var t := Queued(ts[i], w.queueings[i], w.now);
      StartFrom(ts[i := t], w, concurrency, if t.status.Running? then running + 1 else running, i + 1)
  }

  function Count(ts: seq<Target>, status: Status): nat {
    if ts == [] then 0
    else Count(ts[..|ts| - 1], status) + if ts[|ts| - 1].status == status then 1 else 0
  }

  predicate AllClosed(ts: seq<Target>) {
    forall i :: 0 <= i < |ts| ==> !Open(ts[i])
  }

  /** A whole pass. */
  function Pass(ts: seq<Target>, w: World, concurrency: nat, timeout: nat): seq<Target>
    requires |ts| <= |w.looks| && |ts| <= |w.queueings|
    ensures |Pass(ts, w, concurrency, timeout)| == |ts|
  {
    SettleLength(ts, w, timeout, 0);
    var settled := SettleFrom(ts, w, timeout, 0);
    if AllClosed(settled) then settled
    else
      StartLength(settled, w, concurrency, Count(settled, Running), 0);
      StartFrom(settled, w, concurrency, Count(settled, Running), 0)
  }

  lemma {:induction false} SettleLength(ts: seq<Target>, w: World, timeout: nat, i: nat)
    requires i <= |ts| <= |w.looks|
    ensures |SettleFrom(ts, w, timeout, i)| == |ts|
    decreases |ts| - i
  {
    if i < |ts| {
      SettleLength(ts[i := Settled(ts[i], w.looks[i], w.now, timeout)], w, timeout, i + 1);
    }
  }

  lemma {:induction false} StartLength(ts: seq<Target>, w: World, concurrency: nat, running: nat, i: nat)
    requires i <= |ts| <= |w.queueings|
    ensures |StartFrom(ts, w, concurrency, running, i)| == |ts|
    decreases |ts| - i
  {
    if i < |ts| && running < concurrency {
      if !ts[i].status.Pending? {
        StartLength(ts, w, concurrency, running, i + 1);
      } else {
        var t := Queued(ts[i], w.queueings[i], w.now);
        StartLength(ts[i := t], w, concurrency, if t.status.Running? then running + 1 else running, i + 1);
      }
    }
  }

  function One(t: Target, status: Status): nat {
    if t.status == status then 1 else 0
  }

  lemma {:induction false} CountUpdate(ts: seq<Target>, i: nat, t: Target, status: Status)
    requires i < |ts|
    ensures Count(ts[i := t], status) + One(ts[i], status) == Count(ts, status) + One(t, status)
  {
    var n := |ts| - 1;
    if i < n {
      CountUpdate(ts[..n], i, t, status);
      assert ts[i := t][..n] == ts[..n][i := t];
    } else {
      assert ts[i := t][..n] == ts[..n];
    }
  }

  /** Targets are pending, running or done, and nothing else. */
  lemma {:induction false} CountsAddUp(ts: seq<Target>)
    ensures Count(ts, Pending) + Count(ts, Running) + Count(ts, Succeeded) + Count(ts, Failed) + Count(ts, Blocked) ==
      |ts|
  {
    if ts != [] {
      CountsAddUp(ts[..|ts| - 1]);
    }
  }

  lemma {:induction false} CountIsZero(ts: seq<Target>, status: Status)
    ensures Count(ts, status) == 0 <==> forall i :: 0 <= i < |ts| ==> ts[i].status != status
  {
    if ts != [] {
      var n := |ts| - 1;
      CountIsZero(ts[..n], status);
      assert forall i :: 0 <= i < n ==> ts[..n][i] == ts[i];
    }
  }

  /** What is left to do: a pending target takes two steps, a running one takes one. */
  function Left(ts: seq<Target>): nat {
    2 * Count(ts, Pending) + Count(ts, Running)
  }

  /** One target's life: pending, then running, then done, or done at once. */
  predicate Moves(a: Target, b: Target) {
    match a.status
    case Pending => true
    case Running => !b.status.Pending?
    case _ => b == a
  }

  /** Running targets know when they were started. */
  predicate Dated(ts: seq<Target>) {
    forall i :: 0 <= i < |ts| && ts[i].status.Running? ==> ts[i].requestedAt.Some?
  }

  /** The effect of one loop on the counts and on every target. */
  predicate Advances(a: seq<Target>, b: seq<Target>) {
    && |a| == |b| && Left(b) <= Left(a) && (a != b ==> Left(b) < Left(a))
    && (forall i :: 0 <= i < |a| ==> Moves(a[i], b[i]))
    && (Dated(a) ==> Dated(b))
  }

  lemma AdvancesIsTransitive(a: seq<Target>, b: seq<Target>, c: seq<Target>)
    requires Advances(a, b) && Advances(b, c)
    ensures Advances(a, c)
  {
    forall i | 0 <= i < |a| ensures Moves(a[i], c[i]) {
      assert Moves(a[i], b[i]) && Moves(b[i], c[i]);
    }
  }

  lemma OneAdvances(ts: seq<Target>, i: nat, t: Target)
    requires i < |ts| && (t == ts[i] ||
      (Open(ts[i]) && Moves(ts[i], t) && t.status != ts[i].status && !t.status.Pending?))
    requires t.status.Running? ==> t.requestedAt.Some? || t == ts[i]
    ensures Advances(ts, ts[i := t])
  {
    CountUpdate(ts, i, t, Pending);
    CountUpdate(ts, i, t, Running);
  }

  /** Settling only ever frees places. */
  lemma {:induction false} SettleFacts(ts: seq<Target>, w: World, timeout: nat, i: nat)
    requires i <= |ts| <= |w.looks|
    ensures
      var r := SettleFrom(ts, w, timeout, i);
      && Advances(ts, r) && Count(r, Running) <= Count(ts, Running)
      && (forall j :: 0 <= j < |ts| ==> r[j] == if j < i then ts[j] else Settled(ts[j], w.looks[j], w.now, timeout))
    decreases |ts| - i
  {
    if i < |ts| {
      var t := Settled(ts[i], w.looks[i], w.now, timeout);
      var next := ts[i := t];
      OneAdvances(ts, i, t);
      CountUpdate(ts, i, t, Running);
      SettleFacts(next, w, timeout, i + 1);
      AdvancesIsTransitive(ts, next, SettleFrom(ts, w, timeout, i));
    }
  }

  /** Starting takes pending targets only. */
  lemma {:induction false} StartFacts(ts: seq<Target>, w: World, concurrency: nat, running: nat, i: nat)
    requires i <= |ts| <= |w.queueings|
    ensures
      var r := StartFrom(ts, w, concurrency, running, i);
      && Advances(ts, r)
      && (forall j :: 0 <= j < |ts| ==>
        r[j] == ts[j] || (ts[j].status.Pending? && r[j] == Queued(ts[j], w.queueings[j], w.now)))
    decreases |ts| - i
  {
    if i < |ts| && running < concurrency {
      if !ts[i].status.Pending? {
        StartFacts(ts, w, concurrency, running, i + 1);
      } else {
        var t := Queued(ts[i], w.queueings[i], w.now);
        var next := ts[i := t];
        OneAdvances(ts, i, t);
        StartFacts(next, w, concurrency, if t.status.Running? then running + 1 else running, i + 1);
        AdvancesIsTransitive(ts, next, StartFrom(ts, w, concurrency, running, i));
      }
    }
  }

  /** Starting fills the free places and no more, and leaves a place free only if
      nothing is pending. */
  lemma {:induction false} StartFills(ts: seq<Target>, w: World, concurrency: nat, running: nat, i: nat)
    requires i <= |ts| <= |w.queueings| && running == Count(ts, Running)
    requires forall j :: 0 <= j < i ==> !ts[j].status.Pending?
    ensures
      var r := StartFrom(ts, w, concurrency, running, i);
      && (running <= concurrency ==> Count(r, Running) <= concurrency)
      && (Count(r, Running) < concurrency ==> forall j :: 0 <= j < |r| ==> !r[j].status.Pending?)
    decreases |ts| - i
  {
    if i < |ts| && running < concurrency {
      if !ts[i].status.Pending? {
        StartFills(ts, w, concurrency, running, i + 1);
      } else {
        var t := Queued(ts[i], w.queueings[i], w.now);
        CountUpdate(ts, i, t, Running);
        StartFills(ts[i := t], w, concurrency, if t.status.Running? then running + 1 else running, i + 1);
      }
    }
  }

  /** Pending targets are taken in order: behind one that stays pending none is taken. */
  lemma {:induction false} StartsInOrder(ts: seq<Target>, w: World, concurrency: nat, running: nat, i: nat, j: nat,
          k: nat)
    requires i <= |ts| <= |w.queueings| && i <= j < k < |ts|
    requires |StartFrom(ts, w, concurrency, running, i)| == |ts|
    ensures
      var r := StartFrom(ts, w, concurrency, running, i);
      r[j].status.Pending? ==> r[k] == ts[k]
    decreases |ts| - i
  {
    if running < concurrency {
      if !ts[i].status.Pending? {
        if i < j {
          StartsInOrder(ts, w, concurrency, running, i + 1, j, k);
        } else {
          StartFacts(ts, w, concurrency, running, i + 1);
        }
      } else {
        var t := Queued(ts[i], w.queueings[i], w.now);
        var more := if t.status.Running? then running + 1 else running;
        if i < j {
          StartsInOrder(ts[i := t], w, concurrency, more, i + 1, j, k);
        } else {
          StartFacts(ts[i := t], w, concurrency, more, i + 1);
        }
      }
    }
  }

  /** A pass keeps to the campaign's concurrency and only moves targets forwards. */
  lemma PassFacts(ts: seq<Target>, w: World, concurrency: nat, timeout: nat)
    requires |ts| <= |w.looks| && |ts| <= |w.queueings|
    ensures Advances(ts, Pass(ts, w, concurrency, timeout))
    ensures Count(ts, Running) <= concurrency ==> Count(Pass(ts, w, concurrency, timeout), Running) <= concurrency
  {
    var settled := SettleFrom(ts, w, timeout, 0);
    SettleFacts(ts, w, timeout, 0);
    if !AllClosed(settled) {
      StartFacts(settled, w, concurrency, Count(settled, Running), 0);
      StartFills(settled, w, concurrency, Count(settled, Running), 0);
      AdvancesIsTransitive(ts, settled, Pass(ts, w, concurrency, timeout));
    }
  }

  /** What becomes of one target in a pass: a running one by what was seen of its
      instance, a pending one by what came of queueing it. */
  lemma PassFate(ts: seq<Target>, w: World, concurrency: nat, timeout: nat, i: nat)
    requires |ts| <= |w.looks| && |ts| <= |w.queueings| && i < |ts| && Dated(ts)
    ensures
      var t, u := ts[i], Pass(ts, w, concurrency, timeout)[i];
      && (t.status in {Succeeded, Failed, Blocked} ==> u == t)
      && (t.status == Running ==>
        && (u.status == Succeeded <==> Answered(t, w.looks[i]))
        && (u.status == Failed <==>
             || w.looks[i].Gone?
             || (w.looks[i].Found? && !Answered(t, w.looks[i])
                 && (Superseded(t, w.looks[i]) || w.now - t.requestedAt.value >= timeout)))
        && (u.status in {Running, Succeeded, Failed} && (u.status == Running ==> u == t)))
      && (t.status == Pending && u.status != Pending ==>
        match w.queueings[i]
        case Started(request) => u == Target(Running, request, Some(w.now))
        case Refused => u.status == Blocked
        case Broken => u.status == Failed)
  {
    var settled := SettleFrom(ts, w, timeout, 0);
    SettleFacts(ts, w, timeout, 0);
    if !AllClosed(settled) {
      StartFacts(settled, w, concurrency, Count(settled, Running), 0);
    }
  }

  /** An observation received at or after the target's request, and none asked for any more. */
  predicate Answered(t: Target, look: Look) {
    && look.Found? && look.request == None
    && look.receivedAt.Some? && t.requestedAt.Some? && t.requestedAt.value <= look.receivedAt.value
  }

  /** Another observation has been asked for instead. */
  predicate Superseded(t: Target, look: Look) {
    look.Found? && look.request.Some? && look.request != Some(t.request)
  }

  /** A running target that a pass would leave running. */
  predicate Waits(t: Target, look: Look, now: int, timeout: nat) {
    Settled(t, look, now, timeout) == t
  }

  /** A pass changes nothing exactly if no running target settles and there is
      nothing to start or no place to start it in. */
  lemma IdleExactly(ts: seq<Target>, w: World, concurrency: nat, timeout: nat)
    requires |ts| <= |w.looks| && |ts| <= |w.queueings| && concurrency > 0
    ensures Pass(ts, w, concurrency, timeout) == ts <==>
      && (forall i :: 0 <= i < |ts| ==> Waits(ts[i], w.looks[i], w.now, timeout))
      && (Count(ts, Pending) == 0 || Count(ts, Running) >= concurrency)
  {
    SettleFacts(ts, w, timeout, 0);
    if SettleFrom(ts, w, timeout, 0) == ts {
      IdleIfSettled(ts, w, concurrency, timeout);
    } else {
      ActiveIfSettles(ts, w, concurrency, timeout);
    }
  }

  lemma IdleIfSettled(ts: seq<Target>, w: World, concurrency: nat, timeout: nat)
    requires |ts| <= |w.looks| && |ts| <= |w.queueings| && concurrency > 0 && SettleFrom(ts, w, timeout, 0) == ts
    ensures Pass(ts, w, concurrency, timeout) == ts <==> Count(ts, Pending) == 0 || Count(ts, Running) >= concurrency
  {
    CountIsZero(ts, Pending);
    if !AllClosed(ts) {
      StartFacts(ts, w, concurrency, Count(ts, Running), 0);
      StartFills(ts, w, concurrency, Count(ts, Running), 0);
    }
  }

  lemma ActiveIfSettles(ts: seq<Target>, w: World, concurrency: nat, timeout: nat)
    requires |ts| <= |w.looks| && |ts| <= |w.queueings| && SettleFrom(ts, w, timeout, 0) != ts
    ensures Pass(ts, w, concurrency, timeout) != ts
  {
    var settled := SettleFrom(ts, w, timeout, 0);
    SettleFacts(ts, w, timeout, 0);
    if !AllClosed(settled) {
      StartFacts(settled, w, concurrency, Count(settled, Running), 0);
    }
  }

  /** A pass late enough for every running target, that can read all of them. */
  predicate Ripe(ts: seq<Target>, w: World, timeout: nat)
    requires |ts| <= |w.looks|
  {
    forall i :: 0 <= i < |ts| && ts[i].status.Running? ==>
      !w.looks[i].Unreadable? && (ts[i].requestedAt.Some? ==> w.now - ts[i].requestedAt.value >= timeout)
  }

  lemma RipePassAdvances(ts: seq<Target>, w: World, concurrency: nat, timeout: nat)
    requires |ts| <= |w.looks| && |ts| <= |w.queueings| && concurrency > 0
    requires Dated(ts) && Ripe(ts, w, timeout) && !AllClosed(ts)
    ensures Left(Pass(ts, w, concurrency, timeout)) < Left(ts)
  {
    PassFacts(ts, w, concurrency, timeout);
    IdleExactly(ts, w, concurrency, timeout);
    CountIsZero(ts, Running);
    CountIsZero(ts, Pending);
    forall i | 0 <= i < |ts| && ts[i].status.Running? ensures !Waits(ts[i], w.looks[i], w.now, timeout) {
    }
  }

  /** The targets before each pass of a run, and after the last. */
  ghost predicate Run(states: seq<seq<Target>>, worlds: seq<World>, concurrency: nat, timeout: nat) {
    && |states| == |worlds| + 1
    && forall i :: 0 <= i < |worlds| ==>
         |states[i]| <= |worlds[i].looks| && |states[i]| <= |worlds[i].queueings|
         && states[i + 1] == Pass(states[i], worlds[i], concurrency, timeout)
  }

  /** Over any run of passes: never more targets running than allowed, each target
      goes from pending to running to done, and none is lost. */
  lemma {:induction false} RunIsBounded(states: seq<seq<Target>>, worlds: seq<World>, concurrency: nat, timeout: nat,
          i: nat)
    requires Run(states, worlds, concurrency, timeout) && i < |states|
    requires forall j :: 0 <= j < |states[0]| ==> states[0][j].status.Pending?
    ensures Count(states[i], Running) <= concurrency && Advances(states[0], states[i]) && Dated(states[i])
    ensures i > 0 ==> Advances(states[i - 1], states[i])
    ensures
      Count(states[i], Pending) + Count(states[i], Running) + Count(states[i], Succeeded)
      + Count(states[i], Failed) + Count(states[i], Blocked) == |states[0]|
  {
    CountsAddUp(states[i]);
    if i == 0 {
      CountIsZero(states[0], Running);
    } else {
      RunIsBounded(states, worlds, concurrency, timeout, i - 1);
      PassFacts(states[i - 1], worlds[i - 1], concurrency, timeout);
      AdvancesIsTransitive(states[0], states[i - 1], states[i]);
    }
  }

  /** Pass `n` of a run finds target `i` running, and sees its answer. */
  ghost predicate AnsweredAt(states: seq<seq<Target>>, worlds: seq<World>, n: nat, i: nat)
    requires n < |states| && n < |worlds|
  {
    i < |states[n]| && i < |worlds[n].looks| && states[n][i].status == Running
    && Answered(states[n][i], worlds[n].looks[i])
  }

  /** Pass `n` of a run queues target `i`, as `t`. */
  ghost predicate StartedAt(states: seq<seq<Target>>, worlds: seq<World>, n: nat, i: nat, t: Target)
    requires n < |states| && n < |worlds|
  {
    i < |states[n]| && i < |worlds[n].queueings| && states[n][i].status == Pending
    && worlds[n].queueings[i] == Started(t.request) && t.requestedAt == Some(worlds[n].now)
  }

  /** Over any run a target has succeeded exactly if some pass found it running and saw
      an observation received at or after its request with no request pending; and a
      running target was queued by an earlier pass, with that request, at that time. */
  lemma {:induction false} SucceedsExactly(states: seq<seq<Target>>, worlds: seq<World>, concurrency: nat, timeout: nat,
          m: nat, i: nat)
    requires Run(states, worlds, concurrency, timeout) && m < |states| && i < |states[0]|
    requires forall j :: 0 <= j < |states[0]| ==> states[0][j].status.Pending?
    ensures i < |states[m]|
    ensures states[m][i].status == Succeeded <==> exists n :: 0 <= n < m && AnsweredAt(states, worlds, n, i)
    ensures states[m][i].status == Running ==> exists n :: 0 <= n < m && StartedAt(states, worlds, n, i, states[m][i])
  {
    if m > 0 {
      var n := m - 1;
      SucceedsExactly(states, worlds, concurrency, timeout, n, i);
      RunIsBounded(states, worlds, concurrency, timeout, n);
      PassFate(states[n], worlds[n], concurrency, timeout, i);
      if states[n][i].status == Running && Answered(states[n][i], worlds[n].looks[i]) {
        assert AnsweredAt(states, worlds, n, i);
      }
      if states[m][i].status == Running && states[n][i].status == Pending {
        assert StartedAt(states, worlds, n, i, states[m][i]);
      }
    }
  }

  /** A campaign of n targets is over after at most 2n passes that come late enough. */
  lemma {:induction false} RunEnds(states: seq<seq<Target>>, worlds: seq<World>, concurrency: nat, timeout: nat, i: nat)
    requires Run(states, worlds, concurrency, timeout) && concurrency > 0 && i < |states|
    requires forall j :: 0 <= j < |states[0]| ==> states[0][j].status.Pending?
    requires forall j :: 0 <= j < |worlds| ==> |states[j]| <= |worlds[j].looks| && Ripe(states[j], worlds[j], timeout)
    ensures Left(states[i]) + i <= 2 * |states[0]| || AllClosed(states[i])
  {
    if i == 0 {
      CountsAddUp(states[0]);
    } else {
      RunEnds(states, worlds, concurrency, timeout, i - 1);
      RunIsBounded(states, worlds, concurrency, timeout, i - 1);
      var before := states[i - 1];
      if AllClosed(before) {
        ClosedStays(before, worlds[i - 1], concurrency, timeout);
      } else {
        RipePassAdvances(before, worlds[i - 1], concurrency, timeout);
      }
    }
  }

  lemma ClosedStays(ts: seq<Target>, w: World, concurrency: nat, timeout: nat)
    requires |ts| <= |w.looks| && |ts| <= |w.queueings| && AllClosed(ts)
    ensures Pass(ts, w, concurrency, timeout) == ts
  {
    SettleFacts(ts, w, timeout, 0);
    CountIsZero(ts, Pending);
    CountIsZero(ts, Running);
  }

  lemma LeftIsOpen(ts: seq<Target>)
    ensures Left(ts) == 0 <==> AllClosed(ts)
  {
    CountIsZero(ts, Pending);
    CountIsZero(ts, Running);
  }

  /** So the campaign is over by then. */
  lemma RunEndsBy(states: seq<seq<Target>>, worlds: seq<World>, concurrency: nat, timeout: nat, i: nat)
    requires Run(states, worlds, concurrency, timeout) && concurrency > 0 && i < |states|
    requires forall j :: 0 <= j < |states[0]| ==> states[0][j].status.Pending?
    requires forall j :: 0 <= j < |worlds| ==> |states[j]| <= |worlds[j].looks| && Ripe(states[j], worlds[j], timeout)
    requires i >= 2 * |states[0]|
    ensures AllClosed(states[i])
  {
    RunEnds(states, worlds, concurrency, timeout, i);
    LeftIsOpen(states[i]);
  }

  /** The state of the operation that the campaign is. */
  datatype Operation = InProgress | AllFresh | NeedsAttention | Invalid

  /** A finished campaign succeeded exactly if every target did. */
  lemma SucceededExactly(ts: seq<Target>)
    requires AllClosed(ts)
    ensures Count(ts, Failed) + Count(ts, Blocked) == 0 <==> forall i :: 0 <= i < |ts| ==> ts[i].status.Succeeded?
  {
    CountIsZero(ts, Failed);
    CountIsZero(ts, Blocked);
    forall i | 0 <= i < |ts| ensures !ts[i].status.Pending? && !ts[i].status.Running? {
      assert !Open(ts[i]);
    }
  }

  /** What a finished campaign reports. */
  function Outcome(ts: seq<Target>): Operation {
    if forall i :: 0 <= i < |ts| ==> ts[i].status.Succeeded? then AllFresh else NeedsAttention
  }

  class Reconciler {
    const targets: array<Target>
    const concurrency: nat
    const timeout: nat
    var operation: Operation

    constructor (n: nat, concurrency: nat, timeout: nat)
      ensures targets.Length == n && fresh(targets) && this.concurrency == concurrency && this.timeout == timeout
      ensures operation == InProgress && forall i :: 0 <= i < n ==> targets[i] == Target(Pending, 0, None)
    {
      targets := new Target[n](_ => Target(Pending, 0, None));
      this.concurrency, this.timeout, operation := concurrency, timeout, InProgress;
    }

    method Counts() returns (completed: nat, running: nat, failed: nat)
      ensures running == Count(targets[..], Running)
      ensures failed == Count(targets[..], Failed) + Count(targets[..], Blocked)
      ensures completed == Count(targets[..], Succeeded) + failed
    {
      completed, running, failed := 0, 0, 0;
      for i := 0 to targets.Length
        invariant running == Count(targets[..i], Running)
        invariant failed == Count(targets[..i], Failed) + Count(targets[..i], Blocked)
        invariant completed == Count(targets[..i], Succeeded) + failed
      {
        assert targets[..i + 1][..i] == targets[..i];
        match targets[i].status {
          case Running => running := running + 1;
          case Succeeded => completed := completed + 1;
          case Failed => completed, failed := completed + 1, failed + 1;
          case Blocked => completed, failed := completed + 1, failed + 1;
          case Pending =>
        }
      }
      assert targets[..targets.Length] == targets[..];
    }

    method Terminal() returns (r: bool)
      ensures r <==> AllClosed(targets[..])
    {
      for i := 0 to targets.Length
        invariant forall j :: 0 <= j < i ==> !Open(targets[j])
      {
        if Open(targets[i]) {
          assert Open(targets[..][i]);
          return false;
        }
      }
      return true;
    }

    method Settle(w: World)
      requires targets.Length <= |w.looks|
      modifies targets
      ensures targets[..] == SettleFrom(old(targets[..]), w, timeout, 0)
    {
      for i := 0 to targets.Length
        invariant SettleFrom(targets[..], w, timeout, i) == SettleFrom(old(targets[..]), w, timeout, 0)
      {
        ghost var before := targets[..];
        var t := targets[i];
        if t.status.Running? && t.requestedAt.Some? {
          var status := Running;
          match w.looks[i] {
            case Gone => status := Failed;
            case Unreadable =>
            case Found(request, receivedAt) =>
              if request.None? && receivedAt.Some? && receivedAt.value >= t.requestedAt.value {
                status := Succeeded;
              } else if request.Some? && request.value != t.request {
                status := Failed;
              } else if w.now - t.requestedAt.value >= timeout {
                status := Failed;
              }
          }
          targets[i] := t.(status := status);
        }
        assert targets[..] == before[i := Settled(before[i], w.looks[i], w.now, timeout)];
      }
    }

    method Start(w: World, running: nat)
      requires targets.Length <= |w.queueings|
      modifies targets
      ensures targets[..] == StartFrom(old(targets[..]), w, concurrency, running, 0)
    {
      var active: nat := running;
      var i := 0;
      while i < targets.Length && active < concurrency
        invariant 0 <= i <= targets.Length
        invariant StartFrom(targets[..], w, concurrency, active, i) ==
          StartFrom(old(targets[..]), w, concurrency, running, 0)
      {
        ghost var before := targets[..];
        if targets[i].status.Pending? {
          targets[i] := Queued(targets[i], w.queueings[i], w.now);
          assert targets[..] == before[i := Queued(before[i], w.queueings[i], w.now)];
          if targets[i].status.Running? {
            active := active + 1;
          }
        }
        i := i + 1;
      }
    }

    method Finish()
      requires AllClosed(targets[..])
      modifies `operation
      ensures operation == Outcome(targets[..])
    {
      var _, _, failed := Counts();
      SucceededExactly(targets[..]);
      operation := if failed > 0 then NeedsAttention else AllFresh;
    }

    /** One pass over an active campaign. */
    method Reconcile(w: World)
      requires targets.Length <= |w.looks| && targets.Length <= |w.queueings| && operation.InProgress?
      modifies this, targets
      ensures concurrency == 0 ==> operation == Invalid && targets[..] == old(targets[..])
      ensures concurrency > 0 ==> targets[..] == Pass(old(targets[..]), w, concurrency, timeout)
      ensures concurrency > 0 && !AllClosed(targets[..]) ==> operation == InProgress
      ensures concurrency > 0 && AllClosed(targets[..]) ==>
        && operation in {AllFresh, NeedsAttention}
        && (operation == AllFresh <==> forall i :: 0 <= i < targets.Length ==> targets[i].status == Succeeded)
    {
      if concurrency < 1 {
        operation := Invalid;
        return;
      }
      Settle(w);
      var over := Terminal();
      if over {
        Finish();
        return;
      }
      var _, running, _ := Counts();
      Start(w, running);
      over := Terminal();
      if over {
        Finish();
      }
    }
  }
}
