/** The chat event stream: a client is sent the log of a session from its cursor
    on. The stream is woken through a one-slot channel that forgets all but the
    newest event, and reads the log in pages; appending to the log and publishing
    are separate steps of other threads. */
module ChatStream {

  const PAGE: nat := 100

  /** The ids of the log entries after a cursor, in log order. */
  function After(log: seq<int>, cursor: int): seq<int> {
    if log == [] then []
    else if log[0] > cursor then [log[0]] + After(log[1..], cursor)
    else After(log[1..], cursor)
  }

  function Take(s: seq<int>, n: nat): seq<int> {
    if |s| <= n then s else s[..n]
  }

  /** One page of the log, as the store lists it. */
  function ListPage(log: seq<int>, cursor: int): seq<int> {
    Take(After(log, cursor), PAGE)
  }

  predicate Ascending(log: seq<int>) {
    forall i, j :: 0 <= i < j < |log| ==> log[i] < log[j]
  }

  /** What the stream is doing: about to list a page, writing one out, or waiting. */
  datatype Phase = Listing | Writing(page: seq<int>, last: bool) | Idle

  /** `announced` is the log as it was at the last Publish, `slot` whether the
      wake-up channel holds an event, `written` what the client has been sent. */
  datatype State = State(
    log: seq<int>,
    announced: seq<int>,
    slot: bool,
    phase: Phase,
    cursor: int,
    written: seq<int>)

  datatype Event = Append(id: int) | Publish | List | Write | Rest | Wake

  /** A client connects: the stream subscribes first and lists afterwards, so the
      channel is empty and the log holds whatever was appended before. */
  function Connected(log: seq<int>, announced: seq<int>, cursor: int): State {
    State(log, announced, false, Listing, cursor, [])
  }

  /** Whether the event can happen. */
  predicate Enabled(s: State, e: Event) {
    match e
    case Append(id) => s.log == [] || id > s.log[|s.log| - 1]
    case Publish => true
    case List => s.phase.Listing?
    case Write => s.phase.Writing? && s.phase.page != []
    case Rest => s.phase.Writing? && s.phase.page == []
    case Wake => s.phase.Idle? && s.slot
  }

  function Step(s: State, e: Event): State
    requires Enabled(s, e)
  {
    match e
    case Append(id) => s.(log := s.log + [id])
    case Publish => s.(announced := s.log, slot := true)
    case List =>
      var page := ListPage(s.log, s.cursor);
      s.(phase := Writing(page, |page| < PAGE))
    case Write =>
      s.(written := s.written + [s.phase.page[0]], cursor := s.phase.page[0],
         phase := Writing(s.phase.page[1..], s.phase.last))
    case Rest => s.(phase := if s.phase.last then Idle else Listing)
    case Wake => s.(slot := false, phase := Listing)
  }

  ghost predicate Possible(s: State, events: seq<Event>)
    decreases |events|, 0
  {
    events != [] ==>
      && Possible(s, events[..|events| - 1])
      && Enabled(Run(s, events[..|events| - 1]), events[|events| - 1])
  }

  ghost function Run(s: State, events: seq<Event>): State
    requires Possible(s, events)
    decreases |events|, 1
  {
    if events == [] then s else Step(Run(s, events[..|events| - 1]), events[|events| - 1])
  }

  /** The entries of `log` after the client's cursor have all been sent. */
  predicate Sent(log: seq<int>, start: int, written: seq<int>) {
    After(log, start) <= written
  }

  predicate Inv(s: State, start: int) {
    && Ascending(s.log) && s.announced <= s.log
    && s.cursor == (if s.written == [] then start else s.written[|s.written| - 1])
    && s.written + (if s.phase.Writing? then s.phase.page else []) <= After(s.log, start)
    && (s.phase.Writing? && s.phase.last && !s.slot ==> Sent(s.announced, start, s.written + s.phase.page))
    && (s.phase.Idle? && !s.slot ==> Sent(s.announced, start, s.written))
  }

  lemma {:induction false} AfterConcat(a: seq<int>, b: seq<int>, cursor: int)
    ensures After(a + b, cursor) == After(a, cursor) + After(b, cursor)
  {
    if a == [] {
      assert a + b == b;
    } else {
      AfterConcat(a[1..], b, cursor);
      assert (a + b)[0] == a[0] && (a + b)[1..] == a[1..] + b;
    }
  }

  /** A longer log has the earlier entries in the same places. */
  lemma AfterGrows(a: seq<int>, b: seq<int>, cursor: int)
    requires a <= b
    ensures After(a, cursor) <= After(b, cursor)
  {
    AfterConcat(a, b[|a|..], cursor);
    assert a + b[|a|..] == b;
  }

  lemma {:induction false} AfterIsAscending(log: seq<int>, cursor: int)
    requires Ascending(log)
    ensures Ascending(After(log, cursor))
    ensures forall x :: x in After(log, cursor) <==> x in log && x > cursor
  {
    if log != [] {
      AfterIsAscending(log[1..], cursor);
      assert forall x :: x in log[1..] ==> x > log[0];
      var rest := After(log[1..], cursor);
      forall i | 0 <= i < |rest| ensures rest[i] > log[0] {
        assert rest[i] in rest;
      }
      assert forall x :: x in log <==> x == log[0] || x in log[1..];
    }
  }

  lemma {:induction false} AfterAll(log: seq<int>, cursor: int)
    requires forall i :: 0 <= i < |log| ==> log[i] > cursor
    ensures After(log, cursor) == log
  {
    if log != [] {
      AfterAll(log[1..], cursor);
    }
  }

  /** Listing from the entry at position n of a listing continues right behind it. */
  lemma {:induction false} ResumeAt(log: seq<int>, start: int, n: nat)
    requires Ascending(log) && n < |After(log, start)|
    ensures After(log, After(log, start)[n]) == After(log, start)[n + 1..]
  {
    var tail := log[1..];
    var rest := After(tail, start);
    AfterIsAscending(tail, start);
    if log[0] <= start {
      assert rest[n] in rest;
      ResumeAt(tail, start, n);
    } else if n == 0 {
      AfterAll(tail, start);
      AfterAll(tail, log[0]);
    } else {
      assert rest[n - 1] in rest && rest[n - 1] in tail;
      ResumeAt(tail, start, n - 1);
    }
  }

  /** Listing from the last entry sent continues exactly where the stream stopped. */
  lemma Resume(log: seq<int>, start: int, written: seq<int>)
    requires Ascending(log) && written != [] && written <= After(log, start)
    ensures After(log, written[|written| - 1]) == After(log, start)[|written|..]
  {
    ResumeAt(log, start, |written| - 1);
  }

  lemma ListKeepsInv(s: State, start: int)
    requires Inv(s, start) && s.phase.Listing?
    ensures Inv(Step(s, List), start)
  {
    if s.written != [] {
      Resume(s.log, start, s.written);
    }
    AfterGrows(s.announced, s.log, start);
    var all, page := After(s.log, start), ListPage(s.log, s.cursor);
    assert s.written + page <= all;
    assert |page| < PAGE ==> s.written + page == all;
  }

  /** A short page takes the stream to the end of the log as it was listed. */
  lemma ListedAll(s: State, start: int)
    requires Inv(s, start) && s.phase.Listing? && |ListPage(s.log, s.cursor)| < PAGE
    ensures s.written + ListPage(s.log, s.cursor) == After(s.log, start)
  {
    if s.written != [] {
      Resume(s.log, start, s.written);
    }
  }

  lemma StepKeepsInv(s: State, e: Event, start: int)
    requires Inv(s, start) && Enabled(s, e)
    ensures Inv(Step(s, e), start)
  {
    match e
    case Append(id) => AfterGrows(s.log, s.log + [id], start);
    case List => ListKeepsInv(s, start);
    case Write => assert s.written + [s.phase.page[0]] + s.phase.page[1..] == s.written + s.phase.page;
    case Publish =>
    case Rest =>
    case Wake =>
  }

  lemma {:induction false} RunKeepsInv(log: seq<int>, announced: seq<int>, start: int, events: seq<Event>)
    requires Ascending(log) && announced <= log && Possible(Connected(log, announced, start), events)
    ensures Inv(Run(Connected(log, announced, start), events), start)
  {
    if events != [] {
      var before := events[..|events| - 1];
      RunKeepsInv(log, announced, start, before);
      StepKeepsInv(Run(Connected(log, announced, start), before), events[|events| - 1], start);
    }
  }

  /** Whatever the interleaving, the client has been sent exactly a first part of
      the log after its cursor: in order, nothing skipped, nothing twice. */
  lemma StreamIsLossless(log: seq<int>, announced: seq<int>, start: int, events: seq<Event>)
    requires Ascending(log) && announced <= log && Possible(Connected(log, announced, start), events)
    ensures
      var s := Run(Connected(log, announced, start), events);
      && s.written <= After(s.log, start)
      && Ascending(s.written)
      && forall x :: x in s.log && start < x <= s.cursor ==> x in s.written
  {
    RunKeepsInv(log, announced, start, events);
    var s := Run(Connected(log, announced, start), events);
    AfterIsAscending(s.log, start);
    var all := After(s.log, start);
    forall x | x in s.log && start < x <= s.cursor ensures x in s.written {
      var i :| 0 <= i < |all| && all[i] == x;
      assert s.written == all[..|s.written|];
    }
  }

  /** When the stream waits on an empty channel, everything appended before the
      last Publish has been sent, although the channel kept only one wake-up. */
  lemma WaitingMeansCaughtUp(log: seq<int>, announced: seq<int>, start: int, events: seq<Event>)
    requires Ascending(log) && announced <= log && Possible(Connected(log, announced, start), events)
    ensures
      var s := Run(Connected(log, announced, start), events);
      s.phase.Idle? && !s.slot ==> forall x :: x in s.announced && x > start ==> x in s.written
  {
    RunKeepsInv(log, announced, start, events);
    var s := Run(Connected(log, announced, start), events);
    assert Ascending(s.announced);
    AfterIsAscending(s.announced, start);
    assert s.phase.Idle? && !s.slot ==> forall x :: x in After(s.announced, start) ==> x in s.written;
  }

  function Count(events: seq<Event>, e: Event): nat {
    if events == [] then 0
    else Count(events[..|events| - 1], e) + if events[|events| - 1] == e then 1 else 0
  }

  /** The stream is never woken without cause: each wake-up uses up a Publish that no
      earlier one did. */
  lemma {:induction false} WakesArePublished(log: seq<int>, announced: seq<int>, start: int, events: seq<Event>)
    requires Possible(Connected(log, announced, start), events)
    ensures Count(events, Wake) + (if Run(Connected(log, announced, start), events).slot then 1 else 0)
         <= Count(events, Publish)
  {
    if events != [] {
      WakesArePublished(log, announced, start, events[..|events| - 1]);
    }
  }

  lemma {:induction false} AfterIsShorter(log: seq<int>, cursor: int)
    ensures |After(log, cursor)| <= |log|
  {
    if log != [] {
      AfterIsShorter(log[1..], cursor);
    }
  }

  /** The handler's own fields, with the log and the channel it shares with other
      threads. `limit` bounds the length the log reaches in the run considered. */
  class Stream {
    var log: seq<int>
    ghost var announced: seq<int>
    var slot: bool
    var afterID: int
    var written: seq<int>
    const limit: nat

    constructor (log: seq<int>, cursor: int, limit: nat)
      requires |log| <= limit
      ensures View(Listing) == Connected(log, [], cursor) && this.limit == limit
    {
      this.log := log;
      this.limit := limit;
      announced := [];
      slot := false;
      afterID := cursor;
      written := [];
    }

    ghost function View(phase: Phase): State
      reads this
    {
      State(log, announced, slot, phase, afterID, written)
    }

    ghost predicate Valid(phase: Phase, start: int)
      reads this
    {
      Inv(View(phase), start) && |log| <= limit
    }

    /** Another thread takes one step: it appends an entry, or publishes. */
    method OtherStep(ghost phase: Phase)
      modifies `log, `announced, `slot
      ensures |log| <= limit || log == old(log)
      ensures
        || View(phase) == old(View(phase))
        || View(phase) == Step(old(View(phase)), Publish)
        || exists id :: Enabled(old(View(phase)), Append(id)) && View(phase) == Step(old(View(phase)), Append(id))
    {
      var appends: bool, gap: nat := *, *;
      if !appends {
        announced := log;
        slot := true;
      } else if |log| < limit {
        var id := 1 + gap + if log == [] then 0 else log[|log| - 1];
        assert Enabled(View(phase), Append(id));
        log := log + [id];
      }
    }

    method OthersRun(ghost phase: Phase, ghost start: int)
      requires Valid(phase, start)
      modifies `log, `announced, `slot
      ensures Valid(phase, start) && old(log) <= log
    {
      var turns: nat := *;
      while turns > 0
        invariant Valid(phase, start) && old(log) <= log
      {
        ghost var s := View(phase);
        OtherStep(phase);
        if View(phase) == Step(s, Publish) {
          StepKeepsInv(s, Publish, start);
        } else if View(phase) != s {
          ghost var id :| Enabled(s, Append(id)) && View(phase) == Step(s, Append(id));
          StepKeepsInv(s, Append(id), start);
        }
        turns := turns - 1;
      }
    }

    method ListChatEvents() returns (events: seq<int>)
      ensures events == ListPage(log, afterID)
    {
      events := [];
      var i := 0;
      assert log[..0] == [];
      while i < |log| && |events| < PAGE
        invariant 0 <= i <= |log| && |events| <= PAGE
        invariant events == After(log[..i], afterID)
      {
        AfterConcat(log[..i], [log[i]], afterID);
        assert log[..i + 1] == log[..i] + [log[i]];
        if log[i] > afterID {
          events := events + [log[i]];
        }
        i := i + 1;
      }
      AfterConcat(log[..i], log[i..], afterID);
      assert log[..i] + log[i..] == log;
    }

    method WriteChatEvent(id: int)
      modifies `written, `afterID
      ensures written == old(written) + [id] && afterID == id
    {
      written := written + [id];
      afterID := id;
    }

    /** Writing one page out, others running meanwhile. */
    method WritePage(events: seq<int>, ghost last: bool, ghost start: int)
      requires Valid(Writing(events, last), start)
      modifies this
      ensures Valid(Writing([], last), start)
      ensures written == old(written) + events && old(log) <= log
    {
      assert events[..0] == [];
      for index := 0 to |events|
        invariant Valid(Writing(events[index..], last), start)
        invariant written == old(written) + events[..index] && old(log) <= log
      {
        OthersRun(Writing(events[index..], last), start);
        ghost var s := View(Writing(events[index..], last));
        StepKeepsInv(s, Write, start);
        WriteChatEvent(events[index]);
        assert events[index..][1..] == events[index + 1..];
        assert View(Writing(events[index + 1..], last)) == Step(s, Write);
        assert events[..index + 1] == events[..index] + [events[index]];
      }
      assert events[..|events|] == events;
    }

    /** One turn of the drain loop. */
    method DrainPage(ghost start: int) returns (last: bool)
      requires Valid(Listing, start)
      modifies this
      ensures Valid(Writing([], last), start)
      ensures old(log) <= log && old(written) <= written
      ensures if last then Sent(old(log), start, written) else |written| == |old(written)| + PAGE
    {
      OthersRun(Listing, start);
      ghost var s := View(Listing);
      StepKeepsInv(s, List, start);
      var events := ListChatEvents();
      last := |events| < PAGE;
      assert View(Writing(events, last)) == Step(s, List);
      if last {
        ListedAll(s, start);
        AfterGrows(old(log), s.log, start);
      }
      WritePage(events, last, start);
    }

    /** The drain loop: list and write pages until one comes back short. */
    method Drain(ghost start: int)
      requires Valid(Listing, start)
      modifies this
      ensures Valid(Idle, start)
      ensures old(log) <= log && old(written) <= written && Sent(old(log), start, written)
    {
      var last := false;
      while !last
        invariant Valid(if last then Idle else Listing, start)
        invariant old(log) <= log && old(written) <= written
        invariant last ==> Sent(old(log), start, written)
        decreases limit - |written|, !last
      {
        ghost var before := log;
        last := DrainPage(start);
        StepKeepsInv(View(Writing([], last)), Rest, start);
        AfterGrows(old(log), before, start);
        AfterIsShorter(log, start);
      }
    }

    /** Serving one client: drain, then wait for a wake-up or a heartbeat, `turns`
        times. Between turns the stream waits with everything announced sent,
        unless a wake-up is already in the channel. */
    method ChatEvents(turns: nat, ghost start: int)
      requires Valid(Listing, start)
      modifies this
      ensures Valid(Idle, start) && old(written) <= written && Sent(old(log), start, written)
      ensures !slot ==> Sent(announced, start, written)
    {
      Drain(start);
      for turn := 0 to turns
        invariant Valid(Idle, start)
        invariant old(written) <= written && Sent(old(log), start, written)
      {
        OthersRun(Idle, start);
        var heartbeat: bool := *;
        if slot && !heartbeat {
          StepKeepsInv(View(Idle), Wake, start);
          slot := false;
          Drain(start);
        }
      }
    }
  }
}
