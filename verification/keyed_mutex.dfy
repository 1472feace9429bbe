/** The reference-counted lock per key. A call to `lock` registers under the outer
    lock, waits for its entry's own lock, and later releases that lock and
    deregisters under the outer lock again; calls interleave freely between these
    four steps. */
module KeyedMutex {
  import opened Options

  /** Keys are only ever compared. */
  type Key = nat

  /** One call to `lock`, from registering to deregistering. */
  type Call = nat

  /** An entry; in the state machine below only its identity matters. */
  class Entry {
    var refs: int
    var locked: bool
    ghost var owner: Option<Call>

    constructor ()
      ensures refs == 0 && !locked && owner == None
    {
      refs, locked, owner := 0, false, None;
    }
  }

  /** An entry's fields: the count, and who has its lock. */
  datatype Cell = Cell(refs: int, owner: Option<Call>)

  datatype Phase = Waiting | Holding | Released

  /** A call keeps the entry it was given, whatever becomes of the map. */
  datatype Use = Use(key: Key, entry: Entry, phase: Phase)

  datatype State = State(heap: map<Entry, Cell>, entries: map<Key, Entry>, calls: map<Call, Use>)

  /** Registering yields the entry of the map, or a new one. */
  datatype Step =
    | Register(call: Call, key: Key, entry: Entry)
    | Acquire(call: Call)
    | Unlock(call: Call)
    | Deregister(call: Call)

  predicate Enabled(s: State, step: Step) {
    match step
    case Register(c, k, e) => c !in s.calls &&
      (if k in s.entries then s.entries[k] == e && e in s.heap else e !in s.heap)
    case Acquire(c) => c in s.calls && s.calls[c].phase.Waiting? && s.calls[c].entry in s.heap &&
      s.heap[s.calls[c].entry].owner.None?
    case Unlock(c) => c in s.calls && s.calls[c].phase.Holding? && s.calls[c].entry in s.heap
    case Deregister(c) => c in s.calls && s.calls[c].phase.Released? && s.calls[c].entry in s.heap
  }

  function Next(s: State, step: Step): State
    requires Enabled(s, step)
  {
    match step
    case Register(c, k, e) =>
      var cell := if k in s.entries then s.heap[e] else Cell(0, None);
      State(s.heap[e := cell.(refs := cell.refs + 1)], s.entries[k := e], s.calls[c := Use(k, e, Waiting)])
    case Acquire(c) =>
      var u := s.calls[c];
      s.(heap := s.heap[u.entry := s.heap[u.entry].(owner := Some(c))], calls := s.calls[c := u.(phase := Holding)])
    case Unlock(c) =>
      var u := s.calls[c];
      s.(heap := s.heap[u.entry := s.heap[u.entry].(owner := None)], calls := s.calls[c := u.(phase := Released)])
    case Deregister(c) =>
      var u := s.calls[c];
      var refs := s.heap[u.entry].refs - 1;
      State(s.heap[u.entry := s.heap[u.entry].(refs := refs)],
            if refs == 0 then s.entries - {u.key} else s.entries,
            s.calls - {c})
  }

  function Users(s: State, k: Key): set<Call> {
    set c | c in s.calls && s.calls[c].key == k
  }

  /** Every registered call works on the entry the map has for its key, every entry
      of the map counts the calls registered for its key, and has some; an entry's
      lock is held by the call that thinks so. */
  ghost predicate Inv(s: State) {
    && (forall c :: c in s.calls ==> s.calls[c].key in s.entries && s.entries[s.calls[c].key] == s.calls[c].entry)
    && (forall k :: k in s.entries ==> EntryInv(s, k))
    && (forall j, k :: j in s.entries && k in s.entries && s.entries[j] == s.entries[k] ==> j == k)
    && (forall c :: c in s.calls && s.calls[c].phase.Holding? && s.calls[c].entry in s.heap ==>
      s.heap[s.calls[c].entry].owner == Some(c))
  }

  ghost predicate EntryInv(s: State, k: Key)
    requires k in s.entries
  {
    var e := s.entries[k];
    && e in s.heap && s.heap[e].refs == |Users(s, k)| > 0
    && (s.heap[e].owner.Some? ==>
          var c := s.heap[e].owner.value;
          c in s.calls && s.calls[c].entry == e && s.calls[c].phase.Holding?)
  }

  lemma RegisterCounts(s: State, step: Step, k: Key)
    requires Inv(s) && Enabled(s, step) && step.Register? && k in Next(s, step).entries
    ensures EntryInv(Next(s, step), k)
  {
    var n := Next(s, step);
    if k in s.entries {
      assert EntryInv(s, k);
    } else {
      assert Users(s, k) == {};
    }
    if k == step.key {
      assert Users(n, k) == Users(s, k) + {step.call};
    } else {
      assert Users(n, k) == Users(s, k);
    }
  }

  lemma RegisterKeepsInv(s: State, step: Step)
    requires Inv(s) && Enabled(s, step) && step.Register?
    ensures Inv(Next(s, step))
  {
    var n := Next(s, step);
    forall k | k in n.entries ensures EntryInv(n, k) {
      RegisterCounts(s, step, k);
    }
    forall k | k in s.entries ensures s.entries[k] in s.heap {
      assert EntryInv(s, k);
    }
  }

  lemma LockKeepsInv(s: State, step: Step)
    requires Inv(s) && Enabled(s, step) && (step.Acquire? || step.Unlock?)
    ensures Inv(Next(s, step))
  {
    var n := Next(s, step);
    forall k | k in n.entries ensures EntryInv(n, k) {
      assert EntryInv(s, k);
      assert Users(n, k) == Users(s, k);
    }
  }

  lemma DeregisterKeepsInv(s: State, step: Step)
    requires Inv(s) && Enabled(s, step) && step.Deregister?
    ensures Inv(Next(s, step))
  {
    var n := Next(s, step);
    var u := s.calls[step.call];
    assert EntryInv(s, u.key);
    assert Users(n, u.key) == Users(s, u.key) - {step.call};
    forall k | k in n.entries ensures EntryInv(n, k) {
      assert EntryInv(s, k);
      if k != u.key {
        assert Users(n, k) == Users(s, k);
      }
    }
    forall c | c in n.calls ensures n.calls[c].key in n.entries {
      if n.calls[c].key == u.key {
        assert c in Users(n, u.key);
      }
    }
  }

  lemma StepKeepsInv(s: State, step: Step)
    requires Inv(s) && Enabled(s, step)
    ensures Inv(Next(s, step))
  {
    match step
    case Register(_, _, _) => RegisterKeepsInv(s, step);
    case Deregister(_) => DeregisterKeepsInv(s, step);
    case _ => LockKeepsInv(s, step);
  }

  /** Some interleaving of steps from an empty map. */
  ghost predicate Run(states: seq<State>, steps: seq<Step>) {
    && |states| == |steps| + 1
    && states[0].entries == map[] && states[0].calls == map[]
    && forall i :: 0 <= i < |steps| ==> Enabled(states[i], steps[i]) && states[i + 1] == Next(states[i], steps[i])
  }

  lemma {:induction false} RunKeepsInv(states: seq<State>, steps: seq<Step>, i: nat)
    requires Run(states, steps) && i < |states|
    ensures Inv(states[i])
  {
    if i > 0 {
      RunKeepsInv(states, steps, i - 1);
      StepKeepsInv(states[i - 1], steps[i - 1]);
    }
  }

  /** In every run, two calls never hold one key together. */
  lemma MutualExclusion(states: seq<State>, steps: seq<Step>, i: nat, c: Call, d: Call)
    requires Run(states, steps) && i < |states|
    requires c in states[i].calls && states[i].calls[c].phase.Holding?
    requires d in states[i].calls && states[i].calls[d].phase.Holding?
    requires states[i].calls[c].key == states[i].calls[d].key
    ensures c == d
  {
    RunKeepsInv(states, steps, i);
    assert EntryInv(states[i], states[i].calls[c].key);
  }

  /** In every run, the map has exactly the keys in use, and calls for one key share
      one entry whose count is their number. */
  lemma MapIsExact(states: seq<State>, steps: seq<Step>, i: nat)
    requires Run(states, steps) && i < |states|
    ensures states[i].entries.Keys == set c | c in states[i].calls :: states[i].calls[c].key
    ensures forall c :: c in states[i].calls ==>
      var u := states[i].calls[c];
      u.key in states[i].entries && states[i].entries[u.key] == u.entry && u.entry in states[i].heap
      && states[i].heap[u.entry].refs == |Users(states[i], u.key)|
  {
    var s := states[i];
    RunKeepsInv(states, steps, i);
    forall k | k in s.entries ensures exists c :: c in s.calls && s.calls[c].key == k {
      assert EntryInv(s, k);
      var c :| c in Users(s, k);
    }
    forall c | c in s.calls ensures s.calls[c].key in s.entries && EntryInv(s, s.calls[c].key) {
    }
  }

  /** In every run, a waiting call can go on exactly if no call holds its key. */
  lemma WaiterMayEnter(states: seq<State>, steps: seq<Step>, i: nat, c: Call)
    requires Run(states, steps) && i < |states|
    requires c in states[i].calls && states[i].calls[c].phase.Waiting?
    ensures Enabled(states[i], Acquire(c)) <==>
      forall d :: d in states[i].calls && states[i].calls[d].key == states[i].calls[c].key ==>
        !states[i].calls[d].phase.Holding?
  {
    var s := states[i];
    RunKeepsInv(states, steps, i);
    assert EntryInv(s, s.calls[c].key);
  }

  /** The lock in memory. Each of its methods is one step of the machine above, so
      what holds of every run of the machine holds of every way the calls
      interleave. */
  class Locks {
    var entries: map<Key, Entry>
    ghost var made: set<Entry>
    ghost var calls: map<Call, Use>

    ghost function Abstract(): State
      reads this, made
    {
      State(map e | e in made :: Cell(e.refs, e.owner), entries, calls)
    }

    ghost predicate Valid()
      reads this, made
    {
      && (forall k :: k in entries ==> entries[k] in made)
      && (forall e :: e in made ==> (e.locked <==> e.owner.Some?))
    }

    constructor ()
      ensures Valid() && entries == map[] && calls == map[] && made == {}
    {
      entries, made, calls := map[], {}, map[];
    }

    /** The map's entry for a key, made if there is none. */
    method EntryFor(key: Key) returns (entry: Entry)
      requires Valid()
      modifies this`entries, this`made
      ensures Valid() && made == old(made) + {entry} && entries == old(entries)[key := entry]
      ensures if key in old(entries) then entry == old(entries)[key] else fresh(entry)
      ensures key !in old(entries) ==> entry.refs == 0 && entry.owner == None
    {
      if key in entries {
        return entries[key];
      }
      entry := new Entry();
      entries := entries[key := entry];
      made := made + {entry};
    }

    /** The part of `lock` under the outer lock. */
    method Register(ghost call: Call, key: Key) returns (entry: Entry)
      requires Valid() && call !in calls
      modifies this, made
      ensures Valid() && made == old(made) + {entry} && (entry in old(made) || fresh(entry))
      ensures
        var was, step := old(Abstract()), Step.Register(call, key, entry);
        Enabled(was, step) && Abstract() == Next(was, step)
    {
      ghost var was := Abstract();
      entry := EntryFor(key);
      entry.refs := entry.refs + 1;
      calls := calls[call := Use(key, entry, Waiting)];
      assert Abstract().heap == Next(was, Step.Register(call, key, entry)).heap;
    }

    /** Taking the entry's own lock, which waits until it is free. */
    method Acquire(ghost call: Call, entry: Entry)
      requires Valid() && entry in made && call in calls && calls[call].phase.Waiting? && calls[call].entry == entry
      requires !entry.locked
      modifies this`calls, entry`owner, entry`locked
      ensures Valid() && made == old(made) && Enabled(old(Abstract()), Step.Acquire(call))
      ensures Abstract() == Next(old(Abstract()), Step.Acquire(call))
    {
      ghost var was := Abstract();
      entry.locked, entry.owner := true, Some(call);
      calls := calls[call := calls[call].(phase := Holding)];
      assert Abstract() == Next(was, Step.Acquire(call));
    }

    /** Releasing the entry's own lock. */
    method Unlock(ghost call: Call, entry: Entry)
      requires Valid() && entry in made && call in calls && calls[call].phase.Holding? && calls[call].entry == entry
      modifies this`calls, entry`owner, entry`locked
      ensures Valid() && made == old(made) && Enabled(old(Abstract()), Step.Unlock(call))
      ensures Abstract() == Next(old(Abstract()), Step.Unlock(call))
    {
      ghost var was := Abstract();
      entry.locked, entry.owner := false, None;
      calls := calls[call := calls[call].(phase := Released)];
      assert Abstract() == Next(was, Step.Unlock(call));
    }

    /** The rest of releasing, under the outer lock. */
    method Deregister(ghost call: Call, key: Key, entry: Entry)
      requires Valid() && entry in made && call in calls && calls[call] == Use(key, entry, Released)
      modifies this`calls, this`entries, entry`refs
      ensures Valid() && made == old(made) && Enabled(old(Abstract()), Step.Deregister(call))
      ensures Abstract() == Next(old(Abstract()), Step.Deregister(call))
    {
      ghost var was := Abstract();
      entry.refs := entry.refs - 1;
      if entry.refs == 0 {
        entries := entries - {key};
      }
      calls := calls - {call};
      assert Abstract() == Next(was, Step.Deregister(call));
    }
  }
}
