/** The event hub: one-slot wake-up channels. A publisher that finds a slot full
    replaces the waiting event, so a slow reader sees only the newest one. */
module EventHub {
  import opened Options

  /** A buffered channel of capacity one, with the newest revision its reader has
      received so far. Sending on a closed channel, or closing it twice, would crash
      the program; what is waiting when it closes can still be received. */
  class Channel {
    var slot: Option<nat>
    var closed: bool
    ghost var received: nat

    constructor ()
      ensures slot.None? && !closed && received == 0
    {
      slot := None;
      closed := false;
      received := 0;
    }

    /** The reader runs at its own pace: between any two steps of a publisher it
        may have received what was waiting. */
    method ReaderMayReceive()
      modifies `slot, `received
      ensures (slot == old(slot) && received == old(received))
           || (old(slot).Some? && slot.None? && received == old(slot).value)
    {
      var receives: bool := *;
      if receives && slot.Some? {
        received := slot.value;
        slot := None;
      }
    }

    /** A non-blocking send. */
    method TrySend(revision: nat) returns (sent: bool)
      requires !closed
      modifies `slot
      ensures sent == old(slot).None?
      ensures slot == if sent then Some(revision) else old(slot)
    {
      sent := slot.None?;
      if sent {
        slot := Some(revision);
      }
    }

    method Close()
      requires !closed
      modifies `closed
      ensures closed
    {
      closed := true;
    }

    /** A non-blocking receive by the publisher. */
    method TryDrain()
      modifies `slot
      ensures slot.None?
    {
      slot := None;
    }

    /** The newest revision has been received, or is waiting. */
    ghost predicate Told(revision: nat)
      reads this
    {
      slot == Some(revision) || (slot.None? && received == revision)
    }

    /** One subscriber's turn in Publish: send, or replace what is waiting. The
        reader may run before, between and after the three selects. */
    method Offer(revision: nat) returns (dropped: bool)
      requires !closed
      modifies `slot, `received
      ensures Told(revision)
      ensures !dropped
    {
      dropped := false;
      ReaderMayReceive();
      var sent := TrySend(revision);
      if !sent {
        ReaderMayReceive();
        TryDrain();
        ReaderMayReceive();
        sent := TrySend(revision);
        dropped := !sent;
      }
      ReaderMayReceive();
    }
  }

  class Hub {
    var revision: nat
    var nextID: nat
    var subscribers: map<nat, Channel>

    constructor ()
      ensures Valid() && subscribers == map[] && revision == 0
    {
      revision := 0;
      nextID := 0;
      subscribers := map[];
    }

    /** Each subscription has its own channel, which is open, and an id handed out once. */
    ghost predicate Valid()
      reads this, subscribers.Values
    {
      && (forall i :: i in subscribers ==> !subscribers[i].closed)
      && (forall i :: i in subscribers ==> 0 < i <= nextID)
      && (forall i, j :: i in subscribers && j in subscribers && i != j ==> subscribers[i] != subscribers[j])
    }

    /** Publishing tells every subscriber, whether or not its reader keeps up, and
        no send is ever given up. */
    method Publish() returns (dropped: bool)
      requires Valid()
      modifies this`revision, subscribers.Values
      ensures Valid() && revision == old(revision) + 1
      ensures forall i :: i in subscribers ==> subscribers[i].Told(revision)
      ensures !dropped
    {
      revision := revision + 1;
      dropped := false;
      var pending := subscribers.Keys;
      while pending != {}
        invariant pending <= subscribers.Keys && !dropped
        invariant forall i :: i in subscribers ==> !subscribers[i].closed
        invariant forall i :: i in subscribers && i !in pending ==> subscribers[i].Told(revision)
        modifies subscribers.Values
        decreases pending
      {
        var i :| i in pending;
        var lost := subscribers[i].Offer(revision);
        dropped := dropped || lost;
        pending := pending - {i};
      }
    }

    method Subscribe() returns (id: nat, updates: Channel)
      requires Valid()
      modifies this`nextID, this`subscribers
      ensures Valid() && fresh(updates) && updates.slot.None? && id == nextID > old(nextID)
      ensures id !in old(subscribers) && subscribers == old(subscribers)[id := updates]
    {
      nextID := nextID + 1;
      id := nextID;
      updates := new Channel();
      subscribers := subscribers[id := updates];
    }

    /** Ending a subscription closes its channel, once; ending it again does nothing. */
    method Unsubscribe(id: nat)
      requires Valid()
      modifies this`subscribers, if id in subscribers then {subscribers[id]} else {}
      ensures Valid() && subscribers == old(subscribers) - {id}
      ensures id in old(subscribers) ==> old(subscribers[id]).closed
      ensures id in old(subscribers) ==> old(subscribers[id]).slot == old(subscribers[id].slot)
    {
      if id in subscribers {
        var subscriber := subscribers[id];
        subscribers := subscribers - {id};
        subscriber.Close();
      }
    }
  }
}
