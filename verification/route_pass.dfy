/** One reconciliation pass of the published routes: the DNS records the fleet owns,
    the observations it keeps of every route, and what it reports as published.
    A hostname is a number here, the same for every spelling that normalises alike;
    so are record contents and origins. */
module RoutePass {
  import opened Options

  type Host = nat

  type Text = nat

  /** A CNAME record. `managed` tells that its comment is the fleet's. */
  datatype Record = Record(id: nat, name: Host, content: Text, proxied: bool, managed: bool)

  /** The ledger's row for a hostname: the record the fleet created, and for which instance. */
  datatype Row = Row(id: nat, instance: nat)

  datatype Route = Route(origin: Text, instance: nat)

  /** What the fleet does to the zone and to its ledger, and what it reads. */
  datatype Event =
    | Listed(records: seq<Record>)
    | Created(host: Host, id: nat)
    | Noted(host: Host, row: Row)
    | Deleted(id: nat)
    | Withdrawn(host: Host, row: Row) // the row's record is deleted or was not listed
    | Dropped(host: Host, row: Row)

  type Log = seq<Event>

  function LastListing(log: Log): seq<Record> {
    if log == [] then []
    else if log[|log| - 1].Listed? then log[|log| - 1].records
    else LastListing(log[..|log| - 1])
  }

  /** Whether a record was deleted since the zone was last read. */
  predicate DeletedSinceListing(log: Log) {
    log != [] && !log[|log| - 1].Listed? && (log[|log| - 1].Deleted? || DeletedSinceListing(log[..|log| - 1]))
  }

  /** Whether a row was withdrawn before the zone was last read. */
  predicate WithdrawnBefore(log: Log, host: Host, row: Row) {
    log != [] &&
    if log[|log| - 1].Listed? then Withdrawn(host, row) in log[..|log| - 1]
    else WithdrawnBefore(log[..|log| - 1], host, row)
  }

  predicate AsWritten(r: Record, host: Host, target: Text) {
    r.name == host && r.content == target && r.managed
  }

  predicate Present(records: seq<Record>, host: Host, id: nat) {
    exists i :: 0 <= i < |records| && (records[i].id == id || (records[i].name == host && records[i].managed))
  }

  function Replay(ledger: map<Host, Row>, e: Event): map<Host, Row> {
    match e
    case Noted(host, row) => ledger[host := row]
    case Dropped(host, _) => ledger - {host}
    case _ => ledger
  }

  /** The ledger's DNS rows, replayed. */
  function Ledger(log: Log): map<Host, Row> {
    if log == [] then map[] else Replay(Ledger(log[..|log| - 1]), log[|log| - 1])
  }

  predicate Holds(ledger: map<Host, Row>, host: Host, id: nat) {
    host in ledger && ledger[host].id == id
  }

  predicate OwnRecord(records: seq<Record>, ledger: map<Host, Row>, id: nat, target: Text) {
    exists r :: r in records && r.id == id && AsWritten(r, r.name, target) && Holds(ledger, r.name, id)
  }

  /** What must have happened before an action: a record is deleted only if the last
      reading showed it as the fleet wrote it under a hostname the ledger has it for;
      a row is withdrawn only if its record was deleted or the last reading does not
      list it; a row is dropped only if a reading made after it was withdrawn, and
      after every deletion, shows no trace of its record; and a row is noted only for
      a record the fleet created. */
  ghost predicate Justified(log: Log, e: Event, target: Text) {
    match e
    case Deleted(id) => OwnRecord(LastListing(log), Ledger(log), id, target)
    case Dropped(host, row) =>
      && host in Ledger(log) && Ledger(log)[host] == row && WithdrawnBefore(log, host, row)
      && !Present(LastListing(log), host, row.id) && !DeletedSinceListing(log)
    case Withdrawn(host, row) =>
      host in Ledger(log) && Ledger(log)[host] == row &&
        (Find(LastListing(log), row.id).None? || Deleted(row.id) in log)
    case Noted(host, row) => Created(host, row.id) in log
    case _ => true
  }

  ghost predicate Sound(log: Log, target: Text) {
    forall i :: 0 <= i < |log| ==> Justified(log[..i], log[i], target)
  }

  lemma SoundStep(log: Log, e: Event, target: Text)
    requires Sound(log, target) && Justified(log, e, target)
    ensures Sound(log + [e], target)
  {
    var more := log + [e];
    forall i | 0 <= i < |more| ensures Justified(more[..i], more[i], target) {
      if i < |log| {
        assert more[..i] == log[..i];
      } else {
        assert more[..i] == log;
      }
    }
  }

  lemma LastStep(log: Log, e: Event)
    ensures LastListing(log + [e]) == if e.Listed? then e.records else LastListing(log)
    ensures DeletedSinceListing(log + [e]) <==> !e.Listed? && (e.Deleted? || DeletedSinceListing(log))
    ensures Ledger(log + [e]) == Replay(Ledger(log), e)
    ensures forall host, row :: WithdrawnBefore(log + [e], host, row) <==>
      if e.Listed? then Withdrawn(host, row) in log else WithdrawnBefore(log, host, row)
  {
    assert (log + [e])[..|log + [e]| - 1] == log;
  }

  /** The last reading is one of the readings. */
  lemma {:induction false} LastListingIsRead(log: Log)
    ensures LastListing(log) != [] ==> Listed(LastListing(log)) in log
  {
    if log != [] && !log[|log| - 1].Listed? {
      LastListingIsRead(log[..|log| - 1]);
    }
  }

  lemma {:induction false} LedgerIsNoted(log: Log, host: Host)
    ensures host in Ledger(log) ==> Noted(host, Ledger(log)[host]) in log
  {
    if log != [] {
      LedgerIsNoted(log[..|log| - 1], host);
    }
  }

  /** In a sound history the fleet deletes nothing but records it created, for the
      hostname it created them for, and only after reading them as it wrote them. */
  lemma DeletesOnlyItsOwn(log: Log, target: Text, i: nat)
    requires Sound(log, target) && i < |log| && log[i].Deleted?
    ensures exists r: Record ::
      && r.id == log[i].id && r.content == target && r.managed
      && Holds(Ledger(log[..i]), r.name, r.id)
      && Created(r.name, r.id) in log[..i]
      && exists records: seq<Record> :: r in records && Listed(records) in log[..i]
  {
    var before := log[..i];
    assert Justified(before, log[i], target);
    var r: Record :| r in LastListing(before) && r.id == log[i].id && AsWritten(r, r.name, target)
      && Holds(Ledger(before), r.name, r.id);
    var row := Ledger(before)[r.name];
    LedgerIsNoted(before, r.name);
    LastListingIsRead(before);
    assert Listed(LastListing(before)) in before;
    var j :| 0 <= j < |before| && before[j] == Noted(r.name, row);
    assert log[j] == before[j] && log[..j] == before[..j];
    assert Justified(log[..j], log[j], target);
    assert Created(r.name, r.id) in log[..j];
    assert forall e :: e in log[..j] ==> e in before;
  }

  /** A row outlives its record: it is dropped only after the zone was read once to
      find its record gone, or to delete it, and then read again, after the last
      deletion, to find no trace of it. */
  lemma DropsOnlyWhatIsGone(log: Log, target: Text, i: nat) returns (w: nat, n: nat)
    requires Sound(log, target) && i < |log| && log[i].Dropped?
    ensures w < n < i && log[w] == Withdrawn(log[i].host, log[i].row)
    ensures Find(LastListing(log[..w]), log[i].row.id).None? || Deleted(log[i].row.id) in log[..w]
    ensures log[n].Listed? && forall r :: r in log[n].records ==>
      r.id != log[i].row.id && !(r.name == log[i].host && r.managed)
    ensures forall d :: n < d < i ==> !log[d].Deleted?
  {
    var before := log[..i];
    assert Justified(before, log[i], target);
    w, n := ListingAfter(before, log[i].host, log[i].row);
    assert log[n] == before[n] && log[w] == before[w] && log[..w] == before[..w];
    assert forall d :: 0 <= d < i ==> log[d] == before[d];
    assert Justified(log[..w], log[w], target);
  }

  lemma {:induction false} ListingAfter(log: Log, host: Host, row: Row) returns (w: nat, n: nat)
    requires WithdrawnBefore(log, host, row) && !DeletedSinceListing(log)
    ensures w < n < |log| && log[w] == Withdrawn(host, row)
    ensures log[n].Listed? && log[n].records == LastListing(log)
    ensures forall d :: n < d < |log| ==> !log[d].Deleted?
  {
    n := |log| - 1;
    if log[n].Listed? {
      w :| 0 <= w < n && log[..n][w] == Withdrawn(host, row);
    } else {
      w, n := ListingAfter(log[..n], host, row);
      assert forall d :: 0 <= d < |log| - 1 ==> log[d] == log[..|log| - 1][d];
    }
  }

  datatype Conflict = Several | NotOwned | Changed | CreationFailed

  function Matching(records: seq<Record>, host: Host): seq<Record> {
    if records == [] then []
    else
      var rest := Matching(records[..|records| - 1], host);
      if records[|records| - 1].name == host then rest + [records[|records| - 1]] else rest
  }

  lemma {:induction false} MatchingAre(records: seq<Record>, host: Host)
    ensures forall r :: r in Matching(records, host) <==> r in records && r.name == host
  {
    if records != [] {
      var n := |records| - 1;
      MatchingAre(records[..n], host);
      assert records == records[..n] + [records[n]];
    }
  }

  /** Why a hostname whose records the zone lists cannot be taken for the fleet's. */
  function ConflictOf(existing: seq<Record>, owned: map<Host, Row>, host: Host, instance: nat,
          target: Text): Option<Conflict>
    requires |existing| > 0
  {
    if |existing| > 1 then Some(Several)
    else if host !in owned || owned[host].instance != instance || owned[host].id != existing[0].id then Some(NotOwned)
    else if existing[0].content != target || !existing[0].proxied || !existing[0].managed then Some(Changed)
    else None
  }

  function Find(records: seq<Record>, id: nat): Option<Record> {
    if records == [] then None
    else if records[|records| - 1].id == id then Some(records[|records| - 1])
    else Find(records[..|records| - 1], id)
  }

  lemma {:induction false} FoundIsListed(records: seq<Record>, id: nat)
    ensures Find(records, id).Some? ==> Find(records, id).value in records && Find(records, id).value.id == id
    ensures Find(records, id).None? ==> forall r :: r in records ==> r.id != id
  {
    if records != [] {
      var n := |records| - 1;
      FoundIsListed(records[..n], id);
      assert records == records[..n] + [records[n]];
    }
  }

  datatype Provider = ReadyToPublish | Publishing | Published | Mismatch | Failing

  datatype Resource = Pending | InPlace | InConflict | Broken

  datatype Endpoint = Unchecked | Checking | Propagating | Reachable | AccessProtected | Unavailable

  datatype Observation = Observation(
    origin: Text, provider: Provider, dns: Resource, ingress: Resource, endpoint: Endpoint, revalidating: bool)

  type Observations = map<Host, Observation>

  function ProviderState(o: Observation): Provider {
    if o.dns.InPlace? && o.ingress.InPlace? && o.endpoint.Reachable? then Published
    else if o.dns.InConflict? || o.ingress.InConflict? then Mismatch
    else if o.dns.Broken? || o.ingress.Broken? || o.endpoint.Unavailable? then Failing
    else if o.endpoint.AccessProtected? then ReadyToPublish
    else Publishing
  }

  /** A pass starts from what the one before it verified of a route, if the route
      has not moved, but no longer calls it published. */
  function Restarted(origin: Text, previous: Option<Observation>): Observation {
    if previous.Some? && previous.value.origin == origin && previous.value.provider.Published?
       && previous.value.dns.InPlace? && previous.value.ingress.InPlace? && previous.value.endpoint.Reachable?
    then previous.value.(provider := Publishing, revalidating := true)
    else Observation(origin, Publishing, Pending, Pending, Unchecked, false)
  }

  function DnsNoted(o: Observation, conflict: bool): Observation {
    if conflict then
      var p := o.(dns := InConflict, revalidating := false);
      p.(provider := ProviderState(p))
    else o.(dns := InPlace)
  }

  /** The third step of a pass: what verification found of the route. */
  function Verified(o: Observation, conflict: bool, served: bool, listed: bool): Observation {
    var a := o.(ingress := if conflict then InConflict else if served then InPlace else Broken);
    var b := if a.dns.InPlace? && !listed then a.(dns := Broken) else a;
    var c :=
      if !(b.dns.InPlace? && b.ingress.InPlace?) then b.(revalidating := false)
      else if b.revalidating then b
      else b.(endpoint := Checking);
    c.(provider := if c.revalidating then Publishing else ProviderState(c))
  }

  predicate Candidate(o: Observation) {
    o.dns.InPlace? && o.ingress.InPlace?
  }

  function Probed(o: Observation, found: Endpoint): Observation {
    if !Candidate(o) then o
    else
      var p := o.(endpoint := found, revalidating := false);
      p.(provider := ProviderState(p))
  }

  predicate Listing(records: seq<Record>, host: Host, target: Text) {
    var matching := Matching(records, host);
    |matching| == 1 && matching[0].content == target && matching[0].proxied && matching[0].managed
  }

  predicate Serves(ingress: seq<(Host, Text)>, host: Host, origin: Text) {
    (host, origin) in ingress
  }

  /** The step of a pass that fails, or refuses to go on. */
  datatype Failure =
    | Ownership
    | OutsideZone(host: Host)
    | FirstListing
    | Ingress
    | LedgerWrite
    | Verification
    | SecondListing

  /** What the pass gets back from everything it asks. */
  datatype World = World(
    failure: Option<Failure>,
    first: seq<Record>,
    ingressConflicts: set<Host>,
    ingress: seq<(Host, Text)>,
    second: seq<Record>,
    probes: map<Host, Endpoint>)

  function VerifiedBy(o: Observation, w: World, h: Host, origin: Text, target: Text): Observation {
    Verified(o, h in w.ingressConflicts, Serves(w.ingress, h, origin), Listing(w.second, h, target))
  }

  /** Why the zone's records for a hostname are not the fleet's, read off the records:
      there are several; the one there is not the record of this instance's ledger row;
      or it is, but no longer as the fleet wrote it. */
  lemma ConflictExactly(existing: seq<Record>, owned: map<Host, Row>, host: Host, instance: nat, target: Text)
    requires |existing| > 0
    ensures
      var c, r := ConflictOf(existing, owned, host, instance, target), existing[0];
      var owns := host in owned && owned[host] == Row(r.id, instance);
      && (c == None <==> |existing| == 1 && owns && r.content == target && r.proxied && r.managed)
      && (c == Some(Several) <==> |existing| > 1)
      && (c == Some(NotOwned) <==> |existing| == 1 && !owns)
      && (c == Some(Changed) <==> |existing| == 1 && owns && !(r.content == target && r.proxied && r.managed))
  {
  }

  /** The records the zone listed first for a published hostname: one, as the fleet wrote
      it, with the id and instance of the ledger's row; or none, and then the pass has
      created one and noted it for this instance. */
  predicate OwnedByFleet(w: World, owned: map<Host, Row>, row: Option<Row>, log: Log, host: Host, instance: nat,
                         target: Text) {
    var m := Matching(w.first, host);
    || (|m| == 1 && host in owned && owned[host] == Row(m[0].id, instance) && row == At(owned, host)
        && m[0].content == target && m[0].proxied && m[0].managed)
    || (|m| == 0 && row.Some? && row.value.instance == instance && Created(host, row.value.id) in log)
  }

  /** The zone's second listing has exactly one record for the hostname, as the fleet
      wrote it. */
  predicate Shows(w: World, h: Host, target: Text) {
    var m := Matching(w.second, h);
    |m| == 1 && m[0].content == target && m[0].proxied && m[0].managed
  }

  /** What a pass must have seen of a route it calls published. */
  predicate Seen(w: World, h: Host, origin: Text, target: Text) {
    && h !in w.ingressConflicts && (h, origin) in w.ingress
    && Shows(w, h, target) && h in w.probes && w.probes[h] == Reachable
  }

  /** What the end of a pass reports of a route, by what it has seen. */
  predicate Reports(o: Observation, w: World, h: Host, origin: Text, target: Text) {
    var conflict := o.dns == InConflict || h in w.ingressConflicts;
    var inPlace := Shows(w, h, target) && (h, origin) in w.ingress;
    && (o.dns != InConflict ==> o.dns == if Shows(w, h, target) then InPlace else Broken)
    && (o.provider == Mismatch <==> conflict)
    && (o.provider == Published <==> !conflict && inPlace && h in w.probes && w.probes[h] == Reachable)
    && (o.provider == ReadyToPublish <==> !conflict && inPlace && h in w.probes && w.probes[h] == AccessProtected)
    && (o.provider == Failing <==> !conflict && !(inPlace && h in w.probes && w.probes[h] != Unavailable))
  }

  predicate NonePublished(os: Observations) {
    forall h :: h in os ==> !os[h].provider.Published?
  }

  function RestartedAll(desired: map<Host, Route>, previous: Observations): Observations {
    map h | h in desired :: Restarted(desired[h].origin, if h in previous then Some(previous[h]) else None)
  }

  /** A row withdrawn, and its record deleted if it was listed. */
  predicate Removed(log: Log, records: seq<Record>, host: Host, row: Row) {
    Withdrawn(host, row) in log && (Find(records, row.id).Some? ==> Deleted(row.id) in log)
  }

  function At<T>(m: map<Host, T>, host: Host): Option<T> {
    if host in m then Some(m[host]) else None
  }

  /** What becomes of one wanted hostname: if the zone listed records for it, they
      decide about a conflict and the ledger's row stays; otherwise a record has been
      created since `before`, and noted, unless that failed. */
  predicate Ensured(records: seq<Record>, owned: map<Host, Row>, conflict: Option<Conflict>, row: Option<Row>,
                    before: Log, log: Log, host: Host, instance: nat, target: Text)
    requires before <= log
  {
    if |Matching(records, host)| > 0 then
      conflict == ConflictOf(Matching(records, host), owned, host, instance, target) && row == At(owned, host)
    else
      || conflict == Some(CreationFailed)
      || (&& conflict == None && row.Some? && row.value.instance == instance
          && Created(host, row.value.id) in log[|before|..])
  }

  lemma StillIn(before: Log, middle: Log, log: Log)
    requires before <= middle <= log
    ensures forall e :: e in middle[|before|..] ==> e in log[|before|..]
    ensures forall e :: e in log[|middle|..] ==> e in log[|before|..]
  {
    forall e | e in middle[|before|..] ensures e in log[|before|..] {
      var i :| 0 <= i < |middle[|before|..]| && middle[|before|..][i] == e;
      assert log[|before|..][i] == e;
    }
    forall e | e in log[|middle|..] ensures e in log[|before|..] {
      var i :| 0 <= i < |log[|middle|..]| && log[|middle|..][i] == e;
      assert log[|before|..][i + |middle| - |before|] == e;
    }
  }

  class Manager {
    const target: Text
    var rows: map<Host, Row>
    var observations: Observations
    ghost var log: Log

    ghost predicate Valid()
      reads this
    {
      rows == Ledger(log) && Sound(log, target)
    }

    constructor (target: Text)
      ensures this.target == target && rows == map[] && observations == map[] && log == [] && Valid()
    {
      this.target := target;
      rows, observations, log := map[], map[], [];
    }

    /** Reads the zone. Anyone may have edited it since the last reading. */
    method List(records: seq<Record>)
      requires Valid()
      modifies `log
      ensures Valid() && log == old(log) + [Listed(records)] && LastListing(log) == records && !DeletedSinceListing(log)
      ensures forall host, row :: Withdrawn(host, row) in old(log) ==> WithdrawnBefore(log, host, row)
    {
      SoundStep(log, Listed(records), target);
      LastStep(log, Listed(records));
      log := log + [Listed(records)];
    }

    /** Creates a record and notes it in the ledger. The zone may refuse, or answer
        without an id; the ledger may fail, and always does for a hostname that it
        has for another instance. */
    method Create(host: Host, instance: nat) returns (created: bool, ok: bool)
      requires Valid()
      modifies `rows, `log
      ensures Valid() && LastListing(log) == LastListing(old(log)) && old(log) <= log
      ensures DeletedSinceListing(log) == DeletedSinceListing(old(log))
      ensures !created || !ok ==> rows == old(rows)
      ensures !created ==> ok
      ensures created && ok ==> exists id ::
        rows == old(rows)[host := Row(id, instance)] &&
          log == old(log) + [Created(host, id), Noted(host, Row(id, instance))]
    {
      created, ok := *, true;
      if !created {
        return;
      }
      var id: nat := *;
      ok := *;
      if !ok {
        return;
      }
      SoundStep(log, Created(host, id), target);
      LastStep(log, Created(host, id));
      log := log + [Created(host, id)];
      assert log[|log| - 1] == Created(host, id);
      ok := *;
      if host in rows && rows[host].instance != instance {
        ok := false;
      }
      if ok {
        var row := Row(id, instance);
        SoundStep(log, Noted(host, row), target);
        LastStep(log, Noted(host, row));
        log := log + [Noted(host, row)];
        rows := rows[host := row];
        assert log == old(log) + [Created(host, id), Noted(host, row)];
      }
    }

    /** Deletes a record, which the zone may refuse. */
    method Delete(host: Host, record: Record) returns (ok: bool)
      requires Valid() && record in LastListing(log) && AsWritten(record, host, target) && Holds(rows, host, record.id)
      modifies `log
      ensures Valid() && LastListing(log) == LastListing(old(log))
      ensures log == if ok then old(log) + [Deleted(record.id)] else old(log)
    {
      ok := *;
      if ok {
        SoundStep(log, Deleted(record.id), target);
        LastStep(log, Deleted(record.id));
        log := log + [Deleted(record.id)];
      }
    }

    /** Puts a row on the list of those to drop. */
    method Withdraw(host: Host)
      requires Valid() && host in rows
      requires Find(LastListing(log), rows[host].id).None? || Deleted(rows[host].id) in log
      modifies `log
      ensures Valid() && LastListing(log) == LastListing(old(log)) && log == old(log) + [Withdrawn(host, rows[host])]
    {
      SoundStep(log, Withdrawn(host, rows[host]), target);
      LastStep(log, Withdrawn(host, rows[host]));
      log := log + [Withdrawn(host, rows[host])];
    }

    /** Drops a row of the ledger, which may fail. */
    method Drop(host: Host) returns (ok: bool)
      requires Valid() && host in rows && WithdrawnBefore(log, host, rows[host])
      requires !Present(LastListing(log), host, rows[host].id) && !DeletedSinceListing(log)
      modifies `rows, `log
      ensures forall h, row :: WithdrawnBefore(old(log), h, row) ==> WithdrawnBefore(log, h, row)
      ensures Valid() && LastListing(log) == LastListing(old(log)) && !DeletedSinceListing(log) && old(log) <= log
      ensures rows == if ok then old(rows) - {host} else old(rows)
    {
      ok := *;
      if ok {
        SoundStep(log, Dropped(host, rows[host]), target);
        LastStep(log, Dropped(host, rows[host]));
        log := log + [Dropped(host, rows[host])];
        rows := rows - {host};
      }
    }

    /** Sees to the records of one wanted hostname. `owned` is the ledger as it was
        when the pass began. */
    method EnsureOne(records: seq<Record>, owned: map<Host, Row>, host: Host, instance: nat)
      returns (conflict: Option<Conflict>, ok: bool)
      requires Valid() && LastListing(log) == records
      modifies `rows, `log
      ensures Valid() && LastListing(log) == records && old(log) <= log
      ensures forall h :: h != host ==> At(rows, h) == At(old(rows), h)
      ensures ok && At(old(rows), host) == At(owned, host) ==>
        Ensured(records, owned, conflict, At(rows, host), old(log), log, host, instance, target)
      ensures !ok || |Matching(records, host)| > 0 ==> rows == old(rows)
    {
      conflict, ok := None, true;
      var existing := Matching(records, host);
      if |existing| > 1 {
        conflict := Some(Several);
      } else if |existing| == 1 {
        var record := existing[0];
        if host !in owned || owned[host].instance != instance || owned[host].id != record.id {
          conflict := Some(NotOwned);
        } else if record.content != target || !record.proxied || !record.managed {
          conflict := Some(Changed);
        }
      } else {
        var created;
        created, ok := Create(host, instance);
        if !created {
          conflict := Some(CreationFailed);
        } else if ok {
          assert log[|old(log)|] == Created(host, rows[host].id);
        }
      }
    }

    /** Sees to the records of all wanted hostnames. */
    method EnsureWanted(records: seq<Record>, desired: map<Host, Route>, hosts: seq<Host>)
      returns (conflicts: map<Host, Conflict>, ok: bool)
      requires Valid() && LastListing(log) == records && forall h :: h in hosts ==> h in desired
      requires forall i, j :: 0 <= i < j < |hosts| ==> hosts[i] != hosts[j]
      modifies `rows, `log
      ensures Valid() && LastListing(log) == records && old(log) <= log
      ensures forall h :: h !in hosts || |Matching(records, h)| > 0 ==> At(rows, h) == At(old(rows), h)
      ensures forall h :: h in conflicts ==> h in hosts
      ensures ok ==> forall h :: h in hosts ==>
        Ensured(records, old(rows), At(conflicts, h), At(rows, h), old(log), log, h, desired[h].instance, target)
    {
      conflicts, ok := map[], true;
      var owned := rows;
      for i := 0 to |hosts|
        invariant Valid() && LastListing(log) == records && ok && old(log) <= log
        invariant forall h :: h !in hosts[..i] || |Matching(records, h)| > 0 ==> At(rows, h) == At(owned, h)
        invariant forall h :: h in conflicts ==> h in hosts[..i]
        invariant forall h :: h in hosts[..i] ==>
          Ensured(records, owned, At(conflicts, h), At(rows, h), old(log), log, h, desired[h].instance, target)
      {
        var host := hosts[i];
        assert host in hosts && host !in hosts[..i] && hosts[..i + 1] == hosts[..i] + [host];
        ghost var before := log;
        var conflict;
        conflict, ok := EnsureOne(records, owned, host, desired[host].instance);
        if !ok {
          return;
        }
        StillIn(old(log), before, log);
        if conflict.Some? {
          conflicts := conflicts[host := conflict.value];
        }
      }
    }

    /** One unwanted row: its record is deleted if it is listed. */
    method RemoveOne(records: seq<Record>, host: Host) returns (ok: bool)
      requires Valid() && LastListing(log) == records && host in rows
      modifies `log
      ensures Valid() && LastListing(log) == records
      ensures old(log) <= log && (ok ==> Removed(log, records, host, rows[host]))
    {
      var record := Find(records, rows[host].id);
      if record.Some? {
        FoundIsListed(records, rows[host].id);
        if !AsWritten(record.value, host, target) {
          return false;
        }
        ok := Delete(host, record.value);
        if !ok {
          return;
        }
        assert log[|log| - 1] == Deleted(rows[host].id);
      }
      Withdraw(host);
      assert log[|log| - 1] == Withdrawn(host, rows[host]);
      return true;
    }

    /** Deletes the records of hostnames no longer wanted. A record that is not as
        the fleet wrote it stops the pass. */
    method RemoveStale(records: seq<Record>, desired: map<Host, Route>) returns (removed: set<Host>, ok: bool)
      requires Valid() && LastListing(log) == records
      modifies `log
      ensures Valid() && LastListing(log) == records && old(log) <= log
      ensures forall h :: h in removed ==> h in rows && h !in desired && Removed(log, records, h, rows[h])
      ensures ok ==> forall h :: h in rows && h !in desired ==> h in removed
    {
      removed, ok := {}, true;
      var todo := rows.Keys - desired.Keys;
      while todo != {}
        invariant Valid() && LastListing(log) == records && ok && old(log) <= log
        invariant forall h :: h in todo || h in removed <==> h in rows && h !in desired
        invariant forall h :: h in removed ==> Removed(log, records, h, rows[h])
        decreases |todo|
      {
        var host :| host in todo;
        todo := todo - {host};
        ghost var before := log;
        ok := RemoveOne(records, host);
        assert forall e :: e in before ==> e in log;
        if !ok {
          return;
        }
        removed := removed + {host};
      }
    }

    /** Drops the rows of removed records once a new reading shows them gone. */
    method VerifyRemoved(records: seq<Record>, removed: set<Host>) returns (ok: bool)
      requires Valid() && LastListing(log) == records && !DeletedSinceListing(log) && removed <= rows.Keys
      requires forall h :: h in removed ==> WithdrawnBefore(log, h, rows[h])
      modifies `rows, `log
      ensures Valid() && LastListing(log) == records && old(log) <= log
      ensures ok ==> rows == old(rows) - removed
      ensures ok ==> forall h :: h in removed ==> !Present(records, h, old(rows)[h].id)
    {
      var todo := removed;
      ok := true;
      while todo != {}
        invariant Valid() && LastListing(log) == records && !DeletedSinceListing(log) && ok && old(log) <= log
        invariant todo <= removed && rows == old(rows) - (removed - todo)
        invariant forall h :: h in todo ==> WithdrawnBefore(log, h, rows[h])
        invariant forall h :: h in removed - todo ==> !Present(records, h, old(rows)[h].id)
        decreases |todo|
      {
        var host :| host in todo;
        if Present(records, host, rows[host].id) {
          return false;
        }
        ok := Drop(host);
        if !ok {
          return;
        }
        todo := todo - {host};
      }
    }

    method FailAll(desired: map<Host, Route>)
      modifies `observations
      ensures observations == map h | h in desired ::
        Observation(desired[h].origin, Failing, Broken, Pending, Unchecked, false)
    {
      observations := map h | h in desired ::
        Observation(desired[h].origin, Failing, Broken, Pending, Unchecked, false);
    }

    method FailOne(host: Host, origin: Text)
      modifies `observations
      ensures observations == old(observations)[host := Observation(origin, Failing, Broken, Pending, Unchecked, false)]
    {
      observations := observations[host := Observation(origin, Failing, Broken, Pending, Unchecked, false)];
    }

    method FailIngress(desired: map<Host, Route>)
      requires observations.Keys == desired.Keys
      modifies `observations
      ensures observations == map h | h in desired ::
        old(observations)[h].(origin := desired[h].origin, provider := Failing, ingress := Broken,
          endpoint := Unchecked, revalidating := false)
    {
      var todo := desired.Keys;
      while todo != {}
        invariant todo <= desired.Keys && observations.Keys == desired.Keys
        invariant forall h :: h in desired ==>
          observations[h] == if h in todo then old(observations)[h]
          else old(observations)[h].(origin := desired[h].origin, provider := Failing, ingress := Broken,
            endpoint := Unchecked, revalidating := false)
        decreases |todo|
      {
        var h :| h in todo;
        todo := todo - {h};
        observations := observations[h :=
          observations[h].(origin := desired[h].origin, provider := Failing, ingress := Broken, endpoint := Unchecked,
            revalidating := false)];
      }
    }

    method NoteDns(conflicts: map<Host, Conflict>)
      modifies `observations
      ensures observations == map h | h in old(observations) :: DnsNoted(old(observations)[h], h in conflicts)
    {
      var todo := observations.Keys;
      while todo != {}
        invariant todo <= observations.Keys == old(observations).Keys
        invariant forall h :: h in observations ==>
          observations[h] == if h in todo then old(observations)[h] else DnsNoted(old(observations)[h], h in conflicts)
        decreases |todo|
      {
        var h :| h in todo;
        todo := todo - {h};
        var o := observations[h];
        if h in conflicts {
          o := o.(dns := InConflict, revalidating := false);
          o := o.(provider := ProviderState(o));
        } else {
          o := o.(dns := InPlace);
        }
        observations := observations[h := o];
      }
    }

    method VerifyOne(before: Observation, conflict: bool, served: bool, listed: bool) returns (o: Observation)
      ensures o == Verified(before, conflict, served, listed)
    {
      o := before;
      if conflict {
        o := o.(ingress := InConflict);
      } else if !served {
        o := o.(ingress := Broken);
      } else {
        o := o.(ingress := InPlace);
      }
      if o.dns.InPlace? && !listed {
        o := o.(dns := Broken);
      }
      if Candidate(o) {
        if !o.revalidating {
          o := o.(endpoint := Checking);
        }
      } else {
        o := o.(revalidating := false);
      }
      o := o.(provider := if o.revalidating then Publishing else ProviderState(o));
    }

    /** One route's turn; `o` is its new observation. */
    method NoteOne(h: Host, origin: Text, w: World) returns (o: Observation)
      requires h in observations
      modifies `observations
      ensures o == VerifiedBy(old(observations)[h], w, h, origin, target)
      ensures observations == old(observations)[h := o]
    {
      o := VerifyOne(observations[h], h in w.ingressConflicts, Serves(w.ingress, h, origin),
        Listing(w.second, h, target));
      observations := observations[h := o];
    }

    method NoteVerification(desired: map<Host, Route>, w: World) returns (candidates: set<Host>)
      requires observations.Keys == desired.Keys
      modifies `observations
      ensures observations.Keys == desired.Keys
      ensures forall h :: h in desired ==>
        observations[h] == VerifiedBy(old(observations)[h], w, h, desired[h].origin, target)
      ensures candidates <= desired.Keys && forall h :: h in desired ==>
        (h in candidates <==> Candidate(observations[h]))
    {
      candidates := {};
      var todo := desired.Keys;
      while todo != {}
        invariant todo <= desired.Keys == observations.Keys
        invariant forall h :: h in todo ==> observations[h] == old(observations)[h]
        invariant forall h :: h in desired && h !in todo ==>
          observations[h] == VerifiedBy(old(observations)[h], w, h, desired[h].origin, target)
        invariant candidates <= desired.Keys - todo
        invariant forall h :: h in desired && h !in todo ==> (h in candidates <==> Candidate(observations[h]))
        decreases |todo|
      {
        var h :| h in todo;
        todo := todo - {h};
        var o := NoteOne(h, desired[h].origin, w);
        if Candidate(o) {
          candidates := candidates + {h};
        }
      }
    }

    method Probe(desired: map<Host, Route>, candidates: set<Host>, probes: map<Host, Endpoint>)
      returns (published: map<Host, Text>)
      requires observations.Keys == desired.Keys && candidates <= desired.Keys
      requires forall h :: h in desired ==> (h in candidates <==> Candidate(observations[h]))
      modifies `observations
      ensures observations == map h | h in desired :: Probed(old(observations)[h], ProbeOf(probes, h))
      ensures forall h :: h in published <==> h in candidates && ProbeOf(probes, h).Reachable?
      ensures forall h :: h in published ==> published[h] == desired[h].origin
    {
      published := map[];
      var todo := candidates;
      while todo != {}
        invariant todo <= candidates && observations.Keys == desired.Keys
        invariant forall h :: h in desired ==>
          observations[h] == if h in todo then old(observations)[h] else Probed(old(observations)[h],
            ProbeOf(probes, h))
        invariant forall h :: h in published <==> h in candidates && h !in todo && ProbeOf(probes, h).Reachable?
        invariant forall h :: h in published ==> published[h] == desired[h].origin
        decreases |todo|
      {
        var h :| h in todo;
        todo := todo - {h};
        var found := ProbeOf(probes, h);
        var o := observations[h].(endpoint := found, revalidating := false);
        observations := observations[h := o.(provider := ProviderState(o))];
        if found.Reachable? {
          published := published[h := desired[h].origin];
        }
      }
    }

    /** Reads the zone and brings its records in line. */
    method SyncRecords(desired: map<Host, Route>, hosts: seq<Host>, w: World)
      returns (conflicts: map<Host, Conflict>, removed: set<Host>, ok: bool)
      requires Valid() && Enumerates(hosts, desired)
      modifies `rows, `log
      ensures Valid() && removed <= rows.Keys
      ensures forall h :: h in removed ==> h !in desired && Withdrawn(h, rows[h]) in log
      ensures ok ==> forall h :: h in rows ==> h in desired || h in removed
      ensures ok ==> forall h :: h in desired && |Matching(w.first, h)| > 0 ==>
        (h in conflicts <==> ConflictOf(Matching(w.first, h), old(rows), h, desired[h].instance, target).Some?)
      ensures old(log) <= log && (ok ==> forall h :: h in desired && h !in conflicts ==>
        OwnedByFleet(w, old(rows), At(rows, h), log[|old(log)|..], h, desired[h].instance, target))
    {
      removed := {};
      List(w.first);
      ghost var listed := log;
      conflicts, ok := EnsureWanted(w.first, desired, hosts);
      ghost var ensured := log;
      if ok {
        removed, ok := RemoveStale(w.first, desired);
        StillIn(listed, ensured, log);
        StillIn(old(log), listed, log);
        forall h | h in desired && h !in conflicts
          ensures OwnedByFleet(w, old(rows), At(rows, h), log[|old(log)|..], h, desired[h].instance, target)
        {
          assert h in hosts;
        }
      }
    }

    /** The DNS step: what becomes of the records, and what is noted of it. */
    method DnsStep(desired: map<Host, Route>, hosts: seq<Host>, w: World) returns (removed: set<Host>, ok: bool)
      requires Valid() && observations.Keys == desired.Keys && Enumerates(hosts, desired)
      modifies `rows, `log, `observations
      ensures Valid() && observations.Keys == desired.Keys && removed <= rows.Keys
      ensures forall h :: h in removed ==> Withdrawn(h, rows[h]) in log
      ensures ok ==> forall h :: h in rows ==> h in desired || h in removed
      ensures NonePublished(old(observations)) ==> NonePublished(observations)
      ensures ok ==> forall h :: h in desired && |Matching(w.first, h)| > 0 ==>
        observations[h] == DnsNoted(old(observations)[h],
          ConflictOf(Matching(w.first, h), old(rows), h, desired[h].instance, target).Some?)
      ensures old(log) <= log && forall h :: h in removed ==> h !in desired
      ensures ok ==> forall h :: h in desired ==>
        && observations[h].dns in {InPlace, InConflict}
        && (observations[h].dns == InPlace ==>
             OwnedByFleet(w, old(rows), At(rows, h), log[|old(log)|..], h, desired[h].instance, target))
    {
      removed, ok := {}, false;
      if w.failure == Some(FirstListing) {
        FailAll(desired);
        return;
      }
      var conflicts;
      conflicts, removed, ok := SyncRecords(desired, hosts, w);
      if !ok {
        FailAll(desired);
        return;
      }
      NoteDns(conflicts);
    }

    /** The steps after the tunnel's rules are written: a second reading, and the rows
        of what was removed. */
    method SecondStep(desired: map<Host, Route>, removed: set<Host>, w: World) returns (ok: bool)
      requires Valid() && observations.Keys == desired.Keys && removed <= rows.Keys
      requires forall h :: h in removed ==> Withdrawn(h, rows[h]) in log
      modifies `rows, `log, `observations
      ensures Valid() && observations.Keys == desired.Keys
      ensures old(log) <= log && (ok ==> observations == old(observations) && rows == old(rows) - removed)
      ensures !ok && NonePublished(old(observations)) ==> NonePublished(observations)
    {
      if w.failure == Some(Ingress) || w.failure == Some(Verification) {
        FailIngress(desired);
        return false;
      }
      if w.failure == Some(LedgerWrite) {
        return false;
      }
      if w.failure == Some(SecondListing) {
        FailAll(desired);
        return false;
      }
      List(w.second);
      ok := VerifyRemoved(w.second, removed);
    }

    /** The last steps: what the second readings show, and whether the world can
        reach the route. */
    method Publish(desired: map<Host, Route>, w: World) returns (routes: map<Host, Text>)
      requires observations.Keys == desired.Keys
      modifies `observations
      ensures observations.Keys == desired.Keys
      ensures forall h :: h in routes <==> h in observations && observations[h].provider.Published?
      ensures forall h :: h in routes ==> h in desired && routes[h] == desired[h].origin
      ensures forall h :: h in desired ==>
        && (h in routes <==> old(observations)[h].dns.InPlace? && Seen(w, h, desired[h].origin, target))
        && (old(observations)[h].dns in {InPlace, InConflict} ==>
             Reports(observations[h], w, h, desired[h].origin, target))
    {
      ghost var noted := observations;
      var candidates := NoteVerification(desired, w);
      ghost var verified := observations;
      routes := Probe(desired, candidates, w.probes);
      forall h | h in desired
        ensures observations[h].provider.Published? <==> h in routes
        ensures h in routes <==> noted[h].dns.InPlace? && Seen(w, h, desired[h].origin, target)
        ensures noted[h].dns in {InPlace, InConflict} ==> Reports(observations[h], w, h, desired[h].origin, target)
      {
        OutcomeOf(noted[h], w, h, desired[h].origin, target);
      }
    }

    /** One pass. It answers with the routes that are published, or none if it fails. */
    method Reconcile(desired: map<Host, Route>, hosts: seq<Host>, w: World) returns (published: Option<map<Host, Text>>)
      requires Valid() && Enumerates(hosts, desired)
      modifies `rows, `log, `observations
      ensures Valid()
      ensures published.None? ==> NonePublished(observations)
      ensures published.Some? ==> observations.Keys == desired.Keys && forall h :: h in rows ==> h in desired
      ensures published.Some? ==> forall h :: h in published.value <==>
        h in observations && observations[h].provider.Published?
      ensures published.Some? ==> forall h :: h in published.value ==>
        h in desired && published.value[h] == desired[h].origin && Seen(w, h, desired[h].origin, target)
      // Its record is the one of this instance's row of the ledger.
      ensures old(log) <= log && (published.Some? ==> forall h :: h in published.value ==>
        OwnedByFleet(w, old(rows), At(rows, h), log[|old(log)|..], h, desired[h].instance, target))
      ensures published.Some? ==> forall h :: h in desired ==>
        Reports(observations[h], w, h, desired[h].origin, target)
    {
      observations := RestartedAll(desired, observations);
      assert NonePublished(observations);
      if w.failure == Some(Ownership) {
        FailAll(desired);
        return None;
      }
      if w.failure.Some? && w.failure.value.OutsideZone? && w.failure.value.host in desired {
        FailOne(w.failure.value.host, desired[w.failure.value.host].origin);
        return None;
      }
      var removed, ok := DnsStep(desired, hosts, w);
      if !ok {
        return None;
      }
      ghost var synced := log;
      ok := SecondStep(desired, removed, w);
      if !ok {
        return None;
      }
      StillIn(old(log), synced, log);
      var routes := Publish(desired, w);
      return Some(routes);
    }
  }

  /** Whatever a route's observation was, the end of a pass calls it published
      exactly if its record was in place and everything else is seen now. */
  lemma OutcomeOf(o: Observation, w: World, h: Host, origin: Text, target: Text)
    ensures
      var end := Probed(VerifiedBy(o, w, h, origin, target), ProbeOf(w.probes, h));
      && (end.provider.Published? <==> o.dns.InPlace? && Seen(w, h, origin, target))
      && (o.dns.InPlace? || o.dns.InConflict? ==> Reports(end, w, h, origin, target))
    ensures Candidate(VerifiedBy(o, w, h, origin, target)) && ProbeOf(w.probes, h).Reachable? <==>
      o.dns.InPlace? && Seen(w, h, origin, target)
  {
  }

  predicate Enumerates(hosts: seq<Host>, desired: map<Host, Route>) {
    && (forall h :: h in hosts ==> h in desired) && (forall h :: h in desired ==> h in hosts)
    && (forall i, j :: 0 <= i < j < |hosts| ==> hosts[i] != hosts[j])
  }

  function ProbeOf(probes: map<Host, Endpoint>, h: Host): Endpoint {
    if h in probes then probes[h] else Unavailable
  }
}
