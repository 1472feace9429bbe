/** The merge of the tunnel's live ingress rules with the routes the fleet wants
    published. The ledger tells which rules the fleet wrote, and what it wrote. */
module IngressMerge {
  import opened Options

  /** A rule on the wire: two fields that matter here, and `rest` for the others. */
  datatype WireRule = WireRule(hostname: string, service: string, rest: nat)

  /** A rule as it is read: next to the entry its normalised hostname and its
      trimmed service, which are all that decisions look at. */
  datatype Rule = Rule(entry: WireRule, host: string, service: string)

  /** A route the fleet wants, and the instance that owns it. */
  datatype Route = Route(service: string, instance: nat)

  /** What the fleet wrote last for a hostname, and for which instance. */
  datatype Row = Row(service: string, instance: nat)

  /** The fleet's side of the merge. The ledger's unique index on hostname and kind
      makes it a map; both maps are keyed by normalised hostnames. */
  datatype Plan = Plan(desired: map<string, Route>, ledger: map<string, Row>)

  datatype Reason = NotOwned | ChangedOutside

  datatype Merged = Merged(rules: seq<Rule>, conflicts: map<string, Reason>, applied: set<string>, removed: set<string>)

  datatype Outcome = Done(merged: Merged) | Refusal(hostname: string)

  const NO_OTHER_FIELDS := 0
  const DEFAULT_FALLBACK := WireRule("", "http_status:404", NO_OTHER_FIELDS)

  predicate IsSpace(c: char) {
    c == ' ' || c == '\t' || c == '\n' || c == '\r' || c == 11 as char || c == 12 as char
  }

  function TrimLeft(s: string): string {
    if s != "" && IsSpace(s[0]) then TrimLeft(s[1..]) else s
  }

  function TrimRight(s: string): string {
    if s != "" && IsSpace(s[|s| - 1]) then TrimRight(s[..|s| - 1]) else s
  }

  function Trim(s: string): string {
    TrimRight(TrimLeft(s))
  }

  function Lower(s: string): string {
    seq(|s|, i requires 0 <= i < |s| => if 'A' <= s[i] <= 'Z' then s[i] - 'A' + 'a' else s[i])
  }

  function TrimDot(s: string): string {
    if s != "" && s[|s| - 1] == '.' then s[..|s| - 1] else s
  }

  /** Not idempotent in general: two trailing dots take two rounds. */
  function Normalize(s: string): string {
    Lower(TrimDot(Trim(s)))
  }

  const SPACES: set<char> := {' ', '\t', '\n', '\r', 11 as char, 12 as char}

  ghost predicate AllSpace(s: string) {
    forall i :: 0 <= i < |s| ==> s[i] in SPACES
  }

  /** No space at either end. */
  predicate Tight(s: string) {
    s != "" ==> s[0] !in SPACES && s[|s| - 1] !in SPACES
  }

  lemma {:induction false} TrimLeftIs(pre: string, s: string)
    requires AllSpace(pre) && (s != "" ==> s[0] !in SPACES)
    ensures TrimLeft(pre + s) == s
  {
    if pre == "" {
      assert pre + s == s;
    } else {
      assert (pre + s)[1..] == pre[1..] + s;
      TrimLeftIs(pre[1..], s);
    }
  }

  lemma {:induction false} TrimRightIs(s: string, post: string)
    requires AllSpace(post) && (s != "" ==> s[|s| - 1] !in SPACES)
    ensures TrimRight(s + post) == s
  {
    if post == "" {
      assert s + post == s;
    } else {
      var n := |post| - 1;
      assert (s + post)[..|s + post| - 1] == s + post[..n];
      TrimRightIs(s, post[..n]);
    }
  }

  /** Trimming takes away exactly the spaces at both ends. */
  lemma TrimExactly(pre: string, s: string, post: string)
    requires AllSpace(pre) && AllSpace(post) && Tight(s)
    ensures Trim(pre + s + post) == s
  {
    if s == "" {
      var all := pre + post;
      assert pre + s + post == all + "";
      assert AllSpace(all);
      TrimLeftIs(all, "");
    } else {
      assert pre + s + post == pre + (s + post);
      TrimLeftIs(pre, s + post);
      TrimRightIs(s, post);
    }
  }

  /** A hostname is read without the spaces around it, without one trailing dot, and
      with its capital letters as small ones. */
  lemma NormalizeExactly(pre: string, s: string, post: string)
    requires AllSpace(pre) && AllSpace(post) && Tight(s)
    ensures s == "" || s[|s| - 1] != '.' ==> Normalize(pre + s + post) == Lower(s)
    ensures s != "" ==> Normalize(pre + (s + ".") + post) == Lower(s)
    ensures |Lower(s)| == |s| && forall i :: 0 <= i < |s| ==>
      Lower(s)[i] == if 'A' <= s[i] <= 'Z' then s[i] + 32 as char else s[i]
  {
    TrimExactly(pre, s, post);
    if s != "" {
      assert Tight(s + ".");
      TrimExactly(pre, s + ".", post);
      assert (s + ".")[..|s|] == s;
    }
  }

  function Read(e: WireRule): Rule {
    Rule(e, Normalize(e.hostname), Trim(e.service))
  }

  function Host(r: Rule): string {
    r.host
  }

  /** Routes come validated: their hostnames are normal and their services trimmed.
      The ledger only has hostnames of such routes. */
  predicate Wellformed(p: Plan) {
    && "" !in p.ledger
    && forall h :: h in p.desired ==> h != "" && Normalize(h) == h && Trim(p.desired[h].service) == p.desired[h].service
  }

  /** No two live rules speak of one hostname. */
  predicate DistinctHosts(rules: seq<Rule>) {
    forall i, j :: 0 <= i < j < |rules| && Host(rules[i]) != "" ==> Host(rules[i]) != Host(rules[j])
  }

  datatype Verdict = IsFallback | Foreign | Conflicting(reason: Reason) | Adopted | Stale | Refused

  function Judge(p: Plan, r: Rule): Verdict {
    var h := Host(r);
    if h == "" then IsFallback
    else if h in p.desired then
      if h !in p.ledger || p.ledger[h].instance != p.desired[h].instance then Conflicting(NotOwned)
      else if r.service != p.ledger[h].service then Conflicting(ChangedOutside)
      else Adopted
    else if h in p.ledger then
      if r.service != p.ledger[h].service then Refused else Stale
    else Foreign
  }

  function Carried(p: Plan, r: Rule): seq<Rule> {
    match Judge(p, r)
    case Foreign => [r]
    case Conflicting(_) => [r]
    case Adopted => [Read(WireRule(Host(r), p.desired[Host(r)].service, r.entry.rest))]
    case _ => []
  }

  /** The part of the result that comes from live rules. */
  function Body(p: Plan, rules: seq<Rule>): seq<Rule> {
    if rules == [] then []
    else Body(p, rules[..|rules| - 1]) + Carried(p, rules[|rules| - 1])
  }

  function Conflicts(p: Plan, rules: seq<Rule>): map<string, Reason> {
    if rules == [] then map[]
    else
      var r, before := rules[|rules| - 1], Conflicts(p, rules[..|rules| - 1]);
      if Judge(p, r).Conflicting? then before[Host(r) := Judge(p, r).reason] else before
  }

  function Adoptions(p: Plan, rules: seq<Rule>): set<string> {
    if rules == [] then {}
    else
      var r := rules[|rules| - 1];
      Adoptions(p, rules[..|rules| - 1]) + if Judge(p, r).Adopted? then {Host(r)} else {}
  }

  function Seen(p: Plan, rules: seq<Rule>): set<string> {
    if rules == [] then {}
    else
      var r := rules[|rules| - 1];
      Seen(p, rules[..|rules| - 1]) + if Host(r) in p.desired then {Host(r)} else {}
  }

  function LastFallback(rules: seq<Rule>): Option<Rule> {
    if rules == [] then None
    else if Host(rules[|rules| - 1]) == "" then Some(rules[|rules| - 1])
    else LastFallback(rules[..|rules| - 1])
  }

  function Fallback(found: Option<Rule>): Rule {
    if found.Some? then found.value else Read(DEFAULT_FALLBACK)
  }

  function NewRule(p: Plan, h: string): Rule
    requires h in p.desired
  {
    Read(WireRule(h, p.desired[h].service, NO_OTHER_FIELDS))
  }

  /** New rules for the hostnames no live rule speaks of. */
  function Additions(p: Plan, hostnames: seq<string>, seen: set<string>): seq<Rule> {
    if hostnames == [] then []
    else
      var h := hostnames[|hostnames| - 1];
      Additions(p, hostnames[..|hostnames| - 1], seen) + (if h in seen || h !in p.desired then [] else [NewRule(p, h)])
  }

  predicate Enumerates(hostnames: seq<string>, p: Plan) {
    && (forall h :: h in hostnames ==> h in p.desired) && (forall h :: h in p.desired ==> h in hostnames)
    && (forall i, j :: 0 <= i < j < |hostnames| ==> hostnames[i] != hostnames[j])
  }

  predicate AnyRefused(p: Plan, rules: seq<Rule>) {
    exists i :: 0 <= i < |rules| && Judge(p, rules[i]).Refused?
  }

  function Merge(p: Plan, hostnames: seq<string>, rules: seq<Rule>): Merged
    requires Enumerates(hostnames, p)
  {
    Merged(
      Body(p, rules) + Additions(p, hostnames, Seen(p, rules)) + [Fallback(LastFallback(rules))],
      Conflicts(p, rules),
      Adoptions(p, rules) + (p.desired.Keys - Seen(p, rules)),
      p.ledger.Keys - p.desired.Keys)
  }

  /** What the loop over the live rules has gathered. */
  datatype Gathered = Gathered(rules: seq<Rule>, conflicts: map<string, Reason>, applied: set<string>,
    seen: set<string>, fallback: Option<Rule>)

  function Live(p: Plan, rules: seq<Rule>): Gathered {
    Gathered(Body(p, rules), Conflicts(p, rules), Adoptions(p, rules), Seen(p, rules), LastFallback(rules))
  }

  function Visit(p: Plan, g: Gathered, r: Rule): Gathered {
    var verdict, h := Judge(p, r), Host(r);
    Gathered(
      g.rules + Carried(p, r),
      if verdict.Conflicting? then g.conflicts[h := verdict.reason] else g.conflicts,
      g.applied + (if verdict.Adopted? then {h} else {}),
      g.seen + (if h in p.desired then {h} else {}),
      if h == "" then Some(r) else g.fallback)
  }

  lemma LiveStep(p: Plan, rules: seq<Rule>, i: nat)
    requires i < |rules|
    ensures Live(p, rules[..i + 1]) == Visit(p, Live(p, rules[..i]), rules[i])
  {
    var longer, shorter := rules[..i + 1], rules[..i];
    assert longer[..|longer| - 1] == shorter && longer[|longer| - 1] == rules[i];
  }

  /** One live rule. */
  method Consider(p: Plan, g: Gathered, rule: Rule) returns (r: Option<Gathered>)
    requires Wellformed(p) && rule == Read(rule.entry)
    ensures r.None? <==> Judge(p, rule).Refused?
    ensures r.Some? ==> r.value == Visit(p, g, rule)
  {
    var entry := rule.entry;
    var h, service := Normalize(entry.hostname), Trim(entry.service);
    if h == "" {
      return Some(g.(fallback := Some(rule)));
    }
    if h in p.desired {
      var seen := g.seen + {h};
      if h !in p.ledger || p.ledger[h].instance != p.desired[h].instance {
        return Some(g.(seen := seen, rules := g.rules + [rule], conflicts := g.conflicts[h := NotOwned]));
      }
      if service != p.ledger[h].service {
        return Some(g.(seen := seen, rules := g.rules + [rule], conflicts := g.conflicts[h := ChangedOutside]));
      }
      var updated := Read(entry.(hostname := h, service := p.desired[h].service));
      return Some(g.(seen := seen, rules := g.rules + [updated], applied := g.applied + {h}));
    }
    if h in p.ledger {
      return if service != p.ledger[h].service then None else Some(g);
    }
    return Some(g.(rules := g.rules + [rule]));
  }

  /** The first loop: goes through the live rules, up to the first refusal. */
  method MergeLive(current: seq<Rule>, p: Plan) returns (g: Gathered, refused: Option<string>)
    requires Wellformed(p) && forall r :: r in current ==> r == Read(r.entry)
    ensures refused.None? ==> g == Live(p, current) && !AnyRefused(p, current)
    ensures refused.Some? ==> exists i ::
      0 <= i < |current| && Judge(p, current[i]).Refused? && Host(current[i]) == refused.value
      && forall j :: 0 <= j < i ==> !Judge(p, current[j]).Refused?
  {
    g, refused := Gathered([], map[], {}, {}, None), None;
    for i := 0 to |current|
      invariant g == Live(p, current[..i]) && refused.None?
      invariant forall j :: 0 <= j < i ==> !Judge(p, current[j]).Refused?
    {
      LiveStep(p, current, i);
      var next := Consider(p, g, current[i]);
      if next.None? {
        refused := Some(Host(current[i]));
        return;
      }
      g := next.value;
    }
    assert current[..|current|] == current;
  }

  function Unseen(hostnames: seq<string>, seen: set<string>): set<string> {
    if hostnames == [] then {}
    else
      var h := hostnames[|hostnames| - 1];
      Unseen(hostnames[..|hostnames| - 1], seen) + if h in seen then {} else {h}
  }

  lemma {:induction false} UnseenAre(hostnames: seq<string>, seen: set<string>, h: string)
    ensures h in Unseen(hostnames, seen) <==> h in hostnames && h !in seen
  {
    if hostnames != [] {
      var before := hostnames[..|hostnames| - 1];
      UnseenAre(before, seen, h);
      assert hostnames == before + [hostnames[|before|]];
    }
  }

  lemma AdditionStep(p: Plan, hostnames: seq<string>, seen: set<string>, i: nat)
    requires i < |hostnames| && hostnames[i] in p.desired
    ensures Additions(p, hostnames[..i + 1], seen) ==
      Additions(p, hostnames[..i], seen) + if hostnames[i] in seen then [] else [NewRule(p, hostnames[i])]
    ensures Unseen(hostnames[..i + 1], seen) ==
      Unseen(hostnames[..i], seen) + if hostnames[i] in seen then {} else {hostnames[i]}
  {
    var longer, shorter := hostnames[..i + 1], hostnames[..i];
    assert longer[..|longer| - 1] == shorter && longer[|longer| - 1] == hostnames[i];
  }

  /** The second loop: adds a rule for every wanted hostname not seen. */
  method AddMissing(p: Plan, hostnames: seq<string>, seen: set<string>, body: seq<Rule>, adopted: set<string>)
    returns (result: seq<Rule>, applied: set<string>)
    requires Enumerates(hostnames, p)
    ensures result == body + Additions(p, hostnames, seen) && applied == adopted + (p.desired.Keys - seen)
  {
    result, applied := body, adopted;
    for i := 0 to |hostnames|
      invariant result == body + Additions(p, hostnames[..i], seen)
      invariant applied == adopted + Unseen(hostnames[..i], seen)
    {
      var h := hostnames[i];
      assert h in hostnames;
      AdditionStep(p, hostnames, seen, i);
      if h !in seen {
        result := result + [NewRule(p, h)];
        applied := applied + {h};
      }
    }
    assert hostnames[..|hostnames|] == hostnames;
    forall h ensures h in Unseen(hostnames, seen) <==> h in p.desired.Keys - seen {
      UnseenAre(hostnames, seen, h);
    }
  }

  /** The elements of each part, by the rule they come from. */
  lemma {:induction false} BodyElements(p: Plan, rules: seq<Rule>, x: Rule) returns (i: nat)
    requires x in Body(p, rules)
    ensures i < |rules| && Carried(p, rules[i]) == [x]
  {
    var n := |rules| - 1;
    if x in Body(p, rules[..n]) {
      i := BodyElements(p, rules[..n], x);
    } else {
      i := n;
    }
  }

  lemma {:induction false} BodyHas(p: Plan, rules: seq<Rule>, i: nat)
    requires i < |rules|
    ensures forall x :: x in Carried(p, rules[i]) ==> x in Body(p, rules)
  {
    if i < |rules| - 1 {
      BodyHas(p, rules[..|rules| - 1], i);
    }
  }

  lemma {:induction false} AdoptionsAre(p: Plan, rules: seq<Rule>, h: string)
    ensures h in Adoptions(p, rules) <==>
      exists i :: 0 <= i < |rules| && Judge(p, rules[i]).Adopted? && Host(rules[i]) == h
  {
    if rules != [] {
      var before := rules[..|rules| - 1];
      AdoptionsAre(p, before, h);
      if i :| 0 <= i < |rules| && Judge(p, rules[i]).Adopted? && Host(rules[i]) == h {
        assert i < |before| ==> before[i] == rules[i];
      }
    }
  }

  lemma {:induction false} SeenAre(p: Plan, rules: seq<Rule>, h: string)
    ensures h in Seen(p, rules) <==> h in p.desired && exists i :: 0 <= i < |rules| && Host(rules[i]) == h
  {
    if rules != [] {
      var before := rules[..|rules| - 1];
      SeenAre(p, before, h);
      if i :| 0 <= i < |rules| && Host(rules[i]) == h {
        assert i < |before| ==> before[i] == rules[i];
      }
    }
  }

  /** Why a hostname conflicts depends on the ledger alone. */
  function ReasonFor(p: Plan, h: string): Reason
    requires h in p.desired
  {
    if h !in p.ledger || p.ledger[h].instance != p.desired[h].instance then NotOwned else ChangedOutside
  }

  lemma {:induction false} ConflictsAre(p: Plan, rules: seq<Rule>, h: string)
    ensures h in Conflicts(p, rules) <==>
      exists i :: 0 <= i < |rules| && Judge(p, rules[i]).Conflicting? && Host(rules[i]) == h
    ensures h in Conflicts(p, rules) ==> h in p.desired && Conflicts(p, rules)[h] == ReasonFor(p, h)
  {
    if rules != [] {
      var before := rules[..|rules| - 1];
      ConflictsAre(p, before, h);
      if i :| 0 <= i < |rules| && Judge(p, rules[i]).Conflicting? && Host(rules[i]) == h {
        assert i < |before| ==> before[i] == rules[i];
      }
    }
  }

  /** A rule on the wire that the fleet is to withdraw, but whose service is not the
      one the fleet wrote. */
  predicate ChangedWithdrawal(p: Plan, e: WireRule) {
    var h := Normalize(e.hostname);
    h in p.ledger && h !in p.desired && Trim(e.service) != p.ledger[h].service
  }

  /** A rule on the wire for `h` that the fleet did not write for the instance that
      wants it, or that no longer reads as it was written. */
  predicate NotAsWritten(p: Plan, h: string, e: WireRule)
    requires h in p.desired
  {
    && Normalize(e.hostname) == h
    && (h !in p.ledger || p.ledger[h].instance != p.desired[h].instance || Trim(e.service) != p.ledger[h].service)
  }

  lemma RefusedIsChanged(p: Plan, r: Rule)
    requires Wellformed(p) && r == Read(r.entry)
    ensures Judge(p, r).Refused? <==> ChangedWithdrawal(p, r.entry)
  {
  }

  lemma ConflictingIsForeign(p: Plan, r: Rule, h: string)
    requires Wellformed(p) && r == Read(r.entry) && h in p.desired
    ensures Judge(p, r).Conflicting? && Host(r) == h <==> NotAsWritten(p, h, r.entry)
  {
  }

  lemma ConflictsExactly(p: Plan, rules: seq<Rule>, h: string)
    requires Wellformed(p) && h in p.desired && forall r :: r in rules ==> r == Read(r.entry)
    ensures h in Conflicts(p, rules) <==> exists i :: 0 <= i < |rules| && NotAsWritten(p, h, rules[i].entry)
    ensures h in Conflicts(p, rules) ==>
      (Conflicts(p, rules)[h] == NotOwned <==> h !in p.ledger || p.ledger[h].instance != p.desired[h].instance)
  {
    ConflictsAre(p, rules, h);
    forall i | 0 <= i < |rules|
      ensures Judge(p, rules[i]).Conflicting? && Host(rules[i]) == h <==> NotAsWritten(p, h, rules[i].entry)
    {
      ConflictingIsForeign(p, rules[i], h);
    }
  }

  /** The merge itself. `hostnames` lists the wanted hostnames, in sorted order in
      the source; any order will do. */
  method MergeOwnedIngress(current: seq<Rule>, p: Plan, hostnames: seq<string>) returns (outcome: Outcome)
    requires Wellformed(p) && Enumerates(hostnames, p) && forall r :: r in current ==> r == Read(r.entry)
    ensures outcome.Done? ==> outcome.merged == Merge(p, hostnames, current)
    // Refused exactly if a rule to withdraw was changed; the first such rule is named.
    ensures outcome.Refusal? <==> exists i :: 0 <= i < |current| && ChangedWithdrawal(p, current[i].entry)
    ensures outcome.Refusal? ==> exists i ::
      && 0 <= i < |current| && ChangedWithdrawal(p, current[i].entry)
      && Normalize(current[i].entry.hostname) == outcome.hostname
      && forall j :: 0 <= j < i ==> !ChangedWithdrawal(p, current[j].entry)
    // A wanted hostname conflicts exactly if a rule for it is not as the fleet wrote it.
    ensures outcome.Done? ==> forall h :: h in p.desired ==>
      && (h in outcome.merged.conflicts <==>
           exists i :: 0 <= i < |current| && NotAsWritten(p, h, current[i].entry))
      && (h in outcome.merged.conflicts ==>
           (outcome.merged.conflicts[h] == NotOwned <==>
              h !in p.ledger || p.ledger[h].instance != p.desired[h].instance))
    ensures outcome.Done? ==> outcome.merged.removed == p.ledger.Keys - p.desired.Keys
  {
    forall i | 0 <= i < |current| ensures Judge(p, current[i]).Refused? <==> ChangedWithdrawal(p, current[i].entry) {
      RefusedIsChanged(p, current[i]);
    }
    forall h | h in p.desired
      ensures h in Conflicts(p, current) <==> exists i :: 0 <= i < |current| && NotAsWritten(p, h, current[i].entry)
      ensures h in Conflicts(p, current) ==>
        (Conflicts(p, current)[h] == NotOwned <==>
           h !in p.ledger || p.ledger[h].instance != p.desired[h].instance)
    {
      ConflictsExactly(p, current, h);
    }
    var live, refused := MergeLive(current, p);
    if refused.Some? {
      return Refusal(refused.value);
    }
    var result, applied := AddMissing(p, hostnames, live.seen, live.rules, live.applied);
    result := result + [Fallback(live.fallback)];
    return Done(Merged(result, live.conflicts, applied, p.ledger.Keys - p.desired.Keys));
  }

  lemma {:induction false} AdditionsAre(p: Plan, hostnames: seq<string>, seen: set<string>, x: Rule)
    ensures x in Additions(p, hostnames, seen) <==>
      exists h :: h in hostnames && h in p.desired && h !in seen && x == NewRule(p, h)
  {
    if hostnames != [] {
      var before, last := hostnames[..|hostnames| - 1], hostnames[|hostnames| - 1];
      AdditionsAre(p, before, seen, x);
      assert forall h :: h in hostnames <==> h in before || h == last;
    }
  }

  lemma {:induction false} LastFallbackHasNoHost(rules: seq<Rule>)
    ensures LastFallback(rules).Some? ==> Host(LastFallback(rules).value) == ""
  {
    if rules != [] {
      LastFallbackHasNoHost(rules[..|rules| - 1]);
    }
  }

  lemma FallbackHasNoHost(rules: seq<Rule>)
    ensures Host(Fallback(LastFallback(rules))) == ""
  {
    LastFallbackHasNoHost(rules);
    assert TrimLeft("") == "" && TrimRight("") == "";
  }

  lemma AdoptedOrConflicting(p: Plan, r: Rule)
    requires Wellformed(p) && Host(r) in p.desired
    ensures Judge(p, r).Adopted? || Judge(p, r).Conflicting?
  {
  }

  /** What becomes of one hostname. */
  lemma OneFate(p: Plan, rules: seq<Rule>, h: string)
    requires Wellformed(p) && DistinctHosts(rules)
    ensures h in Adoptions(p, rules) ==> h in Seen(p, rules) && h !in Conflicts(p, rules)
    ensures h in Conflicts(p, rules) ==> h in Seen(p, rules)
    ensures h in Seen(p, rules) ==> h in p.desired && (h in Adoptions(p, rules) || h in Conflicts(p, rules))
  {
    AdoptionsAre(p, rules, h);
    ConflictsAre(p, rules, h);
    SeenAre(p, rules, h);
    if h in Seen(p, rules) {
      var i :| 0 <= i < |rules| && Host(rules[i]) == h;
      AdoptedOrConflicting(p, rules[i]);
    }
  }

  /** Every wanted hostname is published or reported as a conflict, and not both. */
  lemma DesiredIsPartitioned(p: Plan, hostnames: seq<string>, rules: seq<Rule>)
    requires Wellformed(p) && Enumerates(hostnames, p) && DistinctHosts(rules)
    ensures
      var m := Merge(p, hostnames, rules);
      m.applied + m.conflicts.Keys == p.desired.Keys && m.applied !! m.conflicts.Keys
  {
    var m := Merge(p, hostnames, rules);
    forall h ensures (h in m.applied || h in m.conflicts <==> h in p.desired) && !(h in m.applied && h in m.conflicts) {
      OneFate(p, rules, h);
    }
  }

  /** Rules with a hostname outside `mine`, in order. */
  function Others(rules: seq<Rule>, mine: set<string>): seq<Rule> {
    if rules == [] then []
    else
      var r := rules[|rules| - 1];
      Others(rules[..|rules| - 1], mine) + if Host(r) != "" && Host(r) !in mine then [r] else []
  }

  lemma {:induction false} OthersJoin(a: seq<Rule>, b: seq<Rule>, mine: set<string>)
    ensures Others(a + b, mine) == Others(a, mine) + Others(b, mine)
  {
    if b == [] {
      assert a + b == a;
    } else {
      var n := |b| - 1;
      OthersJoin(a, b[..n], mine);
      assert (a + b)[..|a + b| - 1] == a + b[..n];
    }
  }

  lemma {:induction false} OthersOfMine(rules: seq<Rule>, mine: set<string>)
    requires forall r :: r in rules ==> Host(r) == "" || Host(r) in mine
    ensures Others(rules, mine) == []
  {
    if rules != [] {
      OthersOfMine(rules[..|rules| - 1], mine);
      assert rules[|rules| - 1] in rules;
    }
  }

  lemma {:induction false} BodyKeepsOthers(p: Plan, rules: seq<Rule>, mine: set<string>)
    requires Wellformed(p) && Adoptions(p, rules) <= mine
    ensures Others(Body(p, rules), mine) == Others(rules, mine + (p.ledger.Keys - p.desired.Keys))
  {
    if rules != [] {
      var before, r := rules[..|rules| - 1], rules[|rules| - 1];
      BodyKeepsOthers(p, before, mine);
      OthersJoin(Body(p, before), Carried(p, r), mine);
      OneKept(p, r, mine);
    }
  }

  lemma OneKept(p: Plan, r: Rule, mine: set<string>)
    requires Wellformed(p) && (Judge(p, r).Adopted? ==> Host(r) in mine)
    ensures Others(Carried(p, r), mine) ==
      if Host(r) != "" && Host(r) !in mine + (p.ledger.Keys - p.desired.Keys) then [r] else []
  {
    var c := Carried(p, r);
    if c != [] {
      assert c[..|c| - 1] == [];
      assert Others([], mine) == [];
    }
  }

  /** Whatever the fleet neither publishes nor withdraws stays as it was, in order. */
  lemma OthersAreUntouched(p: Plan, hostnames: seq<string>, rules: seq<Rule>)
    requires Wellformed(p) && Enumerates(hostnames, p)
    ensures
      var m := Merge(p, hostnames, rules);
      Others(m.rules, m.applied) == Others(rules, m.applied + m.removed)
  {
    var m := Merge(p, hostnames, rules);
    var added := Additions(p, hostnames, Seen(p, rules));
    BodyKeepsOthers(p, rules, m.applied);
    forall x | x in added ensures Host(x) in m.applied {
      AdditionsAre(p, hostnames, Seen(p, rules), x);
    }
    OthersOfMine(added, m.applied);
    FallbackHasNoHost(rules);
    OthersOfMine([Fallback(LastFallback(rules))], m.applied);
    OthersJoin(Body(p, rules), added, m.applied);
    OthersJoin(Body(p, rules) + added, [Fallback(LastFallback(rules))], m.applied);
  }

  /** A carried rule speaks of the hostname it did, which is not being withdrawn. */
  lemma CarriedFacts(p: Plan, r: Rule, x: Rule)
    requires Wellformed(p) && Carried(p, r) == [x]
    ensures Host(x) == Host(r) != "" && (Host(r) in p.desired || Host(r) !in p.ledger)
  {
  }

  lemma DistinctJoin(a: seq<Rule>, b: seq<Rule>)
    requires DistinctHosts(a) && DistinctHosts(b)
    requires forall x, y :: x in a && y in b ==> Host(x) != "" && Host(x) != Host(y)
    ensures DistinctHosts(a + b)
  {
    var c := a + b;
    forall i, j | 0 <= i < j < |c| && Host(c[i]) != "" ensures Host(c[i]) != Host(c[j]) {
      if i < |a| <= j {
        assert c[i] in a && c[j] in b;
      }
    }
  }

  lemma LastHostIsNew(p: Plan, rules: seq<Rule>, last: Rule, x: Rule)
    requires Wellformed(p) && DistinctHosts(rules + [last]) && x in Body(p, rules)
    ensures Host(x) != "" && Host(x) != Host(last)
  {
    var j := BodyElements(p, rules, x);
    CarriedFacts(p, rules[j], x);
    assert (rules + [last])[j] == rules[j] && (rules + [last])[|rules|] == last;
  }

  lemma CarriedIsDistinct(p: Plan, r: Rule)
    requires Wellformed(p)
    ensures DistinctHosts(Carried(p, r)) && forall x :: x in Carried(p, r) ==> Host(x) == Host(r)
  {
  }

  lemma {:induction false} BodyIsDistinct(p: Plan, rules: seq<Rule>)
    requires Wellformed(p) && DistinctHosts(rules)
    ensures DistinctHosts(Body(p, rules))
  {
    if rules != [] {
      var before, last := rules[..|rules| - 1], rules[|rules| - 1];
      assert rules == before + [last];
      BodyIsDistinct(p, before);
      CarriedIsDistinct(p, last);
      forall x | x in Body(p, before) ensures Host(x) != "" && Host(x) != Host(last) {
        LastHostIsNew(p, before, last, x);
      }
      DistinctJoin(Body(p, before), Carried(p, last));
    }
  }

  lemma {:induction false} AdditionsAreDistinct(p: Plan, hostnames: seq<string>, seen: set<string>)
    requires Wellformed(p)
    requires forall i, j :: 0 <= i < j < |hostnames| ==> hostnames[i] != hostnames[j]
    ensures DistinctHosts(Additions(p, hostnames, seen))
  {
    if hostnames != [] {
      var before, h := hostnames[..|hostnames| - 1], hostnames[|hostnames| - 1];
      AdditionsAreDistinct(p, before, seen);
      var added := Additions(p, before, seen);
      forall i | 0 <= i < |added| ensures Host(added[i]) != h {
        assert added[i] in added;
        AdditionsAre(p, before, seen, added[i]);
      }
    }
  }

  /** The rules before the fallback. */
  function Front(p: Plan, hostnames: seq<string>, rules: seq<Rule>): seq<Rule>
    requires Enumerates(hostnames, p)
  {
    Body(p, rules) + Additions(p, hostnames, Seen(p, rules))
  }

  lemma FrontElement(p: Plan, hostnames: seq<string>, rules: seq<Rule>, x: Rule)
    requires Wellformed(p) && Enumerates(hostnames, p) && x in Front(p, hostnames, rules)
    ensures Host(x) != "" && (Host(x) in p.desired || Host(x) !in p.ledger)
    ensures x in Body(p, rules) ==> (Host(x) in p.desired ==> Host(x) in Seen(p, rules))
    ensures x in Additions(p, hostnames, Seen(p, rules)) ==>
      Host(x) in p.desired && Host(x) !in Seen(p, rules) && x == NewRule(p, Host(x))
  {
    if x in Body(p, rules) {
      var i := BodyElements(p, rules, x);
      CarriedFacts(p, rules[i], x);
      SeenAre(p, rules, Host(x));
    }
    if x in Additions(p, hostnames, Seen(p, rules)) {
      AdditionsAre(p, hostnames, Seen(p, rules), x);
    }
  }

  lemma FrontIsDistinct(p: Plan, hostnames: seq<string>, rules: seq<Rule>)
    requires Wellformed(p) && Enumerates(hostnames, p) && DistinctHosts(rules)
    ensures DistinctHosts(Front(p, hostnames, rules))
  {
    var body, added := Body(p, rules), Additions(p, hostnames, Seen(p, rules));
    BodyIsDistinct(p, rules);
    AdditionsAreDistinct(p, hostnames, Seen(p, rules));
    forall x | x in body ensures Host(x) != "" && (Host(x) in p.desired ==> Host(x) in Seen(p, rules)) {
      FrontElement(p, hostnames, rules, x);
    }
    forall x | x in added ensures Host(x) in p.desired && Host(x) !in Seen(p, rules) {
      FrontElement(p, hostnames, rules, x);
    }
    DistinctJoin(body, added);
  }

  /** The merged list ends with its only fallback, has one rule for a hostname at
      most, and none for a hostname that was withdrawn. */
  lemma MergedListIsSound(p: Plan, hostnames: seq<string>, rules: seq<Rule>)
    requires Wellformed(p) && Enumerates(hostnames, p) && DistinctHosts(rules)
    ensures
      var m := Merge(p, hostnames, rules);
      && DistinctHosts(m.rules)
      && |m.rules| > 0
      && (forall i :: 0 <= i < |m.rules| ==> (Host(m.rules[i]) == "" <==> i == |m.rules| - 1))
      && (forall i :: 0 <= i < |m.rules| ==> Host(m.rules[i]) !in m.removed)
  {
    var front, fallback := Front(p, hostnames, rules), Fallback(LastFallback(rules));
    FallbackHasNoHost(rules);
    FrontIsDistinct(p, hostnames, rules);
    forall x | x in front ensures Host(x) != "" && (Host(x) in p.desired || Host(x) !in p.ledger) {
      FrontElement(p, hostnames, rules, x);
    }
    DistinctJoin(front, [fallback]);
    var m := Merge(p, hostnames, rules);
    assert m.rules == front + [fallback];
    forall i | 0 <= i < |m.rules|
      ensures (Host(m.rules[i]) == "" <==> i == |m.rules| - 1) &&
        (Host(m.rules[i]) == "" || Host(m.rules[i]) !in m.removed)
    {
      if i < |front| {
        assert m.rules[i] in front;
      }
    }
  }

  /** A hostname is published by a rule with the wanted service, which keeps all other
      fields of the live rule it comes from, and has none if there was no such rule. */
  lemma AppliedIsPublished(p: Plan, hostnames: seq<string>, rules: seq<Rule>, h: string)
    requires Wellformed(p) && Enumerates(hostnames, p) && h in Merge(p, hostnames, rules).applied
    ensures h in p.desired && exists x ::
      x in Merge(p, hostnames, rules).rules && x == Read(x.entry)
      && x.entry.hostname == h && x.entry.service == p.desired[h].service
      && (|| (exists i :: 0 <= i < |rules| && Host(rules[i]) == h && x.entry.rest == rules[i].entry.rest)
          || (x.entry.rest == NO_OTHER_FIELDS && forall i :: 0 <= i < |rules| ==> Host(rules[i]) != h))
  {
    var m := Merge(p, hostnames, rules);
    if h in Adoptions(p, rules) {
      AdoptionsAre(p, rules, h);
      var i :| 0 <= i < |rules| && Judge(p, rules[i]).Adopted? && Host(rules[i]) == h;
      var x := Read(WireRule(h, p.desired[h].service, rules[i].entry.rest));
      BodyHas(p, rules, i);
      assert Carried(p, rules[i]) == [x] && x in Carried(p, rules[i]);
      assert x in m.rules;
    } else {
      var x := NewRule(p, h);
      AdditionsAre(p, hostnames, Seen(p, rules), x);
      SeenAre(p, rules, h);
      assert x in m.rules;
    }
  }

  /** The merged list ends with the last live rule that has no hostname, unchanged, or
      with the default one if there is none. */
  lemma FallbackIsKept(p: Plan, hostnames: seq<string>, rules: seq<Rule>)
    requires Enumerates(hostnames, p)
    ensures
      var m := Merge(p, hostnames, rules).rules;
      var last := m[|m| - 1];
      || (exists i :: 0 <= i < |rules| && Host(rules[i]) == "" && last == rules[i]
            && forall j :: i < j < |rules| ==> Host(rules[j]) != "")
      || (last == Read(WireRule("", "http_status:404", NO_OTHER_FIELDS))
          && forall i :: 0 <= i < |rules| ==> Host(rules[i]) != "")
  {
    LastFallbackIsLast(rules);
  }

  lemma {:induction false} LastFallbackIsLast(rules: seq<Rule>)
    ensures LastFallback(rules).None? ==> forall i :: 0 <= i < |rules| ==> Host(rules[i]) != ""
    ensures LastFallback(rules).Some? ==> exists i ::
      0 <= i < |rules| && Host(rules[i]) == "" && rules[i] == LastFallback(rules).value
      && forall j :: i < j < |rules| ==> Host(rules[j]) != ""
  {
    if rules != [] {
      var before := rules[..|rules| - 1];
      LastFallbackIsLast(before);
      if Host(rules[|rules| - 1]) != "" && LastFallback(before).Some? {
        var i :| 0 <= i < |before| && Host(before[i]) == "" && before[i] == LastFallback(before).value
          && forall j :: i < j < |before| ==> Host(before[j]) != "";
        assert rules[i] == before[i];
      }
    }
  }

  /** The ledger's unique index refuses a hostname that another instance still holds. */
  predicate Recordable(p: Plan, applied: set<string>) {
    forall h :: h in applied && h in p.desired && h in p.ledger ==> p.ledger[h].instance == p.desired[h].instance
  }

  /** The ledger once the pass has recorded what it published and dropped what it
      withdrew. */
  function After(p: Plan, m: Merged): Plan
    requires Recordable(p, m.applied)
  {
    p.(ledger := map h | h in p.ledger.Keys + p.desired.Keys && (h in p.ledger || h in m.applied) && h !in m.removed ::
      if h in m.applied && h in p.desired then Row(p.desired[h].service, p.desired[h].instance) else p.ledger[h])
  }

  /** The one case that cannot be recorded: a wanted hostname that has lost its
      live rule and that the ledger still gives to another instance. */
  lemma RecordableExactly(p: Plan, hostnames: seq<string>, rules: seq<Rule>)
    requires Wellformed(p) && Enumerates(hostnames, p)
    ensures Recordable(p, Merge(p, hostnames, rules).applied) <==>
      forall h :: h in p.desired && h in p.ledger && p.ledger[h].instance != p.desired[h].instance ==>
        exists i :: 0 <= i < |rules| && Host(rules[i]) == h
  {
    var m := Merge(p, hostnames, rules);
    forall h | h in p.desired
      ensures h in Seen(p, rules) <==> exists i :: 0 <= i < |rules| && Host(rules[i]) == h
    {
      SeenAre(p, rules, h);
    }
    forall h | h in m.applied && h in p.desired && h in p.ledger && p.ledger[h].instance != p.desired[h].instance
      ensures h !in Seen(p, rules)
    {
      AdoptionsAre(p, rules, h);
    }
  }

  /** Every rule of a merged list is kept as it is by the next merge. */
  predicate Settled(p: Plan, x: Rule) {
    Carried(p, x) == [x]
  }

  lemma {:induction false} BodyOfSettled(p: Plan, rules: seq<Rule>)
    requires forall x :: x in rules ==> Settled(p, x)
    ensures Body(p, rules) == rules
  {
    if rules != [] {
      var before := rules[..|rules| - 1];
      assert forall x :: x in before ==> x in rules;
      BodyOfSettled(p, before);
      assert Settled(p, rules[|rules| - 1]);
    }
  }

  lemma AdoptedIsSettled(p: Plan, h: string, x: Rule)
    requires Wellformed(p) && h in p.desired && x == Read(x.entry) && x.entry.hostname == h &&
      x.entry.service == p.desired[h].service
    requires h in p.ledger && p.ledger[h] == Row(p.desired[h].service, p.desired[h].instance)
    ensures Settled(p, x) && Judge(p, x).Adopted?
  {
  }

  lemma UntouchedIsSettled(p: Plan, q: Plan, x: Rule)
    requires p.desired == q.desired && (Judge(p, x).Foreign? || Judge(p, x).Conflicting?)
    requires Host(x) in p.ledger <==> Host(x) in q.ledger
    requires Host(x) in p.ledger ==> p.ledger[Host(x)] == q.ledger[Host(x)]
    ensures Settled(q, x) && Judge(q, x) == Judge(p, x)
  {
  }

  lemma AfterLedger(p: Plan, m: Merged, h: string)
    requires m.removed == p.ledger.Keys - p.desired.Keys
    requires Recordable(p, m.applied)
    ensures
      var q := After(p, m);
      && (h in m.applied && h in p.desired ==>
        h in q.ledger && q.ledger[h] == Row(p.desired[h].service, p.desired[h].instance))
      && (h in p.desired && h !in m.applied ==> (h in q.ledger <==> h in p.ledger))
      && (h in p.desired && h !in m.applied && h in p.ledger ==> q.ledger[h] == p.ledger[h])
      && (h !in p.desired ==> h !in q.ledger)
  {
  }

  lemma CarriedIsSettled(p: Plan, m: Merged, r: Rule, x: Rule)
    requires Wellformed(p) && Carried(p, r) == [x] && m.removed == p.ledger.Keys - p.desired.Keys
    requires Judge(p, r).Adopted? ==> Host(r) in m.applied
    requires Judge(p, r).Conflicting? ==> Host(r) !in m.applied
    requires Recordable(p, m.applied)
    ensures
      var q := After(p, m);
      Settled(q, x) && (Judge(q, x).Adopted? <==> Judge(p, r).Adopted?) &&
        (Judge(q, x).Conflicting? <==> Judge(p, r).Conflicting?)
  {
    var q := After(p, m);
    AfterLedger(p, m, Host(r));
    assert Wellformed(q);
    if Judge(p, r).Adopted? {
      AdoptedIsSettled(q, Host(r), x);
    } else {
      UntouchedIsSettled(p, q, x);
    }
  }

  /** Each rule of a merged list is kept as it is under the plan that follows, as
      the fleet's own or as a conflict just as before. */
  lemma FrontIsSettled(p: Plan, hostnames: seq<string>, rules: seq<Rule>, x: Rule)
    requires Wellformed(p) && Enumerates(hostnames, p) && DistinctHosts(rules) && x in Front(p, hostnames, rules)
    requires Recordable(p, Merge(p, hostnames, rules).applied)
    ensures
      var m := Merge(p, hostnames, rules);
      var q := After(p, m);
      && Settled(q, x)
      && (Judge(q, x).Adopted? <==> Host(x) in m.applied)
      && (Judge(q, x).Conflicting? <==> Host(x) in m.conflicts)
  {
    var m := Merge(p, hostnames, rules);
    FrontElement(p, hostnames, rules, x);
    if x in Body(p, rules) {
      var i := BodyElements(p, rules, x);
      CarriedFacts(p, rules[i], x);
      RuleFate(p, hostnames, rules, i);
      CarriedIsSettled(p, m, rules[i], x);
    } else {
      OneFate(p, rules, Host(x));
      AfterLedger(p, m, Host(x));
      AdoptedIsSettled(After(p, m), Host(x), x);
    }
  }

  /** A live rule is adopted, or conflicts, exactly if its hostname is. */
  lemma RuleFate(p: Plan, hostnames: seq<string>, rules: seq<Rule>, i: nat)
    requires Wellformed(p) && Enumerates(hostnames, p) && DistinctHosts(rules) && i < |rules|
    ensures
      var m := Merge(p, hostnames, rules);
      && (Judge(p, rules[i]).Adopted? <==> Host(rules[i]) in m.applied)
      && (Judge(p, rules[i]).Conflicting? <==> Host(rules[i]) in m.conflicts)
  {
    var h := Host(rules[i]);
    OneFate(p, rules, h);
    AdoptionsAre(p, rules, h);
    ConflictsAre(p, rules, h);
    SeenAre(p, rules, h);
    if h in p.desired {
      AdoptedOrConflicting(p, rules[i]);
    }
  }

  /** Every wanted hostname has its rule. */
  lemma FrontHas(p: Plan, hostnames: seq<string>, rules: seq<Rule>, h: string) returns (i: nat)
    requires Wellformed(p) && Enumerates(hostnames, p) && DistinctHosts(rules) && h in p.desired
    ensures i < |Front(p, hostnames, rules)| && Host(Front(p, hostnames, rules)[i]) == h
  {
    var front := Front(p, hostnames, rules);
    DesiredIsPartitioned(p, hostnames, rules);
    if h in Merge(p, hostnames, rules).applied {
      AppliedIsPublished(p, hostnames, rules, h);
      var x :| x in Merge(p, hostnames, rules).rules && x == Read(x.entry) && x.entry.hostname == h;
      FallbackHasNoHost(rules);
      assert x in front;
      i :| 0 <= i < |front| && front[i] == x;
    } else {
      ConflictsAre(p, rules, h);
      var j :| 0 <= j < |rules| && Judge(p, rules[j]).Conflicting? && Host(rules[j]) == h;
      BodyHas(p, rules, j);
      assert rules[j] in Carried(p, rules[j]);
      assert rules[j] in front;
      i :| 0 <= i < |front| && front[i] == rules[j];
    }
  }

  lemma {:induction false} NothingToAdd(p: Plan, hostnames: seq<string>, seen: set<string>)
    requires forall h :: h in hostnames ==> h in seen
    ensures Additions(p, hostnames, seen) == []
  {
    if hostnames != [] {
      NothingToAdd(p, hostnames[..|hostnames| - 1], seen);
    }
  }

  /** What the next merge finds under one hostname of the merged list. */
  lemma HostAfter(p: Plan, hostnames: seq<string>, rules: seq<Rule>, h: string)
    requires Wellformed(p) && Enumerates(hostnames, p) && DistinctHosts(rules)
    requires Recordable(p, Merge(p, hostnames, rules).applied)
    ensures
      var m, front := Merge(p, hostnames, rules), Front(p, hostnames, rules);
      var q := After(p, m);
      && (h in Seen(q, front) <==> h in p.desired)
      && (h in Adoptions(q, front) <==> h in m.applied)
      && (h in Conflicts(q, front) <==> h in m.conflicts)
      && (h in m.conflicts ==> h in Conflicts(q, front) && Conflicts(q, front)[h] == m.conflicts[h])
  {
    var m, front := Merge(p, hostnames, rules), Front(p, hostnames, rules);
    var q := After(p, m);
    SeenAre(q, front, h);
    AdoptionsAre(q, front, h);
    ConflictsAre(q, front, h);
    ConflictsAre(p, rules, h);
    DesiredIsPartitioned(p, hostnames, rules);
    AfterLedger(p, m, h);
    forall i | 0 <= i < |front| && Host(front[i]) == h
      ensures (Judge(q, front[i]).Adopted? <==> h in m.applied) &&
        (Judge(q, front[i]).Conflicting? <==> h in m.conflicts)
    {
      FrontIsSettled(p, hostnames, rules, front[i]);
    }
    if h in p.desired {
      var i := FrontHas(p, hostnames, rules, h);
    }
  }

  lemma HostsAfter(p: Plan, hostnames: seq<string>, rules: seq<Rule>)
    requires Wellformed(p) && Enumerates(hostnames, p) && DistinctHosts(rules)
    requires Recordable(p, Merge(p, hostnames, rules).applied)
    ensures
      var m, front := Merge(p, hostnames, rules), Front(p, hostnames, rules);
      var q := After(p, m);
      Seen(q, front) == p.desired.Keys && Adoptions(q, front) == m.applied && Conflicts(q, front) == m.conflicts
  {
    var m, front := Merge(p, hostnames, rules), Front(p, hostnames, rules);
    var q := After(p, m);
    forall h ensures SameAt(Live(q, front), m, p.desired.Keys, h) {
      HostAfter(p, hostnames, rules, h);
    }
    SameEverywhere(Live(q, front), m, p.desired.Keys);
  }

  predicate SameAt(g: Gathered, m: Merged, desired: set<string>, h: string) {
    && (h in g.seen <==> h in desired)
    && (h in g.applied <==> h in m.applied)
    && (h in g.conflicts <==> h in m.conflicts)
    && (h in m.conflicts && h in g.conflicts ==> g.conflicts[h] == m.conflicts[h])
  }

  lemma SameEverywhere(g: Gathered, m: Merged, desired: set<string>)
    requires forall h :: SameAt(g, m, desired, h)
    ensures g.seen == desired && g.applied == m.applied && g.conflicts == m.conflicts
  {
    forall h
      ensures (h in g.seen <==> h in desired) && (h in g.applied <==> h in m.applied)
      ensures h in g.conflicts <==> h in m.conflicts
      ensures h in g.conflicts && h in m.conflicts ==> g.conflicts[h] == m.conflicts[h]
    {
      assert SameAt(g, m, desired, h);
    }
  }

  lemma BodyAfter(p: Plan, hostnames: seq<string>, rules: seq<Rule>)
    requires Wellformed(p) && Enumerates(hostnames, p) && DistinctHosts(rules)
    requires Recordable(p, Merge(p, hostnames, rules).applied)
    ensures
      var front, q := Front(p, hostnames, rules), After(p, Merge(p, hostnames, rules));
      Body(q, front) == front && forall x :: x in front ==> Settled(q, x)
  {
    var front, q := Front(p, hostnames, rules), After(p, Merge(p, hostnames, rules));
    forall x | x in front ensures Settled(q, x) {
      FrontIsSettled(p, hostnames, rules, x);
    }
    BodyOfSettled(q, front);
  }

  lemma LiveWithFallback(q: Plan, front: seq<Rule>, fallback: Rule, rules: seq<Rule>)
    requires Wellformed(q) && Host(fallback) == "" && rules == front + [fallback]
    ensures Live(q, rules) == Live(q, front).(fallback := Some(fallback))
  {
    assert rules[..|rules| - 1] == front;
  }

  lemma MergeOfSettled(q: Plan, hostnames: seq<string>, front: seq<Rule>, fallback: Rule, rules: seq<Rule>)
    requires Wellformed(q) && Enumerates(hostnames, q)
    requires Live(q, rules) == Live(q, front).(fallback := Some(fallback)) && rules == front + [fallback]
    requires Body(q, front) == front && Seen(q, front) == q.desired.Keys
    ensures Merge(q, hostnames, rules) ==
      Merged(rules, Conflicts(q, front), Adoptions(q, front), q.ledger.Keys - q.desired.Keys)
  {
    NothingToAdd(q, hostnames, q.desired.Keys);
    assert front + [] == front;
  }

  lemma NoneRefused(q: Plan, rules: seq<Rule>, front: seq<Rule>, fallback: Rule)
    requires rules == front + [fallback] && Host(fallback) == "" && forall x :: x in front ==> Settled(q, x)
    ensures !AnyRefused(q, rules)
  {
    forall i | 0 <= i < |rules| ensures !Judge(q, rules[i]).Refused? {
      if i < |front| {
        assert rules[i] in front;
        assert Settled(q, rules[i]);
      }
    }
  }

  lemma AfterIsWellformed(p: Plan, hostnames: seq<string>, m: Merged)
    requires Wellformed(p) && Enumerates(hostnames, p) && m.removed == p.ledger.Keys - p.desired.Keys
    requires Recordable(p, m.applied)
    ensures Wellformed(After(p, m)) && Enumerates(hostnames, After(p, m))
    ensures After(p, m).ledger.Keys <= p.desired.Keys
  {
  }

  /** Merging the merged list again, against the ledger as the pass leaves it,
      gives the same list, the same conflicts, and withdraws nothing. */
  lemma MergeIsFixedPoint(p: Plan, hostnames: seq<string>, rules: seq<Rule>)
    requires Wellformed(p) && Enumerates(hostnames, p) && DistinctHosts(rules)
    requires Recordable(p, Merge(p, hostnames, rules).applied)
    ensures
      var m := Merge(p, hostnames, rules);
      var q := After(p, m);
      && Enumerates(hostnames, q)
      && !AnyRefused(q, m.rules)
      && Merge(q, hostnames, m.rules) == m.(removed := {})
  {
    var m, front, fallback := Merge(p, hostnames, rules), Front(p, hostnames, rules), Fallback(LastFallback(rules));
    var q := After(p, m);
    FallbackHasNoHost(rules);
    BodyAfter(p, hostnames, rules);
    HostsAfter(p, hostnames, rules);
    AfterIsWellformed(p, hostnames, m);
    LiveWithFallback(q, front, fallback, m.rules);
    MergeOfSettled(q, hostnames, front, fallback, m.rules);
    NoneRefused(q, m.rules, front, fallback);
    assert q.ledger.Keys - q.desired.Keys == {};
  }

  /** In the other case the pass fails when it records such a hostname, and whatever
      else it did record, the next merge of its list reports it as a conflict. */
  lemma UnrecordableConflicts(p: Plan, hostnames: seq<string>, rules: seq<Rule>, h: string, q: Plan)
    requires Wellformed(p) && Enumerates(hostnames, p) && h in Merge(p, hostnames, rules).applied
    requires h in p.desired && h in p.ledger && p.ledger[h].instance != p.desired[h].instance
    requires q.desired == p.desired && h in q.ledger && q.ledger[h] == p.ledger[h]
    ensures h in Conflicts(q, Merge(p, hostnames, rules).rules)
    ensures Conflicts(q, Merge(p, hostnames, rules).rules)[h] == NotOwned
  {
    var merged := Merge(p, hostnames, rules).rules;
    AppliedIsPublished(p, hostnames, rules, h);
    var x :| x in merged && x == Read(x.entry) && x.entry.hostname == h;
    var i :| 0 <= i < |merged| && merged[i] == x;
    assert Host(x) == h && Judge(q, x) == Conflicting(NotOwned);
    ConflictsAre(q, merged, h);
  }
}
