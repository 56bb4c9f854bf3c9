/** A platform deployment as an ordered sequence of durable writes.

    Every file write of deploy/runtime/host.py (and of the rollout it ends in) is
    one `Write`.  The controller may die before any of them; in between, customers
    sign up and operators move customers.  A later attempt starts over from
    whatever the durable state is, with the same candidate or another. */
module Deployment {
  import opened Common
  import opened Movement

  /** Where a runtime's requests go, under the id it is routed by. */
  datatype Route = Route(id: string, targets: string)

  /** A registry entry; `settings` stands for the rest of the immutable runtime configuration. */
  datatype Entry = Entry(id: string, releaseSha: string, route: Route, settings: string)

  /** fleet.json: the registry and, for every other runtime than the original one, its bundle. */
  datatype Fleet = Fleet(registry: seq<Entry>, bundles: map<string, Entry>)
  datatype Archive = Missing | Retained(fleet: Option<Fleet>)
  datatype Baseline = Baseline(candidate: string, complete: bool)

  /** `prepared` are the bundle directories releases/<id>/runtime, `operator` is operator.json. */
  datatype Durable = Durable(
    baseline: Option<Baseline>, registry: Option<seq<Entry>>, operator: seq<Entry>, routes: Option<seq<Route>>,
    prepared: map<string, Entry>, fleet: Option<Fleet>, archive: Archive, default: Option<string>, journal: Journal)

  const INITIAL := Durable(None, None, [], None, map[], None, Missing, None, EMPTY)

  /** A retained input: its identity, the original runtime it would initialise and
      the runtime bundle that preparing it would generate. */
  datatype Candidate = Candidate(id: string, primary: Entry, runtime: Entry)

  predicate Formed(c: Candidate) {
    c.primary.id == "primary" && c.runtime.id == c.id && c.id != "primary"
  }

  // ----- Registry ---------------------------------------------------------------

  predicate IdentifierChar(c: char) {
    'a' <= c <= 'z' || '0' <= c <= '9' || c == '-'
  }

  predicate Identifier(s: string) {
    1 <= |s| <= 63 && 'a' <= s[0] <= 'z' && forall k :: 1 <= k < |s| ==> IdentifierChar(s[k])
  }

  /** A commit identity: forty hexadecimal digits. */
  predicate Commit(s: string) {
    |s| == 40 && forall k :: 0 <= k < |s| ==> '0' <= s[k] <= '9' || 'a' <= s[k] <= 'f'
  }

  predicate ValidEntry(e: Entry) {
    Identifier(e.id) && e.route.id == e.id && Commit(e.releaseSha)
  }

  function Ids(entries: seq<Entry>): set<string> {
    set k | 0 <= k < |entries| :: entries[k].id
  }

  predicate ValidRegistry(entries: seq<Entry>) {
    && 1 <= |entries| <= 32
    && (forall k :: 0 <= k < |entries| ==> ValidEntry(entries[k]))
    && (forall i, k :: 0 <= i < k < |entries| ==> entries[i].id != entries[k].id)
    && "primary" in Ids(entries)
  }

  method ValidateRegistry(entries: seq<Entry>) returns (valid: bool)
    ensures valid <==> ValidRegistry(entries)
  {
    if |entries| < 1 || 32 < |entries| {
      return false;
    }
    var ids := {};
    for k := 0 to |entries|
      invariant ids == Ids(entries[..k])
      invariant forall i :: 0 <= i < k ==> ValidEntry(entries[i])
      invariant forall i, m :: 0 <= i < m < k ==> entries[i].id != entries[m].id
    {
      var e := entries[k];
      if e.id in ids {
        var i :| 0 <= i < k && entries[..k][i].id == e.id;
        assert entries[i].id == entries[k].id;
        return false;
      }
      if !Identifier(e.id) || e.route.id != e.id || !Commit(e.releaseSha) {
        return false;
      }
      assert forall i :: 0 <= i < k ==> entries[..k][i].id in ids;
      assert entries[..k + 1] == entries[..k] + [entries[k]];
      ids := ids + {entries[k].id};
      IdsAppend(entries[..k], entries[k]);
    }
    assert entries[..|entries|] == entries;
    return "primary" in ids;
  }

  lemma IdsAppend(entries: seq<Entry>, e: Entry)
    ensures Ids(entries + [e]) == Ids(entries) + {e.id}
  {
    forall id | id in Ids(entries) ensures id in Ids(entries + [e]) {
      var k :| 0 <= k < |entries| && entries[k].id == id;
      assert (entries + [e])[k].id == id;
    }
    assert (entries + [e])[|entries|].id == e.id;
  }

  function Find(entries: seq<Entry>, id: string): (r: Option<Entry>)
    ensures r.Some? ==> r.value in entries && r.value.id == id
    ensures r.None? ==> id !in Ids(entries)
  {
    if entries == [] then None
    else if entries[0].id == id then Some(entries[0])
    else
      assert entries == [entries[0]] + entries[1..];
      Find(entries[1..], id)
  }

  /** Refused when the registry is invalid or full, or the id is bound to another configuration. */
  function Enroll(entries: seq<Entry>, e: Entry): Option<seq<Entry>> {
    var previous := Find(entries, e.id);
    if !ValidRegistry(entries) || (previous.Some? && previous.value != e) then None
    else
      var result := if previous.Some? then entries else entries + [e];
      if ValidRegistry(result) then Some(result) else None
  }

  /** The configuration of every runtime but the original one, read from its bundle directory. */
  function FleetOf(entries: seq<Entry>, prepared: map<string, Entry>): Option<Fleet> {
    if forall k :: 0 <= k < |entries| ==> entries[k].id == "primary" || entries[k].id in prepared then
      Some(Fleet(entries, map id | id in Ids(entries) && id != "primary" && id in prepared :: prepared[id]))
    else None
  }

  function Routes(entries: seq<Entry>): seq<Route> {
    seq(|entries|, k requires 0 <= k < |entries| => entries[k].route)
  }

  // ----- Durable writes -------------------------------------------------------------

  datatype Write =
    | ToBaseline(value: Baseline)
    | ToRegistry(entries: seq<Entry>)
    | ToOperator(entries: seq<Entry>)
    | ToRoutes(entries: seq<Entry>)
    | ToBundle(entry: Entry)
    | ToFleet(fleet: Fleet)
    | ToArchive
    | ToDefault(id: string)

  function Apply(d: Durable, w: Write): Durable {
    match w
    case ToBaseline(b) => d.(baseline := Some(b))
    case ToRegistry(entries) => d.(registry := Some(entries))
    case ToOperator(entries) => d.(operator := entries)
    case ToRoutes(entries) => d.(routes := Some(Routes(entries)))
    case ToBundle(e) => d.(prepared := d.prepared[e.id := e])
    case ToFleet(f) => d.(fleet := Some(f))
    case ToArchive => d.(archive := Retained(d.fleet))
    case ToDefault(id) => d.(default := Some(id))
  }

  function ApplyAll(d: Durable, ws: seq<Write>): Durable
    decreases |ws|
  {
    if ws == [] then d else ApplyAll(Apply(d, ws[0]), ws[1..])
  }

  /** New customers join the default runtime; operators move customers between the
      runtimes their configuration lists. */
  predicate Permitted(d: Durable, a: Act) {
    match a
    case Joins(runtime) => d.default == Some(runtime)
    case Begins(_, destination) => destination in Ids(d.operator)
    case _ => true
  }

  function Interlude(d: Durable, acts: seq<Act>): Durable
    decreases |acts|
  {
    if acts == [] then d
    else Interlude(if Permitted(d, acts[0]) then d.(journal := Perform(d.journal, acts[0])) else d, acts[1..])
  }

  function Allowed(d: Durable, acts: seq<Act>): seq<Act> {
    if acts == [] then []
    else (if Permitted(d, acts[0]) then [acts[0]] else []) + Allowed(d, acts[1..])
  }

  /** What others may do while the customers are moved: the same, and edit placements by hand, to any
      runtime the operator configuration lists. */
  function Possible(d: Durable, o: Others): Others {
    Others(map i | i in o.edits && o.edits[i].runtime in Ids(d.operator) :: o.edits[i], Allowed(d, o.acts))
  }

  function PossibleFates(d: Durable, fates: seq<Fate>): seq<Fate> {
    seq(|fates|, k requires 0 <= k < |fates| => fates[k].(foreign := Possible(d, fates[k].foreign)))
  }

  /** The writes in order, with `schedule[k]` happening before write `k`; the
      controller dies when the schedule runs out. */
  function Execute(d: Durable, ws: seq<Write>, schedule: seq<seq<Act>>): Durable
    decreases |ws|
  {
    if ws == [] || schedule == [] then d
    else Execute(Apply(Interlude(d, schedule[0]), ws[0]), ws[1..], schedule[1..])
  }

  // ----- The order of a deployment ---------------------------------------------------

  /** The writes up to success, or up to the check that stops the deployment. */
  datatype Plan = Plan(writes: seq<Write>, finishes: bool)

  function InitialisePlan(d: Durable, c: Candidate): Plan {
    if d.registry.Some? && d.registry.value != [c.primary] then Plan([], false)
    else if !ValidRegistry([c.primary]) then Plan([], false)
    else
      Plan((if d.registry.None? then [ToRegistry([c.primary])] else []) +
           [ToOperator([c.primary]), ToDefault("primary"), ToArchive, ToBaseline(Baseline(c.id, true))], true)
  }

  function BaselinePlan(d: Durable, c: Candidate): Plan {
    match d.baseline
    case None =>
      var p := InitialisePlan(d, c);
      Plan([ToBaseline(Baseline(c.id, false))] + p.writes, p.finishes)
    case Some(b) =>
      if b.complete then Plan([], true)
      else if b.candidate != c.id then Plan([], false)
      else InitialisePlan(d, c)
  }

  /** rollout.py: credentials before routes, routes before the default. */
  function RolloutWrites(entries: seq<Entry>, id: string): seq<Write> {
    [ToOperator(entries), ToRegistry(entries), ToRoutes(entries), ToDefault(id)]
  }

  /** The directory is retained and archived before any customer can depend on it. */
  function RetainWrites(entries: seq<Entry>, archived: Fleet): seq<Write> {
    [ToRegistry(entries), ToFleet(archived), ToArchive]
  }

  function PublishPlan(d: Durable, id: string, entry: Entry): Plan
    requires d.registry.Some?
  {
    match Enroll(d.registry.value, entry)
    case None => Plan([], false)
    case Some(entries) =>
      match FleetOf(entries, d.prepared)
      case None => Plan([ToRoutes(entries)], false)
      case Some(archived) =>
        Plan([ToRoutes(entries)] + RetainWrites(entries, archived) + RolloutWrites(entries, id), true)
  }

  function RuntimePlan(d: Durable, c: Candidate): Plan {
    if d.registry.None? then Plan([], false)
    else if c.id in d.prepared then PublishPlan(d, c.id, d.prepared[c.id])
    else
      var p := PublishPlan(Apply(d, ToBundle(c.runtime)), c.id, c.runtime);
      Plan([ToBundle(c.runtime)] + p.writes, p.finishes)
  }

  function PlanOf(d: Durable, c: Candidate): Plan {
    var first := BaselinePlan(d, c);
    if !first.finishes then first
    else
      var second := RuntimePlan(ApplyAll(d, first.writes), c);
      Plan(first.writes + second.writes, second.finishes)
  }

  /** One deployment attempt; the customers are moved only after the last write. */
  datatype Attempt = Attempt(candidate: Candidate, schedule: seq<seq<Act>>, fates: seq<Fate>)

  /** The state in which an attempt begins to move the customers; None if it dies or stops before. */
  function Reached(d: Durable, a: Attempt): Option<Durable> {
    var p := PlanOf(d, a.candidate);
    if p.finishes && |p.writes| < |a.schedule| then
      Some(Interlude(Execute(d, p.writes, a.schedule), a.schedule[|p.writes|]))
    else None
  }

  function Placing(d: Durable, a: Attempt): (Journal, Outcome) {
    Run(d.journal, a.candidate.id, PossibleFates(d, a.fates))
  }

  function Attempted(d: Durable, a: Attempt): Durable {
    match Reached(d, a)
    case None => Execute(d, PlanOf(d, a.candidate).writes, a.schedule)
    case Some(last) => last.(journal := Placing(last, a).0)
  }

  /** How the customers' part of an attempt ends, if it comes to that. */
  function OutcomeOf(d: Durable, a: Attempt): Option<Outcome> {
    match Reached(d, a)
    case None => None
    case Some(last) => Some(Placing(last, a).1)
  }

  function History(d: Durable, attempts: seq<Attempt>): Durable
    decreases |attempts|
  {
    if attempts == [] then d else History(Attempted(d, attempts[0]), attempts[1..])
  }

  lemma RuntimePlanReadsFiles(d: Durable, d': Durable, c: Candidate)
    requires Files(d) == Files(d')
    ensures RuntimePlan(d, c) == RuntimePlan(d', c)
  {
    assert d' == d.(journal := d'.journal) by {
      assert Files(d).(journal := d'.journal) == Files(d').(journal := d'.journal);
    }
  }

  // ----- The installation, written in place -------------------------------------------

  /** Everything but the journal, which changes between the writes. */
  function Files(d: Durable): Durable {
    d.(journal := EMPTY)
  }

  lemma {:induction false} InterludeKeepsFiles(d: Durable, acts: seq<Act>)
    ensures Files(Interlude(d, acts)) == Files(d)
    decreases |acts|
  {
    if acts != [] {
      InterludeKeepsFiles(if Permitted(d, acts[0]) then d.(journal := Perform(d.journal, acts[0])) else d, acts[1..]);
    }
  }

  /** Surviving the first writes, the rest is a deployment from where they ended; dying in them ends it. */
  lemma {:induction false} ExecuteConcat(d: Durable, ws: seq<Write>, more: seq<Write>, schedule: seq<seq<Act>>)
    ensures Execute(d, ws + more, schedule) ==
            if |ws| <= |schedule| then Execute(Execute(d, ws, schedule), more, schedule[|ws|..])
            else Execute(d, ws, schedule)
    decreases |ws|
  {
    if ws == [] {
      assert ws + more == more && schedule[0..] == schedule;
    } else if schedule != [] {
      assert (ws + more)[1..] == ws[1..] + more;
      ExecuteConcat(Apply(Interlude(d, schedule[0]), ws[0]), ws[1..], more, schedule[1..]);
      if |ws| <= |schedule| {
        assert schedule[1..][|ws| - 1..] == schedule[|ws|..];
      }
    }
  }

  /** What happens between the writes leaves the files alone. */
  lemma {:induction false} ExecuteFiles(d: Durable, d': Durable, ws: seq<Write>, schedule: seq<seq<Act>>)
    requires |ws| <= |schedule| && Files(d) == Files(d')
    ensures Files(Execute(d, ws, schedule)) == Files(ApplyAll(d', ws))
    decreases |ws|
  {
    if ws != [] {
      InterludeKeepsFiles(d, schedule[0]);
      ExecuteFiles(Apply(Interlude(d, schedule[0]), ws[0]), Apply(d', ws[0]), ws[1..], schedule[1..]);
    }
  }

  class Installation {
    var baseline: Option<Baseline>
    var registry: Option<seq<Entry>>
    var operator: seq<Entry>
    var routes: Option<seq<Route>>
    var prepared: map<string, Entry>
    var fleet: Option<Fleet>
    var archive: Archive
    var default: Option<string>
    const cli: Authority

    constructor ()
      ensures State() == INITIAL && fresh(cli)
    {
      baseline, registry, operator, routes := None, None, [], None;
      prepared, fleet, archive, default := map[], None, Missing, None;
      cli := new Authority();
    }

    function State(): Durable
      reads this, cli
    {
      Durable(baseline, registry, operator, routes, prepared, fleet, archive, default, cli.State())
    }

    /** What customers and operators do before write number `step`; false when the controller is dead. */
    method Live(schedule: seq<seq<Act>>, step: nat) returns (alive: bool)
      modifies cli
      ensures alive == (step < |schedule|)
      ensures State() == if alive then Interlude(old(State()), schedule[step]) else old(State())
    {
      if |schedule| <= step {
        return false;
      }
      var acts := schedule[step];
      ghost var target := Interlude(State(), acts);
      for k := 0 to |acts|
        invariant Files(State()) == Files(old(State()))
        invariant Interlude(State(), acts[k..]) == target
      {
        if Permitted(State(), acts[k]) {
          cli.PerformAct(acts[k]);
        }
      }
      return true;
    }

    /** One atomic file replacement. */
    method Commit(w: Write, schedule: seq<seq<Act>>, step: nat) returns (alive: bool)
      modifies this, cli
      ensures alive == (step < |schedule|)
      ensures State() == if alive then Apply(Interlude(old(State()), schedule[step]), w) else old(State())
    {
      alive := Live(schedule, step);
      if !alive {
        return;
      }
      match w {
        case ToBaseline(b) => baseline := Some(b);
        case ToRegistry(entries) => registry := Some(entries);
        case ToOperator(entries) => operator := entries;
        case ToRoutes(entries) => routes := Some(Routes(entries));
        case ToBundle(e) => prepared := prepared[e.id := e];
        case ToFleet(f) => fleet := Some(f);
        case ToArchive => archive := Retained(fleet);
        case ToDefault(id) => default := Some(id);
      }
    }

    /** Consecutive replacements with no check between them; `rest` is what is left of the schedule. */
    method CommitAll(ws: seq<Write>, schedule: seq<seq<Act>>) returns (alive: bool, rest: seq<seq<Act>>)
      modifies this, cli
      ensures alive == (|ws| <= |schedule|)
      ensures alive ==> rest == schedule[|ws|..] && Files(State()) == Files(ApplyAll(old(State()), ws))
      ensures State() == Execute(old(State()), ws, schedule)
    {
      ghost var before := State();
      for k := 0 to |ws|
        invariant k <= |schedule|
        invariant Execute(State(), ws[k..], schedule[k..]) == Execute(before, ws, schedule)
      {
        alive := Commit(ws[k], schedule, k);
        if !alive {
          return alive, [];
        }
        assert schedule[k..][0] == schedule[k] && schedule[k..][1..] == schedule[k + 1..];
        assert ws[k..][0] == ws[k] && ws[k..][1..] == ws[k + 1..];
      }
      ExecuteFiles(before, before, ws, schedule);
      return true, schedule[|ws|..];
    }

    /** initialize.py: register the original runtime. */
    method Initialise(c: Candidate, schedule: seq<seq<Act>>) returns (alive: bool, valid: bool, rest: seq<seq<Act>>)
      modifies this, cli
      ensures Follows(old(State()), old(InitialisePlan(State(), c)), schedule, alive, valid, rest)
    {
      if registry.Some? && registry.value != [c.primary] {
        return true, false, schedule;
      }
      valid := ValidateRegistry([c.primary]);
      if !valid {
        return true, false, schedule;
      }
      var ws := if registry.None? then [ToRegistry([c.primary])] else [];
      ws := ws + [ToOperator([c.primary]), ToDefault("primary"), ToArchive, ToBaseline(Baseline(c.id, true))];
      alive, rest := CommitAll(ws, schedule);
    }

    /** What a phase does with its plan: it performs the writes, or dies in them, or ends at the failed check. */
    ghost predicate Follows(before: Durable, p: Plan, schedule: seq<seq<Act>>, alive: bool, finished: bool,
                            rest: seq<seq<Act>>)
      reads this, cli
    {
      && alive == (|p.writes| <= |schedule|)
      && State() == Execute(before, p.writes, schedule)
      && (alive ==> && finished == p.finishes && rest == schedule[|p.writes|..]
                    && Files(State()) == Files(ApplyAll(before, p.writes)))
    }

    /** The baseline phase of host.deploy; `ready` is false when it stops on a check. */
    method EstablishBaseline(c: Candidate, schedule: seq<seq<Act>>)
      returns (alive: bool, ready: bool, rest: seq<seq<Act>>)
      modifies this, cli
      ensures Follows(old(State()), old(BaselinePlan(State(), c)), schedule, alive, ready, rest)
    {
      ghost var before := State();
      rest := schedule;
      if baseline.None? {
        ghost var p := InitialisePlan(before, c);
        ExecuteConcat(before, [ToBaseline(Baseline(c.id, false))], p.writes, schedule);
        alive, rest := CommitAll([ToBaseline(Baseline(c.id, false))], schedule);
        if !alive {
          return false, false, rest;
        }
        SingleWrite(before, [ToBaseline(Baseline(c.id, false))]);
        assert InitialisePlan(State(), c) == p;
        alive, ready, rest := Initialise(c, rest);
        if alive {
          ExecuteFiles(before, before, BaselinePlan(before, c).writes, schedule);
        }
      } else if baseline.value.complete {
        return true, true, schedule;
      } else if baseline.value.candidate != c.id {
        return true, false, schedule;
      } else {
        alive, ready, rest := Initialise(c, schedule);
      }
    }

    /** Publish, register, archive and roll out a prepared runtime. */
    method PublishRuntime(c: Candidate, entry: Entry, schedule: seq<seq<Act>>)
      returns (alive: bool, finished: bool, rest: seq<seq<Act>>)
      requires registry.Some?
      modifies this, cli
      ensures Follows(old(State()), old(PublishPlan(State(), c.id, entry)), schedule, alive, finished, rest)
    {
      ghost var before := State();
      ghost var p := PublishPlan(before, c.id, entry);
      var enrolled := Enroll(registry.value, entry);
      if enrolled.None? {
        return true, false, schedule;
      }
      var entries := enrolled.value;
      ghost var tail := AfterRoutes(before, c.id, entries);
      PublishPlanTail(before, c.id, entry, entries);
      ExecuteConcat(before, [ToRoutes(entries)], tail, schedule);
      alive, rest := CommitAll([ToRoutes(entries)], schedule);
      SingleWrite(before, [ToRoutes(entries)]);
      if !alive {
        return alive, false, rest;
      }
      var archived := FleetOf(entries, prepared);
      if archived.None? {
        return true, false, rest;
      }
      alive, rest := RetainAndRollOut(c, entry, entries, archived.value, rest);
      finished := true;
      if alive {
        ExecuteFiles(before, before, p.writes, schedule);
      }
    }

    method RetainAndRollOut(c: Candidate, entry: Entry, entries: seq<Entry>, archived: Fleet, schedule: seq<seq<Act>>)
      returns (alive: bool, rest: seq<seq<Act>>)
      requires registry.Some? && Enroll(registry.value, entry) == Some(entries)
      modifies this, cli
      ensures var ws := RetainWrites(entries, archived) + RolloutWrites(entries, c.id);
              && alive == (|ws| <= |schedule|) && State() == Execute(old(State()), ws, schedule)
              && (alive ==> rest == schedule[|ws|..])
    {
      ghost var before := State();
      var first := RetainWrites(entries, archived);
      ExecuteConcat(before, first, RolloutWrites(entries, c.id), schedule);
      EnrollAgain(registry.value, entry);
      alive, rest := CommitAll(first, schedule);
      if !alive {
        return;
      }
      // The rollout reads the registry back and enrolls the same bundle again.
      RetainedRegistry(before, entries, archived);
      var again := Enroll(registry.value, entry);
      alive, rest := CommitAll(RolloutWrites(again.value, c.id), rest);
    }

    /** prepare.py allocates a bundle once and otherwise reuses the retained one. */
    method PrepareAndPublish(c: Candidate, schedule: seq<seq<Act>>)
      returns (alive: bool, finished: bool, rest: seq<seq<Act>>)
      requires Formed(c)
      modifies this, cli
      ensures Follows(old(State()), old(RuntimePlan(State(), c)), schedule, alive, finished, rest)
    {
      ghost var before := State();
      ghost var p := RuntimePlan(before, c);
      if registry.None? {
        return true, false, schedule;
      }
      if c.id in prepared {
        alive, finished, rest := PublishRuntime(c, prepared[c.id], schedule);
      } else {
        alive, rest := CommitAll([ToBundle(c.runtime)], schedule);
        SingleWrite(before, [ToBundle(c.runtime)]);
        ExecuteConcat(before, [ToBundle(c.runtime)], p.writes[1..], schedule);
        assert p.writes == [ToBundle(c.runtime)] + p.writes[1..];
        if !alive {
          return alive, false, rest;
        }
        alive, finished, rest := PublishRuntime(c, c.runtime, rest);
        if alive {
          ExecuteFiles(before, before, p.writes, schedule);
        }
      }
    }

    /** The cohort run that ends a rollout, with others at work in between. */
    method PlaceCustomers(destination: string, fates: seq<Fate>) returns (o: Outcome)
      modifies cli
      ensures var r := Run(old(State()).journal, destination, PossibleFates(old(State()), fates));
              State() == old(State()).(journal := r.0) && o == r.1
    {
      o := MoveCustomers(cli, destination, PossibleFates(State(), fates));
    }

    /** host.deploy: one attempt, possibly dying before any write; None if it does not come to move customers. */
    method Deploy(c: Candidate, schedule: seq<seq<Act>>, fates: seq<Fate>) returns (o: Option<Outcome>)
      requires Formed(c)
      modifies this, cli
      ensures State() == Attempted(old(State()), Attempt(c, schedule, fates))
      ensures o == OutcomeOf(old(State()), Attempt(c, schedule, fates))
    {
      o := None;
      ghost var before := State();
      ghost var first := BaselinePlan(before, c);
      ghost var second := RuntimePlan(ApplyAll(before, first.writes), c);
      ExecuteConcat(before, first.writes, second.writes, schedule);
      var alive, ready, rest := EstablishBaseline(c, schedule);
      if !alive || !ready {
        return;
      }
      RuntimePlanReadsFiles(State(), ApplyAll(before, first.writes), c);
      alive, ready, rest := PrepareAndPublish(c, rest);
      if alive && ready {
        alive := Live(rest, 0);
        if alive {
          var moved := PlaceCustomers(c.id, fates);
          o := Some(moved);
        }
      }
    }
  }

  /** What is written after the routes, if every bundle can be read. */
  ghost function AfterRoutes(d: Durable, id: string, entries: seq<Entry>): seq<Write> {
    match FleetOf(entries, d.prepared)
    case None => []
    case Some(archived) => RetainWrites(entries, archived) + RolloutWrites(entries, id)
  }

  lemma PublishPlanTail(d: Durable, id: string, entry: Entry, entries: seq<Entry>)
    requires d.registry.Some? && Enroll(d.registry.value, entry) == Some(entries)
    ensures PublishPlan(d, id, entry) ==
            Plan([ToRoutes(entries)] + AfterRoutes(d, id, entries), FleetOf(entries, d.prepared).Some?)
  {
    assert [ToRoutes(entries)] + [] == [ToRoutes(entries)];
  }

  lemma RetainedRegistry(d: Durable, entries: seq<Entry>, archived: Fleet)
    ensures ApplyAll(d, RetainWrites(entries, archived)).registry == Some(entries)
  {
    var d1 := Apply(d, ToRegistry(entries));
    var d2 := Apply(d1, ToFleet(archived));
    assert RetainWrites(entries, archived)[1..] == [ToFleet(archived), ToArchive];
    assert ApplyAll(d1, [ToFleet(archived), ToArchive]) == ApplyAll(d2, [ToArchive]);
    SingleWrite(d2, [ToArchive]);
  }

  lemma SingleWrite(d: Durable, ws: seq<Write>)
    requires |ws| == 1
    ensures ApplyAll(d, ws) == Apply(d, ws[0])
  {
    assert ApplyAll(Apply(d, ws[0]), ws[1..]) == Apply(d, ws[0]);
  }

  lemma FindMember(entries: seq<Entry>, e: Entry)
    requires e in entries && forall i, k :: 0 <= i < k < |entries| ==> entries[i].id != entries[k].id
    ensures Find(entries, e.id) == Some(e)
  {
    if entries[0].id != e.id {
      FindMember(entries[1..], e);
    }
  }

  /** Enrolling a bundle that is already registered changes nothing. */
  lemma EnrollAgain(entries: seq<Entry>, e: Entry)
    requires Enroll(entries, e).Some?
    ensures Enroll(Enroll(entries, e).value, e) == Enroll(entries, e)
  {
    var result := Enroll(entries, e).value;
    if Find(entries, e.id).None? {
      assert result[|entries|] == e;
    }
    FindMember(result, e);
  }
}
