/** What holds at every crash point of every sequence of deployments. */
module DeploymentLaws {
  import opened Common
  import opened Movement
  import opened MovementLaws
  import opened Deployment

  function Registered(d: Durable): seq<Entry> {
    if d.registry.Some? then d.registry.value else []
  }

  /** The archived fleet carries this runtime's registry entry and its bundle. */
  predicate Archived(d: Durable, e: Entry) {
    && d.archive.Retained? && d.archive.fleet.Some?
    && e in d.archive.fleet.value.registry
    && e.id in d.archive.fleet.value.bundles && d.archive.fleet.value.bundles[e.id] == e
  }

  /** The runtime is registered, routed once routes are published, and recoverable from the archive. */
  predicate Served(d: Durable, id: string) {
    exists k :: 0 <= k < |Registered(d)| && Registered(d)[k].id == id
                && (d.routes.Some? ==> Registered(d)[k].route in d.routes.value)
                && (id != "primary" ==> Archived(d, Registered(d)[k]))
  }

  predicate Bundled(entries: seq<Entry>, prepared: map<string, Entry>) {
    forall k :: 0 <= k < |entries| && entries[k].id != "primary" ==>
      entries[k].id in prepared && prepared[entries[k].id] == entries[k]
  }

  predicate Routed(entries: seq<Entry>, routes: seq<Route>) {
    forall k :: 0 <= k < |entries| ==> entries[k].route in routes
  }

  predicate Subset(entries: seq<Entry>, others: seq<Entry>) {
    forall k :: 0 <= k < |entries| ==> entries[k] in others
  }

  predicate Recoverable(entries: seq<Entry>, d: Durable) {
    forall k :: 0 <= k < |entries| && entries[k].id != "primary" ==> Archived(d, entries[k])
  }

  ghost predicate FilesSafe(d: Durable) {
    && (if d.registry.Some? then ValidRegistry(d.registry.value) else d.routes.None?)
    && Bundled(Registered(d), d.prepared)
    && (forall id :: id in d.prepared ==> d.prepared[id].id == id)
    && (d.routes.Some? ==> Routed(Registered(d), d.routes.value))
    && Subset(d.operator, Registered(d))
    && Recoverable(d.operator, d)
    && (d.default.Some? ==> d.default.value in Ids(d.operator))
    && (d.fleet.Some? ==> Subset(d.fleet.value.registry, Registered(d)))
    && (d.archive.Retained? && d.archive.fleet.Some? ==> Subset(d.archive.fleet.value.registry, Registered(d)))
  }

  /** The inductive invariant: placements stay among the runtimes operators can reach,
      and those are registered and archived. */
  ghost predicate Safe(d: Durable) {
    FilesSafe(d) && Within(d.journal, Ids(d.operator))
  }

  // ----- When a write is safe ---------------------------------------------------------

  ghost predicate Enabled(d: Durable, w: Write) {
    match w
    case ToBaseline(_) => true
    case ToRegistry(entries) =>
      && ValidRegistry(entries) && Registered(d) <= entries && Bundled(entries, d.prepared)
      && (d.routes.Some? ==> Routed(entries, d.routes.value))
    case ToOperator(entries) =>
      Subset(entries, Registered(d)) && Recoverable(entries, d) && Ids(d.operator) <= Ids(entries)
    case ToRoutes(entries) => d.registry.Some? && Subset(Registered(d), entries)
    case ToBundle(e) => e.id !in d.prepared
    case ToFleet(f) => Subset(f.registry, Registered(d))
    case ToArchive => Recoverable(d.operator, d.(archive := Retained(d.fleet)))
    case ToDefault(id) => id in Ids(d.operator)
  }

  lemma IdOf(entries: seq<Entry>, k: nat)
    requires k < |entries|
    ensures entries[k].id in Ids(entries)
  {
  }

  lemma RoutesRouteAll(entries: seq<Entry>, others: seq<Entry>)
    requires Subset(entries, others)
    ensures Routed(entries, Routes(others))
  {
    forall k | 0 <= k < |entries| ensures entries[k].route in Routes(others) {
      var m :| 0 <= m < |others| && others[m] == entries[k];
      assert Routes(others)[m] == entries[k].route;
    }
  }

  lemma EnabledWriteIsSafe(d: Durable, w: Write)
    requires Safe(d) && Enabled(d, w)
    ensures Safe(Apply(d, w)) && Registered(d) <= Registered(Apply(d, w))
  {
    if w.ToRoutes? {
      RoutesRouteAll(Registered(d), w.entries);
    }
  }

  ghost predicate EnabledAll(d: Durable, ws: seq<Write>)
    decreases |ws|
  {
    ws == [] || (Enabled(d, ws[0]) && EnabledAll(Apply(d, ws[0]), ws[1..]))
  }

  lemma {:induction false} EnabledConcat(d: Durable, ws: seq<Write>, more: seq<Write>)
    requires EnabledAll(d, ws) && EnabledAll(ApplyAll(d, ws), more)
    ensures EnabledAll(d, ws + more)
    decreases |ws|
  {
    if ws == [] {
      assert ws + more == more;
    } else {
      assert (ws + more)[1..] == ws[1..] + more;
      EnabledConcat(Apply(d, ws[0]), ws[1..], more);
    }
  }

  lemma {:induction false} EnabledEndsSafe(d: Durable, ws: seq<Write>)
    requires Safe(d) && EnabledAll(d, ws)
    ensures Safe(ApplyAll(d, ws))
    decreases |ws|
  {
    if ws != [] {
      EnabledWriteIsSafe(d, ws[0]);
      EnabledEndsSafe(Apply(d, ws[0]), ws[1..]);
    }
  }

  // ----- The order of the writes is safe ------------------------------------------------

  lemma SingleEntry(e: Entry)
    ensures Ids([e]) == {e.id}
  {
    IdsAppend([], e);
    assert [] + [e] == [e];
  }

  lemma InitialiseIsEnabled(d: Durable, c: Candidate)
    requires Safe(d) && Formed(c)
    ensures EnabledAll(d, InitialisePlan(d, c).writes)
  {
    var p := InitialisePlan(d, c);
    if p.finishes {
      var one := [c.primary];
      SingleEntry(c.primary);
      var d1 := d.(registry := Some(one));
      if d.registry.None? {
        assert Enabled(d, ToRegistry(one));
      } else {
        assert d1 == d;
      }
      forall id | id in Ids(d.operator) ensures id in Ids(one) {
        var k :| 0 <= k < |d.operator| && d.operator[k].id == id;
        assert d.operator[k] in Registered(d);
      }
      var d2, d3, d4 := Apply(d1, ToOperator(one)), Apply(Apply(d1, ToOperator(one)), ToDefault("primary")),
        Apply(Apply(Apply(d1, ToOperator(one)), ToDefault("primary")), ToArchive);
      var last := ToBaseline(Baseline(c.id, true));
      assert EnabledAll(Apply(d4, last), []);
      assert EnabledAll(d4, [last]) by { assert [last][1..] == []; }
      assert EnabledAll(d3, [ToArchive, last]) by { assert [ToArchive, last][1..] == [last]; }
      assert EnabledAll(d2, [ToDefault("primary"), ToArchive, last]) by {
        assert [ToDefault("primary"), ToArchive, last][1..] == [ToArchive, last];
      }
      var tail := [ToOperator(one), ToDefault("primary"), ToArchive, last];
      assert EnabledAll(d1, tail) by { assert tail[1..] == [ToDefault("primary"), ToArchive, last]; }
      if d.registry.None? {
        assert p.writes[1..] == tail;
      } else {
        assert p.writes == tail;
      }
    }
  }

  lemma BaselineIsEnabled(d: Durable, c: Candidate)
    requires Safe(d) && Formed(c)
    ensures EnabledAll(d, BaselinePlan(d, c).writes)
    ensures d.baseline.Some? && d.baseline.value.complete ==> BaselinePlan(d, c).writes == []
  {
    InitialiseIsEnabled(d, c);
    if d.baseline.None? {
      var d' := Apply(d, ToBaseline(Baseline(c.id, false)));
      InitialiseIsEnabled(d', c);
      assert BaselinePlan(d, c).writes[1..] == InitialisePlan(d, c).writes;
      assert InitialisePlan(d', c) == InitialisePlan(d, c);
    }
  }

  lemma EnrolledFacts(d: Durable, e: Entry)
    requires FilesSafe(d) && d.registry.Some? && e.id in d.prepared && d.prepared[e.id] == e
    requires Enroll(d.registry.value, e).Some?
    ensures var entries := Enroll(d.registry.value, e).value;
            && ValidRegistry(entries) && Registered(d) <= entries && e in entries
            && Bundled(entries, d.prepared) && Ids(Registered(d)) <= Ids(entries)
  {
    var entries := Enroll(d.registry.value, e).value;
    if Find(d.registry.value, e.id).None? {
      assert entries[|Registered(d)|] == e;
      IdsAppend(Registered(d), e);
    }
  }

  lemma ArchivingCovers(d: Durable, entries: seq<Entry>, f: Fleet, others: seq<Entry>)
    requires FleetOf(entries, d.prepared) == Some(f) && Bundled(entries, d.prepared) && Subset(others, entries)
    ensures Recoverable(others, d.(archive := Retained(Some(f))))
  {
    var d' := d.(archive := Retained(Some(f)));
    forall k | 0 <= k < |others| && others[k].id != "primary" ensures Archived(d', others[k]) {
      var m :| 0 <= m < |entries| && entries[m] == others[k];
      IdOf(entries, m);
    }
  }

  lemma RetainIsEnabled(d: Durable, entries: seq<Entry>, f: Fleet)
    requires Safe(d) && ValidRegistry(entries) && Registered(d) <= entries && Bundled(entries, d.prepared)
    requires d.routes == Some(Routes(entries)) && FleetOf(entries, d.prepared) == Some(f)
    ensures EnabledAll(d, RetainWrites(entries, f))
    ensures ApplyAll(d, RetainWrites(entries, f)) ==
            d.(registry := Some(entries), fleet := Some(f), archive := Retained(Some(f)))
  {
    RoutesRouteAll(entries, entries);
    var d1 := Apply(d, ToRegistry(entries));
    var d2 := Apply(d1, ToFleet(f));
    ArchivingCovers(d2, entries, f, d.operator);
    assert Enabled(d2, ToArchive);
    SingleWrite(d2, [ToArchive]);
    assert EnabledAll(d2, [ToArchive]) by { assert [ToArchive][1..] == []; }
    assert [ToFleet(f), ToArchive][1..] == [ToArchive];
    assert EnabledAll(d1, [ToFleet(f), ToArchive]);
    assert RetainWrites(entries, f)[1..] == [ToFleet(f), ToArchive];
    assert Enabled(d, ToRegistry(entries));
  }

  lemma IdsSubset(entries: seq<Entry>, others: seq<Entry>)
    requires Subset(entries, others)
    ensures Ids(entries) <= Ids(others)
  {
    forall id | id in Ids(entries) ensures id in Ids(others) {
      var k :| 0 <= k < |entries| && entries[k].id == id;
      var m :| 0 <= m < |others| && others[m] == entries[k];
      IdOf(others, m);
    }
  }

  lemma RolloutIsEnabled(d: Durable, entries: seq<Entry>, id: string)
    requires Safe(d) && d.registry == Some(entries) && Recoverable(entries, d) && id in Ids(entries)
    ensures EnabledAll(d, RolloutWrites(entries, id))
  {
    IdsSubset(d.operator, entries);
    var d1 := Apply(d, ToOperator(entries));
    var d2 := Apply(d1, ToRegistry(entries));
    var d3 := Apply(d2, ToRoutes(entries));
    assert Enabled(d, ToOperator(entries));
    EnabledWriteIsSafe(d, ToOperator(entries));
    assert Enabled(d1, ToRegistry(entries)) && Enabled(d2, ToRoutes(entries)) && Enabled(d3, ToDefault(id));
    assert EnabledAll(d3, [ToDefault(id)]) by { assert [ToDefault(id)][1..] == []; }
    assert [ToRoutes(entries), ToDefault(id)][1..] == [ToDefault(id)];
    assert EnabledAll(d2, [ToRoutes(entries), ToDefault(id)]);
    assert [ToRegistry(entries), ToRoutes(entries), ToDefault(id)][1..] == [ToRoutes(entries), ToDefault(id)];
    assert EnabledAll(d1, [ToRegistry(entries), ToRoutes(entries), ToDefault(id)]);
    assert RolloutWrites(entries, id)[1..] == [ToRegistry(entries), ToRoutes(entries), ToDefault(id)];
  }

  /** From published routes on: retain the directory, archive it, roll out. */
  lemma RetainAndRollOutIsEnabled(d: Durable, entries: seq<Entry>, f: Fleet, e: Entry)
    requires Safe(d) && ValidRegistry(entries) && Registered(d) <= entries && Bundled(entries, d.prepared)
             && e in entries
    requires d.routes == Some(Routes(entries)) && FleetOf(entries, d.prepared) == Some(f)
    ensures EnabledAll(d, RetainWrites(entries, f) + RolloutWrites(entries, e.id))
    ensures e.id in Ids(ApplyAll(d, RetainWrites(entries, f) + RolloutWrites(entries, e.id)).operator)
  {
    RetainIsEnabled(d, entries, f);
    var d2 := ApplyAll(d, RetainWrites(entries, f));
    EnabledEndsSafe(d, RetainWrites(entries, f));
    ArchivingCovers(d2, entries, f, entries);
    var k :| 0 <= k < |entries| && entries[k] == e;
    IdOf(entries, k);
    RolloutIsEnabled(d2, entries, e.id);
    EnabledConcat(d, RetainWrites(entries, f), RolloutWrites(entries, e.id));
    ApplyAllConcat(d, RetainWrites(entries, f), RolloutWrites(entries, e.id));
    RolloutEnds(d2, entries, e.id);
  }

  lemma EnabledCons(d: Durable, w: Write, ws: seq<Write>)
    requires Enabled(d, w) && EnabledAll(Apply(d, w), ws)
    ensures EnabledAll(d, [w] + ws) && ApplyAll(d, [w] + ws) == ApplyAll(Apply(d, w), ws)
  {
    assert ([w] + ws)[1..] == ws;
  }

  lemma RoutesAreEnabled(d: Durable, e: Entry)
    requires Safe(d) && d.registry.Some? && e.id in d.prepared && d.prepared[e.id] == e
    requires Enroll(d.registry.value, e).Some?
    ensures var w := ToRoutes(Enroll(d.registry.value, e).value); Enabled(d, w) && Safe(Apply(d, w))
  {
    EnrolledFacts(d, e);
    EnabledWriteIsSafe(d, ToRoutes(Enroll(d.registry.value, e).value));
  }

  lemma PublishIsEnabled(d: Durable, e: Entry)
    requires Safe(d) && d.registry.Some? && e.id in d.prepared && d.prepared[e.id] == e
    ensures EnabledAll(d, PublishPlan(d, e.id, e).writes)
    ensures PublishPlan(d, e.id, e).finishes ==> e.id in Ids(ApplyAll(d, PublishPlan(d, e.id, e).writes).operator)
  {
    var enrolled := Enroll(d.registry.value, e);
    if enrolled.Some? {
      var entries := enrolled.value;
      EnrolledFacts(d, e);
      RoutesAreEnabled(d, e);
      FullPublishIsEnabled(d, e, entries, FleetOf(entries, d.prepared).value);
    }
  }

  lemma FullPublishIsEnabled(d: Durable, e: Entry, entries: seq<Entry>, f: Fleet)
    requires Safe(d) && d.registry.Some? && e.id in d.prepared && d.prepared[e.id] == e
    requires Enroll(d.registry.value, e) == Some(entries) && FleetOf(entries, d.prepared) == Some(f)
    ensures EnabledAll(d, PublishPlan(d, e.id, e).writes)
    ensures e.id in Ids(ApplyAll(d, PublishPlan(d, e.id, e).writes).operator)
  {
    EnrolledFacts(d, e);
    RoutesAreEnabled(d, e);
    var w, tail := ToRoutes(entries), RetainWrites(entries, f) + RolloutWrites(entries, e.id);
    RetainAndRollOutIsEnabled(Apply(d, w), entries, f, e);
    EnabledCons(d, w, tail);
    PublishPlanTail(d, e.id, e, entries);
  }

  lemma {:induction false} ApplyAllConcat(d: Durable, ws: seq<Write>, more: seq<Write>)
    ensures ApplyAll(d, ws + more) == ApplyAll(ApplyAll(d, ws), more)
    decreases |ws|
  {
    if ws == [] {
      assert ws + more == more;
    } else {
      assert (ws + more)[1..] == ws[1..] + more;
      ApplyAllConcat(Apply(d, ws[0]), ws[1..], more);
    }
  }

  lemma RolloutEnds(d: Durable, entries: seq<Entry>, id: string)
    ensures ApplyAll(d, RolloutWrites(entries, id)) ==
            d.(operator := entries, registry := Some(entries), routes := Some(Routes(entries)), default := Some(id))
  {
    var d1 := Apply(d, ToOperator(entries));
    var d2 := Apply(d1, ToRegistry(entries));
    var d3 := Apply(d2, ToRoutes(entries));
    assert RolloutWrites(entries, id)[1..] == [ToRegistry(entries), ToRoutes(entries), ToDefault(id)];
    assert [ToRegistry(entries), ToRoutes(entries), ToDefault(id)][1..] == [ToRoutes(entries), ToDefault(id)];
    assert [ToRoutes(entries), ToDefault(id)][1..] == [ToDefault(id)];
    assert ApplyAll(d1, [ToRegistry(entries), ToRoutes(entries), ToDefault(id)]) ==
           ApplyAll(d2, [ToRoutes(entries), ToDefault(id)]);
    assert ApplyAll(d2, [ToRoutes(entries), ToDefault(id)]) == ApplyAll(d3, [ToDefault(id)]);
    SingleWrite(d3, [ToDefault(id)]);
  }

  lemma RuntimeIsEnabled(d: Durable, c: Candidate)
    requires Safe(d) && Formed(c)
    ensures EnabledAll(d, RuntimePlan(d, c).writes)
    ensures RuntimePlan(d, c).finishes ==> c.id in Ids(ApplyAll(d, RuntimePlan(d, c).writes).operator)
  {
    if d.registry.Some? {
      if c.id in d.prepared {
        PublishIsEnabled(d, d.prepared[c.id]);
      } else {
        var d1 := Apply(d, ToBundle(c.runtime));
        EnabledWriteIsSafe(d, ToBundle(c.runtime));
        PublishIsEnabled(d1, c.runtime);
        var p := PublishPlan(d1, c.id, c.runtime);
        assert ([ToBundle(c.runtime)] + p.writes)[1..] == p.writes;
      }
    }
  }

  lemma PlanIsEnabled(d: Durable, c: Candidate)
    requires Safe(d) && Formed(c)
    ensures EnabledAll(d, PlanOf(d, c).writes)
    ensures PlanOf(d, c).finishes ==> c.id in Ids(ApplyAll(d, PlanOf(d, c).writes).operator)
  {
    BaselineIsEnabled(d, c);
    var first := BaselinePlan(d, c);
    if first.finishes {
      EnabledEndsSafe(d, first.writes);
      var d1 := ApplyAll(d, first.writes);
      RuntimeIsEnabled(d1, c);
      EnabledConcat(d, first.writes, RuntimePlan(d1, c).writes);
      ApplyAllConcat(d, first.writes, RuntimePlan(d1, c).writes);
    }
  }

  // ----- Every crash point ----------------------------------------------------------------

  lemma {:induction false} InterludeIsSafe(d: Durable, acts: seq<Act>)
    requires Safe(d)
    ensures Safe(Interlude(d, acts))
    decreases |acts|
  {
    if acts != [] {
      if Permitted(d, acts[0]) {
        PerformStaysWithin(d.journal, acts[0], Ids(d.operator));
      }
      InterludeIsSafe(if Permitted(d, acts[0]) then d.(journal := Perform(d.journal, acts[0])) else d, acts[1..]);
    }
  }

  lemma EnabledDependsOnFiles(d: Durable, d': Durable, w: Write)
    requires Files(d) == Files(d')
    ensures Enabled(d, w) <==> Enabled(d', w)
  {
    if w.ToArchive? {
      assert forall k :: 0 <= k < |d.operator| ==>
        (Archived(d.(archive := Retained(d.fleet)), d.operator[k]) <==>
         Archived(d'.(archive := Retained(d'.fleet)), d'.operator[k]));
    } else if w.ToOperator? {
      assert forall k :: 0 <= k < |w.entries| ==> (Archived(d, w.entries[k]) <==> Archived(d', w.entries[k]));
    }
  }

  lemma {:induction false} EnabledAllDependsOnFiles(d: Durable, d': Durable, ws: seq<Write>)
    requires Files(d) == Files(d') && EnabledAll(d, ws)
    ensures EnabledAll(d', ws)
    decreases |ws|
  {
    if ws != [] {
      EnabledDependsOnFiles(d, d', ws[0]);
      EnabledAllDependsOnFiles(Apply(d, ws[0]), Apply(d', ws[0]), ws[1..]);
    }
  }

  /** However short the schedule, the durable state is safe and the registry has only been appended to. */
  lemma {:induction false} ExecutionIsSafe(d: Durable, ws: seq<Write>, schedule: seq<seq<Act>>)
    requires Safe(d) && EnabledAll(d, ws)
    ensures Safe(Execute(d, ws, schedule)) && Registered(d) <= Registered(Execute(d, ws, schedule))
    decreases |ws|
  {
    if ws != [] && schedule != [] {
      var d1 := Interlude(d, schedule[0]);
      InterludeIsSafe(d, schedule[0]);
      InterludeKeepsFiles(d, schedule[0]);
      EnabledDependsOnFiles(d, d1, ws[0]);
      EnabledWriteIsSafe(d1, ws[0]);
      EnabledAllDependsOnFiles(Apply(d, ws[0]), Apply(d1, ws[0]), ws[1..]);
      ExecutionIsSafe(Apply(d1, ws[0]), ws[1..], schedule[1..]);
      assert Registered(d) == Registered(d1);
    }
  }

  predicate AllFormed(attempts: seq<Attempt>) {
    forall k :: 0 <= k < |attempts| ==> Formed(attempts[k].candidate)
  }

  lemma {:induction false} AllowedTargets(d: Durable, acts: seq<Act>)
    requires FilesSafe(d)
    ensures forall a :: a in Allowed(d, acts) ==> Targets(a, Ids(d.operator))
  {
    if acts != [] {
      AllowedTargets(d, acts[1..]);
    }
  }

  lemma PossibleIsWithin(d: Durable, o: Others)
    requires FilesSafe(d)
    ensures ForeignWithin(Possible(d, o), Ids(d.operator))
  {
    AllowedTargets(d, o.acts);
  }

  /** Whatever customers and operators do before every write and while the customers are moved. */
  lemma AttemptIsSafe(d: Durable, a: Attempt)
    requires Safe(d) && Formed(a.candidate)
    ensures Safe(Attempted(d, a)) && Registered(d) <= Registered(Attempted(d, a))
  {
    var p := PlanOf(d, a.candidate);
    PlanIsEnabled(d, a.candidate);
    ExecutionIsSafe(d, p.writes, a.schedule);
    var d' := Execute(d, p.writes, a.schedule);
    if p.finishes && |p.writes| < |a.schedule| {
      ExecuteFiles(d, d, p.writes, a.schedule);
      var last := Interlude(d', a.schedule[|p.writes|]);
      InterludeIsSafe(d', a.schedule[|p.writes|]);
      InterludeKeepsFiles(d', a.schedule[|p.writes|]);
      assert last.operator == Files(d').operator == ApplyAll(d, p.writes).operator;
      var fates := PossibleFates(last, a.fates);
      forall k | 0 <= k < |fates| ensures ForeignWithin(fates[k].foreign, Ids(last.operator)) {
        PossibleIsWithin(last, a.fates[k].foreign);
      }
      CohortStaysWithin(last.journal, last.journal.customers, 0, a.candidate.id, fates, 0, Ids(last.operator));
      assert Registered(Attempted(d, a)) == Registered(Files(last));
    }
  }

  lemma {:induction false} HistoryIsSafe(d: Durable, attempts: seq<Attempt>)
    requires Safe(d) && AllFormed(attempts)
    ensures Safe(History(d, attempts)) && Registered(d) <= Registered(History(d, attempts))
    decreases |attempts|
  {
    if attempts != [] {
      AttemptIsSafe(d, attempts[0]);
      HistoryIsSafe(Attempted(d, attempts[0]), attempts[1..]);
    }
  }

  lemma ReachableRuntimeIsServed(d: Durable, id: string)
    requires FilesSafe(d) && id in Ids(d.operator)
    ensures Served(d, id)
  {
    var k :| 0 <= k < |d.operator| && d.operator[k].id == id;
    var m :| 0 <= m < |Registered(d)| && Registered(d)[m] == d.operator[k];
  }

  /** Main result.  A schedule may end before any write, so this speaks of every crash
      point of every sequence of attempts: every customer and the default runtime are
      registered, routed and archived, and every registry entry is in the route file. */
  lemma EveryCrashPointServesEveryCustomer(attempts: seq<Attempt>)
    requires AllFormed(attempts)
    ensures var d := History(INITIAL, attempts);
            && (forall i :: 0 <= i < |d.journal.customers| ==> Served(d, d.journal.customers[i].runtime))
            && (d.default.Some? ==> Served(d, d.default.value))
            && (d.routes.Some? ==> forall k :: 0 <= k < |Registered(d)| ==> Registered(d)[k].route in d.routes.value)
  {
    HistoryIsSafe(INITIAL, attempts);
    var d := History(INITIAL, attempts);
    forall i | 0 <= i < |d.journal.customers| ensures Served(d, d.journal.customers[i].runtime) {
      ReachableRuntimeIsServed(d, d.journal.customers[i].runtime);
    }
    if d.default.Some? {
      ReachableRuntimeIsServed(d, d.default.value);
    }
  }

  lemma {:induction false} HistoryConcat(d: Durable, before: seq<Attempt>, after: seq<Attempt>)
    ensures History(d, before + after) == History(History(d, before), after)
    decreases |before|
  {
    if before == [] {
      assert before + after == after;
    } else {
      assert (before + after)[1..] == before[1..] + after;
      HistoryConcat(Attempted(d, before[0]), before[1..], after);
    }
  }

  /** Later attempts only ever append to the registry; entries are never rewritten or dropped. */
  lemma RegistryOnlyGrows(before: seq<Attempt>, after: seq<Attempt>)
    requires AllFormed(before + after)
    ensures Registered(History(INITIAL, before)) <= Registered(History(INITIAL, before + after))
  {
    assert AllFormed(before) by { assert forall k :: 0 <= k < |before| ==> before[k] == (before + after)[k]; }
    assert AllFormed(after) by { assert forall k :: 0 <= k < |after| ==> after[k] == (before + after)[|before| + k]; }
    HistoryIsSafe(INITIAL, before);
    HistoryIsSafe(History(INITIAL, before), after);
    HistoryConcat(INITIAL, before, after);
  }

  // ----- A rollout on its own ---------------------------------------------------------------

  lemma EntryOfId(entries: seq<Entry>, i: nat, k: nat)
    requires ValidRegistry(entries) && i < |entries| && k < |entries| && entries[i].id == entries[k].id
    ensures i == k
  {
  }

  /** After the writes of a rollout, its runtime is served exactly when the archive already carries it. */
  lemma RolloutServes(d: Durable, entries: seq<Entry>, e: Entry)
    requires ValidRegistry(entries) && e in entries && e.id != "primary"
    ensures var d' := ApplyAll(d, RolloutWrites(entries, e.id));
            d'.default == Some(e.id) && (Served(d', e.id) <==> Archived(d, e))
  {
    RolloutEnds(d, entries, e.id);
    var d' := ApplyAll(d, RolloutWrites(entries, e.id));
    RoutesRouteAll(entries, entries);
    var k :| 0 <= k < |entries| && entries[k] == e;
    if Served(d', e.id) {
      var m :| 0 <= m < |entries| && Registered(d')[m].id == e.id && Archived(d', Registered(d')[m]);
      EntryOfId(entries, m, k);
    } else {
      assert Registered(d')[k] == e;
    }
  }

  /** Writes that are no archive write leave the archive alone, and the registry only becomes what they say. */
  lemma {:induction false} ExecuteKeepsArchive(d: Durable, ws: seq<Write>, schedule: seq<seq<Act>>, entries: seq<Entry>)
    requires forall w :: w in ws ==> !w.ToArchive? && (w.ToRegistry? ==> w.entries == entries)
    ensures var d' := Execute(d, ws, schedule);
            d'.archive == d.archive && (d'.registry == d.registry || d'.registry == Some(entries))
    decreases |ws|
  {
    if ws != [] && schedule != [] {
      InterludeKeepsFiles(d, schedule[0]);
      assert Files(Interlude(d, schedule[0])).archive == Files(d).archive;
      assert Files(Interlude(d, schedule[0])).registry == Files(d).registry;
      ExecuteKeepsArchive(Apply(Interlude(d, schedule[0]), ws[0]), ws[1..], schedule[1..], entries);
    }
  }

  /** The writes of a new runtime up to the archive, and without it. */
  function Unarchived(c: Candidate, entries: seq<Entry>, f: Fleet): seq<Write> {
    [ToBundle(c.runtime), ToRoutes(entries), ToRegistry(entries), ToFleet(f)]
  }

  /** On a finished baseline, a candidate that was never prepared before. */
  predicate Fresh(d: Durable, c: Candidate) {
    && Formed(c) && d.baseline.Some? && d.baseline.value.complete
    && d.registry.Some? && c.id !in d.prepared && Enroll(d.registry.value, c.runtime).Some?
  }

  lemma FreshPlan(d: Durable, c: Candidate) returns (entries: seq<Entry>, f: Fleet)
    requires Safe(d) && Fresh(d, c)
    ensures Enroll(d.registry.value, c.runtime) == Some(entries) && ValidRegistry(entries) && c.runtime in entries
    ensures Bundled(entries, d.prepared[c.id := c.runtime])
            && FleetOf(entries, d.prepared[c.id := c.runtime]) == Some(f)
    ensures PlanOf(d, c) == Plan(Unarchived(c, entries, f) + ([ToArchive] + RolloutWrites(entries, c.id)), true)
  {
    var d1 := Apply(d, ToBundle(c.runtime));
    EnabledWriteIsSafe(d, ToBundle(c.runtime));
    EnrolledFacts(d1, c.runtime);
    entries := Enroll(d.registry.value, c.runtime).value;
    f := FleetOf(entries, d1.prepared).value;
    FreshWrites(d, c, entries, f);
  }

  lemma FreshWrites(d: Durable, c: Candidate, entries: seq<Entry>, f: Fleet)
    requires Fresh(d, c) && Enroll(d.registry.value, c.runtime) == Some(entries)
    requires FleetOf(entries, d.prepared[c.id := c.runtime]) == Some(f)
    ensures PlanOf(d, c) == Plan(Unarchived(c, entries, f) + ([ToArchive] + RolloutWrites(entries, c.id)), true)
  {
    var d1 := Apply(d, ToBundle(c.runtime));
    PublishPlanTail(d1, c.id, c.runtime, entries);
    FinishedBaseline(d, c);
    FreshSequence(c, entries, f);
  }

  lemma FinishedBaseline(d: Durable, c: Candidate)
    requires d.baseline.Some? && d.baseline.value.complete
    ensures PlanOf(d, c) == RuntimePlan(d, c)
  {
    assert ApplyAll(d, []) == d;
    assert [] + RuntimePlan(d, c).writes == RuntimePlan(d, c).writes;
  }

  lemma FreshSequence(c: Candidate, entries: seq<Entry>, f: Fleet)
    ensures [ToBundle(c.runtime)] + ([ToRoutes(entries)] + (RetainWrites(entries, f) + RolloutWrites(entries, c.id)))
            == Unarchived(c, entries, f) + ([ToArchive] + RolloutWrites(entries, c.id))
  {
  }

  lemma DyingBeforeTheArchive(d: Durable, c: Candidate, entries: seq<Entry>, f: Fleet, schedule: seq<seq<Act>>)
    requires |schedule| < 5
    ensures var ws := Unarchived(c, entries, f) + ([ToArchive] + RolloutWrites(entries, c.id));
            var d1 := Execute(d, ws, schedule);
            d1.archive == d.archive && (d1.registry == d.registry || d1.registry == Some(entries))
  {
    ExecuteConcat(d, Unarchived(c, entries, f), [ToArchive] + RolloutWrites(entries, c.id), schedule);
    ExecuteKeepsArchive(d, Unarchived(c, entries, f), schedule, entries);
  }

  lemma SurvivingTheArchive(d: Durable, c: Candidate, entries: seq<Entry>, f: Fleet, schedule: seq<seq<Act>>)
    requires |schedule| >= 5
    ensures var ws := Unarchived(c, entries, f) + ([ToArchive] + RolloutWrites(entries, c.id));
            var d1 := Execute(d, ws, schedule);
            d1.archive == Retained(Some(f)) && d1.registry == Some(entries)
  {
    var ws, rolls := Unarchived(c, entries, f), RolloutWrites(entries, c.id);
    assert ws + ([ToArchive] + rolls) == (ws + [ToArchive]) + rolls;
    ExecuteConcat(d, ws + [ToArchive], rolls, schedule);
    ArchiveIsWritten(d, c, entries, f, schedule);
    ExecuteKeepsArchive(Execute(d, ws + [ToArchive], schedule), rolls, schedule[5..], entries);
  }

  lemma ArchiveIsWritten(d: Durable, c: Candidate, entries: seq<Entry>, f: Fleet, schedule: seq<seq<Act>>)
    requires |schedule| >= 5
    ensures var d1 := Execute(d, Unarchived(c, entries, f) + [ToArchive], schedule);
            d1.archive == Retained(Some(f)) && d1.registry == Some(entries)
  {
    var ws := Unarchived(c, entries, f);
    var d1, end := Execute(d, ws + [ToArchive], schedule), ApplyAll(d, ws + [ToArchive]);
    ExecuteFiles(d, d, ws + [ToArchive], schedule);
    ApplyAllConcat(d, ws, [ToArchive]);
    UnarchivedEnds(d, c, entries, f);
    SingleWrite(ApplyAll(d, ws), [ToArchive]);
    assert Files(d1).archive == Files(end).archive && Files(d1).registry == Files(end).registry;
  }

  lemma UnarchivedEnds(d: Durable, c: Candidate, entries: seq<Entry>, f: Fleet)
    ensures var d' := ApplyAll(d, Unarchived(c, entries, f)); d'.fleet == Some(f) && d'.registry == Some(entries)
  {
    var d1 := Apply(d, ToBundle(c.runtime));
    var d2 := Apply(d1, ToRoutes(entries));
    var d3 := Apply(d2, ToRegistry(entries));
    assert Unarchived(c, entries, f)[1..] == [ToRoutes(entries), ToRegistry(entries), ToFleet(f)];
    assert [ToRoutes(entries), ToRegistry(entries), ToFleet(f)][1..] == [ToRegistry(entries), ToFleet(f)];
    assert [ToRegistry(entries), ToFleet(f)][1..] == [ToFleet(f)];
    assert ApplyAll(d1, [ToRoutes(entries), ToRegistry(entries), ToFleet(f)]) ==
           ApplyAll(d2, [ToRegistry(entries), ToFleet(f)]);
    assert ApplyAll(d2, [ToRegistry(entries), ToFleet(f)]) == ApplyAll(d3, [ToFleet(f)]);
    SingleWrite(d3, [ToFleet(f)]);
  }

  /** The run that ends an attempt leaves the files alone. */
  lemma AttemptedFiles(d: Durable, a: Attempt)
    ensures Files(Attempted(d, a)) == Files(Execute(d, PlanOf(d, a.candidate).writes, a.schedule))
  {
    var p := PlanOf(d, a.candidate);
    if p.finishes && |p.writes| < |a.schedule| {
      InterludeKeepsFiles(Execute(d, p.writes, a.schedule), a.schedule[|p.writes|]);
    }
  }

  /** The rollout on its own does not archive.  After a deployment of a new runtime that died anywhere, a
      rollout started by hand leaves the default runtime served if and only if the deployment had got past
      its archive write, the fifth; dying earlier, it leaves a default that no recovery could bring back. */
  lemma StandaloneRolloutNeedsTheArchive(d: Durable, a: Attempt)
    requires Safe(d) && Fresh(d, a.candidate) && |a.schedule| >= 1
    ensures var d1, e := Attempted(d, a), a.candidate.runtime;
            && d1.registry.Some? && Enroll(d1.registry.value, e).Some?
            && var d' := ApplyAll(d1, RolloutWrites(Enroll(d1.registry.value, e).value, e.id));
               d'.default == Some(e.id) && (Served(d', e.id) <==> 5 <= |a.schedule|)
  {
    var d1, e := Attempted(d, a), a.candidate.runtime;
    var entries, f := FreshPlan(d, a.candidate);
    EnrollAgain(d.registry.value, e);
    AttemptedFiles(d, a);
    assert Files(d1).archive == d1.archive && Files(d1).registry == d1.registry;
    if |a.schedule| < 5 {
      DyingBeforeTheArchive(d, a.candidate, entries, f, a.schedule);
      NotArchivedBefore(d, e);
    } else {
      SurvivingTheArchive(d, a.candidate, entries, f, a.schedule);
      ArchivingCovers(d.(prepared := d.prepared[e.id := e]), entries, f, entries);
    }
    RolloutServes(d1, entries, e);
  }

  lemma NotArchivedBefore(d: Durable, e: Entry)
    requires FilesSafe(d) && e.id !in d.prepared && e.id != "primary"
    ensures !Archived(d, e)
  {
  }

  /** Every runtime of the operator configuration is served. */
  predicate AllServed(d: Durable) {
    forall m :: 0 <= m < |d.operator| ==> Served(d, d.operator[m].id)
  }

  /** A rollout that died after `k` of its writes. */
  function RolledOut(d: Durable, entries: seq<Entry>, id: string, k: nat): Durable
    requires k <= 4
  {
    ApplyAll(d, RolloutWrites(entries, id)[..k])
  }

  lemma RolledOutFiles(d: Durable, entries: seq<Entry>, id: string, k: nat)
    requires k <= 4
    ensures var d' := RolledOut(d, entries, id, k);
            && d'.operator == (if k >= 1 then entries else d.operator)
            && d'.registry == (if k >= 2 then Some(entries) else d.registry)
            && d'.routes == (if k >= 3 then Some(Routes(entries)) else d.routes)
            && d'.archive == d.archive
  {
    if k >= 1 {
      var ws := RolloutWrites(entries, id)[..k];
      var d1 := Apply(d, ToOperator(entries));
      assert ws[0] == ToOperator(entries) && ApplyAll(d, ws) == ApplyAll(d1, ws[1..]);
      if k >= 2 {
        var d2 := Apply(d1, ToRegistry(entries));
        assert ws[1..][0] == ToRegistry(entries) && ApplyAll(d1, ws[1..]) == ApplyAll(d2, ws[1..][1..]);
        assert ws[1..][1..] == ws[2..];
        RolledOutTail(d2, entries, id, k);
      }
    }
  }

  lemma RolledOutTail(d: Durable, entries: seq<Entry>, id: string, k: nat)
    requires 2 <= k <= 4
    ensures var d' := ApplyAll(d, RolloutWrites(entries, id)[..k][2..]);
            && d'.operator == d.operator && d'.registry == d.registry && d'.archive == d.archive
            && d'.routes == (if k >= 3 then Some(Routes(entries)) else d.routes)
  {
    var ws := RolloutWrites(entries, id)[..k][2..];
    if k == 3 {
      assert ws == [ToRoutes(entries)];
      SingleWrite(d, ws);
    } else if k == 4 {
      assert ws == [ToRoutes(entries), ToDefault(id)] && ws[1..] == [ToDefault(id)];
      SingleWrite(Apply(d, ToRoutes(entries)), ws[1..]);
    }
  }

  /** What is served, entry by entry. */
  lemma ServedIs(d: Durable, entries: seq<Entry>, m: nat)
    requires ValidRegistry(entries) && m < |entries|
    requires Registered(d) == entries
    ensures Served(d, entries[m].id) <==>
            && (d.routes.Some? ==> entries[m].route in d.routes.value)
            && (entries[m].id != "primary" ==> Archived(d, entries[m]))
  {
    if Served(d, entries[m].id) {
      var k :| 0 <= k < |entries| && entries[k].id == entries[m].id
               && (d.routes.Some? ==> entries[k].route in d.routes.value)
               && (entries[k].id != "primary" ==> Archived(d, entries[k]));
      EntryOfId(entries, k, m);
    }
  }

  lemma EnrolledIs(entries: seq<Entry>, e: Entry)
    requires Enroll(entries, e).Some?
    ensures var result := Enroll(entries, e).value;
            && ValidRegistry(entries) && ValidRegistry(result) && e in result
            && (e in entries ==> result == entries)
            && (e !in entries ==> result == entries + [e] && e.id !in Ids(entries))
  {
    if e in entries {
      var k :| 0 <= k < |entries| && entries[k] == e;
      IdOf(entries, k);
    }
  }

  /** Wherever a rollout started by hand dies, every runtime the operators can then reach is served if and only
      if nothing was written yet, or the archive holds every runtime of the new registry and this one is
      registered and routed: it was before, or the registry write (and, with routes published, the routes
      write) has happened. */
  lemma RolloutCrashPoints(d: Durable, e: Entry, k: nat)
    requires FilesSafe(d) && d.registry.Some? && Enroll(d.registry.value, e).Some? && k <= 4
    ensures var entries := Enroll(d.registry.value, e).value;
            AllServed(RolledOut(d, entries, e.id, k)) <==>
              k == 0 || (&& Recoverable(entries, d) && (k == 1 ==> e in d.registry.value)
                         && (k == 2 ==> d.routes.None? || e.route in d.routes.value))
  {
    var entries := Enroll(d.registry.value, e).value;
    var d' := RolledOut(d, entries, e.id, k);
    EnrolledIs(d.registry.value, e);
    RolledOutFiles(d, entries, e.id, k);
    if k == 0 {
      BeforeRollout(d);
      assert RolloutWrites(entries, e.id)[..0] == [];
    } else if k == 1 && e !in d.registry.value {
      NotRegistered(d', entries, |entries| - 1);
    } else {
      assert Registered(d') == entries;
      RouteIsThere(d, entries, e, k);
      AllServedIs(d', entries);
      forall m | 0 <= m < |entries| ensures Archived(d', entries[m]) <==> Archived(d, entries[m]) {
      }
    }
  }

  lemma BeforeRollout(d: Durable)
    requires FilesSafe(d)
    ensures AllServed(d)
  {
    forall m | 0 <= m < |d.operator| ensures Served(d, d.operator[m].id) {
      assert d.operator[m] in Registered(d);
    }
  }

  lemma NotRegistered(d: Durable, entries: seq<Entry>, m: nat)
    requires m < |entries| && d.operator == entries && entries[m].id !in Ids(Registered(d))
    ensures !AllServed(d)
  {
    forall k | 0 <= k < |Registered(d)| ensures Registered(d)[k].id != entries[m].id {
      IdOf(Registered(d), k);
    }
  }

  /** Once registered, all entries but the new one are known to be routed. */
  lemma RouteIsThere(d: Durable, entries: seq<Entry>, e: Entry, k: nat)
    requires FilesSafe(d) && d.registry.Some? && Enroll(d.registry.value, e) == Some(entries) && 1 <= k <= 4
    requires k == 1 ==> e in d.registry.value
    ensures var routes := if k >= 3 then Some(Routes(entries)) else d.routes;
            (forall m :: 0 <= m < |entries| && routes.Some? ==> entries[m].route in routes.value)
            <==> (k == 2 ==> d.routes.None? || e.route in d.routes.value)
  {
    EnrolledIs(d.registry.value, e);
    assert e in entries;
    RoutesRouteAll(entries, entries);
    if e !in d.registry.value {
      forall m | 0 <= m < |entries| - 1 && d.routes.Some? ensures entries[m].route in d.routes.value {
        assert d.registry.value[m] == entries[m];
      }
    } else {
      assert Routed(d.registry.value, Routes(entries)) && entries == d.registry.value;
    }
  }

  lemma AllServedIs(d: Durable, entries: seq<Entry>)
    requires ValidRegistry(entries) && Registered(d) == entries && d.operator == entries
    ensures AllServed(d) <==>
            && Recoverable(entries, d)
            && forall m :: 0 <= m < |entries| && d.routes.Some? ==> entries[m].route in d.routes.value
  {
    forall m | 0 <= m < |entries|
      ensures Served(d, entries[m].id) <==>
              && (d.routes.Some? ==> entries[m].route in d.routes.value)
              && (entries[m].id != "primary" ==> Archived(d, entries[m]))
    {
      ServedIs(d, entries, m);
    }
  }

  function Plain(id: string): Entry {
    Entry(id, seq(40, _ => 'a'), Route(id, ""), "")
  }

  const BLUE := Candidate("blue", Plain("primary"), Plain("blue"))

  /** For instance: an installation dies right after its baseline, a retry right after preparing the runtime,
      and then somebody starts the rollout. */
  lemma RolloutTooEarly()
    ensures var first, second := Attempt(BLUE, [[], [], [], [], [], []], []), Attempt(BLUE, [[]], []);
            var d := History(INITIAL, [first, second]);
            && d.registry.Some? && Enroll(d.registry.value, BLUE.runtime).Some?
            && var d' := ApplyAll(d, RolloutWrites(Enroll(d.registry.value, BLUE.runtime).value, "blue"));
               d'.default == Some("blue") && !Served(d', "blue")
  {
    var first, second := Attempt(BLUE, [[], [], [], [], [], []], []), Attempt(BLUE, [[]], []);
    var d1 := Attempted(INITIAL, first);
    AttemptIsSafe(INITIAL, first);
    DyingAfterTheBaseline(first.schedule);
    assert [first, second][1..] == [second] && [second][1..] == [];
    assert History(INITIAL, [first, second]) == History(d1, [second]) == Attempted(d1, second);
    StandaloneRolloutNeedsTheArchive(d1, second);
  }

  lemma DyingAfterTheBaseline(schedule: seq<seq<Act>>)
    requires |schedule| == 6
    ensures Fresh(Attempted(INITIAL, Attempt(BLUE, schedule, [])), BLUE)
  {
    var first := BaselinePlan(INITIAL, BLUE);
    BluePlan();
    var second := RuntimePlan(ApplyAll(INITIAL, first.writes), BLUE);
    ExecuteConcat(INITIAL, first.writes, second.writes, schedule);
    ExecuteFiles(INITIAL, INITIAL, first.writes, schedule);
    var d1 := Execute(INITIAL, first.writes, schedule);
    AttemptedFiles(INITIAL, Attempt(BLUE, schedule, []));
    assert Files(Attempted(INITIAL, Attempt(BLUE, schedule, []))) == Files(d1);
    assert Files(d1) == Files(ApplyAll(INITIAL, first.writes));
  }

  lemma BluePlan()
    ensures var p := BaselinePlan(INITIAL, BLUE);
            && p.finishes && |p.writes| == 6
            && var d := ApplyAll(INITIAL, p.writes);
               && d.baseline == Some(Baseline("blue", true)) && d.registry == Some([BLUE.primary])
               && d.prepared == map[]
               && Enroll([BLUE.primary], BLUE.runtime).Some?
  {
    BlueRegistry();
    var one := [BLUE.primary];
    var last := [ToArchive, ToBaseline(Baseline("blue", true))];
    var p := BaselinePlan(INITIAL, BLUE);
    var first := [ToBaseline(Baseline("blue", false)), ToRegistry(one), ToOperator(one), ToDefault("primary")];
    assert p.writes == first + last;
    ApplyAllConcat(INITIAL, first, last);
    FourWrites(INITIAL, ToBaseline(Baseline("blue", false)), ToRegistry(one), ToOperator(one), ToDefault("primary"));
    var d := ApplyAll(INITIAL, first);
    assert last[1..] == [ToBaseline(Baseline("blue", true))];
    SingleWrite(Apply(d, ToArchive), last[1..]);
  }

  lemma FourWrites(d: Durable, a: Write, b: Write, c: Write, e: Write)
    ensures ApplyAll(d, [a, b, c, e]) == Apply(Apply(Apply(Apply(d, a), b), c), e)
  {
    assert [a, b, c, e][1..] == [b, c, e] && [b, c, e][1..] == [c, e] && [c, e][1..] == [e];
    SingleWrite(Apply(Apply(Apply(d, a), b), c), [e]);
    assert ApplyAll(Apply(Apply(d, a), b), [c, e]) == ApplyAll(Apply(Apply(Apply(d, a), b), c), [e]);
    assert ApplyAll(Apply(d, a), [b, c, e]) == ApplyAll(Apply(Apply(d, a), b), [c, e]);
  }

  lemma BlueRegistry()
    ensures ValidRegistry([BLUE.primary]) && Enroll([BLUE.primary], BLUE.runtime).Some?
  {
    var one, two := [BLUE.primary], [BLUE.primary, BLUE.runtime];
    SingleEntry(BLUE.primary);
    IdsAppend(one, BLUE.runtime);
    assert one + [BLUE.runtime] == two && one[1..] == [];
    assert "blue" != "primary" by { assert |"blue"| == 4; }
    assert ValidEntry(BLUE.primary) && ValidEntry(BLUE.runtime);
    assert Find(one, "blue") == Find(one[1..], "blue") == None;
  }
}
