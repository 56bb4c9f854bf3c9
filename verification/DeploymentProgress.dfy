/** Which deployments get through, and what they leave. */
module DeploymentProgress {
  import opened Common
  import opened Movement
  import opened MovementLaws
  import opened Deployment
  import opened DeploymentLaws

  predicate BaselineDone(d: Durable) {
    d.baseline.Some? && d.baseline.value.complete
  }

  /** The bundle that a deployment of `c` publishes: the one prepared under its id, if there is one. */
  function EntryOf(d: Durable, c: Candidate): Entry {
    if c.id in d.prepared then d.prepared[c.id] else c.runtime
  }

  /** The entry is registered already, or it fits: its id is free, it is well-formed and a place is left. */
  predicate HasPlace(entries: seq<Entry>, e: Entry) {
    e in entries || (e.id !in Ids(entries) && |entries| < 32 && ValidEntry(e))
  }

  /** What stands in the way of a deployment: an unfinished baseline of another candidate, another original
      runtime than its own while the baseline is unfinished, or a registry without a place for it. */
  predicate CanFinish(d: Durable, c: Candidate) {
    if BaselineDone(d) then d.registry.Some? && HasPlace(d.registry.value, EntryOf(d, c))
    else
      && (d.baseline.None? || d.baseline.value.candidate == c.id)
      && (d.registry.None? || d.registry.value == [c.primary])
      && ValidEntry(c.primary) && HasPlace([c.primary], EntryOf(d, c))
  }

  // ----- Which attempts finish --------------------------------------------------------------

  lemma AppendedIsValid(entries: seq<Entry>, e: Entry)
    requires ValidRegistry(entries)
    ensures ValidRegistry(entries + [e]) <==> e.id !in Ids(entries) && |entries| < 32 && ValidEntry(e)
  {
    var longer := entries + [e];
    IdsAppend(entries, e);
    assert longer[|entries|] == e && forall k :: 0 <= k < |entries| ==> longer[k] == entries[k];
    forall k | 0 <= k < |entries| ensures entries[k].id in Ids(entries) {
      IdOf(entries, k);
    }
    forall k | 0 <= k < |entries| && ValidRegistry(longer) ensures entries[k].id != e.id {
      assert longer[k].id != longer[|entries|].id;
    }
  }

  /** Enrolment succeeds exactly if the entry has a place. */
  lemma EnrollsIffPlace(entries: seq<Entry>, e: Entry)
    requires ValidRegistry(entries)
    ensures Enroll(entries, e).Some? <==> HasPlace(entries, e)
  {
    AppendedIsValid(entries, e);
    if e in entries {
      FindMember(entries, e);
    } else {
      var previous := Find(entries, e.id);
      if previous.None? {
        assert e.id !in Ids(entries);
      } else {
        var k :| 0 <= k < |entries| && entries[k] == previous.value;
        IdOf(entries, k);
      }
    }
  }

  lemma OriginalIsValid(c: Candidate)
    requires Formed(c)
    ensures ValidRegistry([c.primary]) <==> ValidEntry(c.primary)
  {
    SingleEntry(c.primary);
  }

  lemma InitialiseEnds(d: Durable, c: Candidate)
    requires InitialisePlan(d, c).finishes
    ensures ApplyAll(d, InitialisePlan(d, c).writes) ==
            d.(registry := Some([c.primary]), operator := [c.primary], default := Some("primary"),
               archive := Retained(d.fleet), baseline := Some(Baseline(c.id, true)))
  {
    var one := [c.primary];
    var tail := [ToOperator(one), ToDefault("primary"), ToArchive, ToBaseline(Baseline(c.id, true))];
    var d1 := d.(registry := Some(one));
    FourWrites(d1, ToOperator(one), ToDefault("primary"), ToArchive, ToBaseline(Baseline(c.id, true)));
    if d.registry.None? {
      assert InitialisePlan(d, c).writes == [ToRegistry(one)] + tail;
      assert ([ToRegistry(one)] + tail)[1..] == tail;
    } else {
      assert InitialisePlan(d, c).writes == tail && d1 == d;
    }
  }

  lemma BaselineEnds(d: Durable, c: Candidate)
    requires BaselinePlan(d, c).finishes
    ensures var d' := ApplyAll(d, BaselinePlan(d, c).writes);
            && BaselineDone(d') && d'.prepared == d.prepared
            && d'.registry == if BaselineDone(d) then d.registry else Some([c.primary])
  {
    if d.baseline.None? {
      var d1 := Apply(d, ToBaseline(Baseline(c.id, false)));
      InitialiseEnds(d1, c);
      assert BaselinePlan(d, c).writes[1..] == InitialisePlan(d1, c).writes;
    } else if !d.baseline.value.complete {
      InitialiseEnds(d, c);
    }
  }

  lemma RuntimeFinishesIff(d: Durable, c: Candidate)
    requires Safe(d) && Formed(c)
    ensures RuntimePlan(d, c).finishes <==> d.registry.Some? && HasPlace(d.registry.value, EntryOf(d, c))
  {
    if d.registry.Some? {
      var e := EntryOf(d, c);
      EnrollsIffPlace(d.registry.value, e);
      var d1 := if c.id in d.prepared then d else Apply(d, ToBundle(c.runtime));
      if c.id !in d.prepared {
        EnabledWriteIsSafe(d, ToBundle(c.runtime));
      }
      if Enroll(d.registry.value, e).Some? {
        EnrolledFacts(d1, e);
      }
    }
  }

  /** An attempt that is not interrupted gets through its whole plan exactly if nothing stands in its way. */
  lemma FinishesIff(d: Durable, c: Candidate)
    requires Safe(d) && Formed(c)
    ensures PlanOf(d, c).finishes <==> CanFinish(d, c)
  {
    OriginalIsValid(c);
    BaselineIsEnabled(d, c);
    var first := BaselinePlan(d, c);
    if first.finishes {
      EnabledEndsSafe(d, first.writes);
      BaselineEnds(d, c);
      RuntimeFinishesIff(ApplyAll(d, first.writes), c);
    }
  }

  // ----- A retry finishes too -----------------------------------------------------------------

  /** A write of the baseline before the last, which completes it. */
  predicate Preliminary(w: Write, c: Candidate) {
    match w
    case ToBaseline(b) => b == Baseline(c.id, false)
    case ToRegistry(entries) => entries == [c.primary]
    case ToBundle(_) => false
    case _ => true
  }

  predicate Beginning(d: Durable, c: Candidate, prepared: map<string, Entry>) {
    && (d.baseline.None? || d.baseline.value == Baseline(c.id, false))
    && (d.registry.None? || d.registry.value == [c.primary]) && d.prepared == prepared
  }

  lemma {:induction false} PreliminariesBegin(d: Durable, c: Candidate, prepared: map<string, Entry>, ws: seq<Write>,
                                              schedule: seq<seq<Act>>)
    requires Beginning(d, c, prepared) && forall w :: w in ws ==> Preliminary(w, c)
    ensures Beginning(Execute(d, ws, schedule), c, prepared)
    decreases |ws|
  {
    if ws != [] && schedule != [] {
      InterludeKeepsFiles(d, schedule[0]);
      var d1 := Interlude(d, schedule[0]);
      assert Files(d1).baseline == d.baseline && Files(d1).registry == d.registry && Files(d1).prepared == d.prepared;
      assert Preliminary(ws[0], c);
      PreliminariesBegin(Apply(d1, ws[0]), c, prepared, ws[1..], schedule[1..]);
    }
  }

  /** Dying in the baseline leaves nothing that stands in the way of the same candidate. */
  lemma BaselineCrash(d: Durable, c: Candidate, schedule: seq<seq<Act>>)
    requires Formed(c) && CanFinish(d, c) && !BaselineDone(d)
    ensures CanFinish(Execute(d, BaselinePlan(d, c).writes, schedule), c)
  {
    var ws := BaselinePlan(d, c).writes;
    OriginalIsValid(c);
    var n := |ws| - 1;
    assert ws[n] == ToBaseline(Baseline(c.id, true)) && forall k :: 0 <= k < n ==> Preliminary(ws[k], c);
    if |schedule| <= n {
      assert ws == ws[..n] + ws[n..];
      ExecuteConcat(d, ws[..n], ws[n..], schedule);
      PreliminariesBegin(d, c, d.prepared, ws[..n], schedule);
    } else {
      ExecuteFiles(d, d, ws, schedule);
      BaselineEnds(d, c);
      var d', end := Execute(d, ws, schedule), ApplyAll(d, ws);
      assert Files(d').baseline == end.baseline && Files(d').registry == end.registry
             && Files(d').prepared == end.prepared;
    }
  }

  /** A write of the publication of `e`, which makes the registry `entries`. */
  predicate Publishing(w: Write, e: Entry, entries: seq<Entry>) {
    match w
    case ToBaseline(_) => false
    case ToRegistry(others) => others == entries
    case ToBundle(other) => other == e
    case _ => true
  }

  predicate Published(d: Durable, c: Candidate, e: Entry, base: seq<Entry>, entries: seq<Entry>) {
    && BaselineDone(d) && EntryOf(d, c) == e
    && d.registry.Some? && (d.registry.value == base || d.registry.value == entries)
  }

  lemma {:induction false} PublicationKeepsEntry(d: Durable, c: Candidate, e: Entry, base: seq<Entry>,
                                                 entries: seq<Entry>,
                                                 ws: seq<Write>, schedule: seq<seq<Act>>)
    requires Published(d, c, e, base, entries)
    requires forall w :: w in ws ==> Publishing(w, e, entries) && (w.ToBundle? ==> e.id == c.id)
    ensures Published(Execute(d, ws, schedule), c, e, base, entries)
    decreases |ws|
  {
    if ws != [] && schedule != [] {
      InterludeKeepsFiles(d, schedule[0]);
      var d1 := Interlude(d, schedule[0]);
      assert Files(d1).baseline == d.baseline && Files(d1).registry == d.registry && Files(d1).prepared == d.prepared;
      assert Publishing(ws[0], e, entries);
      PublicationKeepsEntry(Apply(d1, ws[0]), c, e, base, entries, ws[1..], schedule[1..]);
    }
  }

  lemma RuntimeWrites(d: Durable, c: Candidate, entries: seq<Entry>)
    requires Formed(c) && d.registry.Some? && Enroll(d.registry.value, EntryOf(d, c)) == Some(entries)
    ensures forall w :: w in RuntimePlan(d, c).writes ==>
              Publishing(w, EntryOf(d, c), entries) && (w.ToBundle? ==> EntryOf(d, c).id == c.id)
  {
    if c.id in d.prepared {
      PublishWrites(d, c.id, d.prepared[c.id], entries);
    } else {
      PublishWrites(Apply(d, ToBundle(c.runtime)), c.id, c.runtime, entries);
    }
  }

  lemma PublishWrites(d: Durable, id: string, e: Entry, entries: seq<Entry>)
    requires d.registry.Some? && Enroll(d.registry.value, e) == Some(entries)
    ensures forall w :: w in PublishPlan(d, id, e).writes ==> Publishing(w, e, entries) && !w.ToBundle?
  {
    var archived := FleetOf(entries, d.prepared);
    if archived.Some? {
      var retain, rolls := RetainWrites(entries, archived.value), RolloutWrites(entries, id);
      forall w | w in retain || w in rolls ensures Publishing(w, e, entries) && !w.ToBundle? {
      }
      PublishPlanTail(d, id, e, entries);
    }
  }

  /** Dying in the publication does not either. */
  lemma RuntimeCrash(d: Durable, c: Candidate, schedule: seq<seq<Act>>)
    requires FilesSafe(d) && Formed(c) && BaselineDone(d) && CanFinish(d, c)
    ensures CanFinish(Execute(d, RuntimePlan(d, c).writes, schedule), c)
  {
    var base, e := d.registry.value, EntryOf(d, c);
    EnrollsIffPlace(base, e);
    var entries := Enroll(base, e).value;
    RuntimeWrites(d, c, entries);
    PublicationKeepsEntry(d, c, e, base, entries, RuntimePlan(d, c).writes, schedule);
    EnrolledIs(base, e);
  }

  lemma CrashedCanFinish(d: Durable, c: Candidate, schedule: seq<seq<Act>>)
    requires Safe(d) && Formed(c) && CanFinish(d, c)
    ensures CanFinish(Execute(d, PlanOf(d, c).writes, schedule), c)
  {
    if BaselineDone(d) {
      FinishedBaseline(d, c);
      RuntimeCrash(d, c, schedule);
    } else {
      FinishesIff(d, c);
      var first := BaselinePlan(d, c);
      ExecuteConcat(d, first.writes, RuntimePlan(ApplyAll(d, first.writes), c).writes, schedule);
      BaselineCrash(d, c, schedule);
      if |first.writes| < |schedule| {
        CrashBehindBaseline(d, c, schedule);
      }
    }
  }

  lemma CrashBehindBaseline(d: Durable, c: Candidate, schedule: seq<seq<Act>>)
    requires Safe(d) && Formed(c) && CanFinish(d, c) && !BaselineDone(d)
    requires BaselinePlan(d, c).finishes && |BaselinePlan(d, c).writes| < |schedule|
    ensures var ws := BaselinePlan(d, c).writes;
            CanFinish(Execute(Execute(d, ws, schedule), RuntimePlan(ApplyAll(d, ws), c).writes, schedule[|ws|..]), c)
  {
    var first := BaselinePlan(d, c);
    var middle, d1 := ApplyAll(d, first.writes), Execute(d, first.writes, schedule);
    BaselineIsEnabled(d, c);
    ExecutionIsSafe(d, first.writes, schedule);
    ExecuteFiles(d, d, first.writes, schedule);
    BaselineEnds(d, c);
    SameFiles(d1, middle);
    assert RuntimePlan(d1, c) == RuntimePlan(middle, c);
    RuntimeCrash(d1, c, schedule[|first.writes|..]);
  }

  /** Wherever an attempt dies, and also when it does not, the same candidate can be deployed again. */
  lemma RetryCanFinish(d: Durable, a: Attempt)
    requires Safe(d) && Formed(a.candidate) && CanFinish(d, a.candidate)
    ensures CanFinish(Attempted(d, a), a.candidate)
  {
    CrashedCanFinish(d, a.candidate, a.schedule);
    AttemptedFiles(d, a);
    var d', d1 := Attempted(d, a), Execute(d, PlanOf(d, a.candidate).writes, a.schedule);
    assert Files(d').baseline == Files(d1).baseline && Files(d').registry == Files(d1).registry
           && Files(d').prepared == Files(d1).prepared;
  }

  predicate AllOf(attempts: seq<Attempt>, c: Candidate) {
    forall k :: 0 <= k < |attempts| ==> attempts[k].candidate == c
  }

  /** So any number of abandoned attempts leaves the way free. */
  lemma {:induction false} RetriesCanFinish(d: Durable, attempts: seq<Attempt>, c: Candidate)
    requires Safe(d) && Formed(c) && CanFinish(d, c) && AllOf(attempts, c)
    ensures Safe(History(d, attempts)) && CanFinish(History(d, attempts), c)
    decreases |attempts|
  {
    if attempts != [] {
      AttemptIsSafe(d, attempts[0]);
      RetryCanFinish(d, attempts[0]);
      RetriesCanFinish(Attempted(d, attempts[0]), attempts[1..], c);
    }
  }

  // ----- What a deployment that gets through leaves -------------------------------------------

  /** Nobody else at work while the customers are moved. */
  lemma QuietFates(d: Durable, fates: seq<Fate>)
    requires Quiet(fates)
    ensures PossibleFates(d, fates) == fates
  {
    assert Possible(d, NOBODY) == NOBODY;
  }

  /** An attempt comes to move the customers exactly if nothing stands in its way and it lives long enough;
      if nobody interferes and no call is lost, it then completes exactly if every hold is a plain move to its
      runtime, and completed it leaves every customer on its runtime, which is the default and is served. */
  lemma DeploymentPlacesEverybody(d: Durable, a: Attempt)
    requires Safe(d) && Formed(a.candidate)
    ensures var reached := Reached(d, a);
            && (reached.Some? <==>
                  CanFinish(d, a.candidate) && |PlanOf(d, a.candidate).writes| < |a.schedule|)
            && (reached.Some? && Consistent(reached.value.journal) && Quiet(a.fates)
                  && Complete(a.fates, |reached.value.journal.customers|) ==>
                  Completes(d, a, reached.value))
  {
    FinishesIff(d, a.candidate);
    var reached := Reached(d, a);
    if reached.Some? && Consistent(reached.value.journal) && Quiet(a.fates)
       && Complete(a.fates, |reached.value.journal.customers|)
    {
      QuietFates(reached.value, a.fates);
      CompleteRunFinishes(reached.value.journal, a.candidate.id, a.fates);
      FinishedFiles(d, a);
    }
  }

  predicate Completes(d: Durable, a: Attempt, reached: Durable) {
    var d', id := Attempted(d, a), a.candidate.id;
    && (OutcomeOf(d, a).Some? && OutcomeOf(d, a).value.Done? <==> HeldTo(reached.journal, id))
    && (HeldTo(reached.journal, id) ==> AllPlaced(d'.journal, id))
    && d'.default == Some(id) && Served(d', id)
  }

  /** The registry that a deployment of `c` leaves: the one there was, or the original runtime alone, and the
      candidate's entry behind it unless it is registered. */
  function Enrolled(d: Durable, c: Candidate): seq<Entry> {
    var before := if BaselineDone(d) && d.registry.Some? then d.registry.value else [c.primary];
    if EntryOf(d, c) in before then before else before + [EntryOf(d, c)]
  }

  /** All files agree on this registry, and the archive holds it with the bundle of each runtime. */
  predicate Installed(d: Durable, d': Durable, c: Candidate) {
    var entries := Enrolled(d, c);
    && BaselineDone(d') && d'.prepared == d.prepared[c.id := EntryOf(d, c)]
    && d'.registry == Some(entries) && d'.operator == entries && d'.routes == Some(Routes(entries))
    && d'.fleet.Some? && d'.fleet.value.registry == entries
    && d'.fleet.value.bundles.Keys == Ids(entries) - {"primary"}
    && (forall id :: id in d'.fleet.value.bundles ==>
          id in d'.prepared && d'.fleet.value.bundles[id] == d'.prepared[id])
    && d'.archive == Retained(d'.fleet) && d'.default == Some(c.id)
  }

  /** What an attempt leaves in the files that gets through its plan, whatever happens in between. */
  lemma FinishedFiles(d: Durable, a: Attempt)
    requires Safe(d) && Formed(a.candidate) && Reached(d, a).Some?
    ensures Installed(d, Attempted(d, a), a.candidate)
    ensures Served(Attempted(d, a), a.candidate.id)
  {
    var p := PlanOf(d, a.candidate);
    PlanIsEnabled(d, a.candidate);
    PlanEnds(d, a.candidate);
    AttemptedFiles(d, a);
    AttemptIsSafe(d, a);
    ExecuteFiles(d, d, p.writes, a.schedule);
    var d', end := Attempted(d, a), ApplyAll(d, p.writes);
    SameFiles(d', end);
    CandidateIsEnrolled(d, a.candidate);
    ReachableRuntimeIsServed(d', a.candidate.id);
  }

  lemma CandidateIsEnrolled(d: Durable, c: Candidate)
    ensures EntryOf(d, c).id == c.id ==> c.id in Ids(Enrolled(d, c))
  {
    var entries, e := Enrolled(d, c), EntryOf(d, c);
    var k :| 0 <= k < |entries| && entries[k] == e;
  }

  lemma SameFiles(d': Durable, end: Durable)
    requires Files(d') == Files(end)
    ensures d' == end.(journal := d'.journal)
  {
    assert Files(d').baseline == d'.baseline && Files(end).baseline == end.baseline;
  }

  lemma PlanEnds(d: Durable, c: Candidate)
    requires Safe(d) && Formed(c) && PlanOf(d, c).finishes
    ensures Installed(d, ApplyAll(d, PlanOf(d, c).writes), c)
  {
    var first := BaselinePlan(d, c);
    var d1 := ApplyAll(d, first.writes);
    BaselineEnds(d, c);
    ApplyAllConcat(d, first.writes, RuntimePlan(d1, c).writes);
    RuntimeEnds(d1, c, Enrolled(d, c));
    FleetHolds(Enrolled(d, c), d1.prepared[c.id := EntryOf(d, c)]);
  }

  lemma FleetHolds(entries: seq<Entry>, prepared: map<string, Entry>)
    requires FleetOf(entries, prepared).Some?
    ensures var fleet := FleetOf(entries, prepared).value;
            && fleet.registry == entries && fleet.bundles.Keys == Ids(entries) - {"primary"}
            && forall id :: id in fleet.bundles ==> id in prepared && fleet.bundles[id] == prepared[id]
  {
  }

  lemma RuntimeEnds(d: Durable, c: Candidate, entries: seq<Entry>)
    requires d.registry.Some? && RuntimePlan(d, c).finishes && Formed(c)
    requires var before := d.registry.value;
             entries == if EntryOf(d, c) in before then before else before + [EntryOf(d, c)]
    ensures var prepared := d.prepared[c.id := EntryOf(d, c)];
            && FleetOf(entries, prepared).Some?
            && ApplyAll(d, RuntimePlan(d, c).writes) ==
               d.(prepared := prepared, registry := Some(entries), operator := entries, routes := Some(Routes(entries)),
                  fleet := FleetOf(entries, prepared), archive := Retained(FleetOf(entries, prepared)),
                  default := Some(c.id))
  {
    if c.id in d.prepared {
      assert d.prepared[c.id := d.prepared[c.id]] == d.prepared;
      PublishEnds(d, c.id, d.prepared[c.id]);
      EnrolledIs(d.registry.value, d.prepared[c.id]);
    } else {
      var d2 := Apply(d, ToBundle(c.runtime));
      PublishEnds(d2, c.id, c.runtime);
      EnrolledIs(d.registry.value, c.runtime);
      var ws := PublishPlan(d2, c.id, c.runtime).writes;
      assert ([ToBundle(c.runtime)] + ws)[1..] == ws;
    }
  }

  lemma PublishEnds(d: Durable, id: string, e: Entry)
    requires d.registry.Some? && PublishPlan(d, id, e).finishes
    ensures Enroll(d.registry.value, e).Some?
    ensures var entries := Enroll(d.registry.value, e).value;
            && FleetOf(entries, d.prepared).Some?
            && ApplyAll(d, PublishPlan(d, id, e).writes) ==
               d.(registry := Some(entries), operator := entries, routes := Some(Routes(entries)),
                  fleet := FleetOf(entries, d.prepared), archive := Retained(FleetOf(entries, d.prepared)),
                  default := Some(id))
  {
    var entries := Enroll(d.registry.value, e).value;
    var archived := FleetOf(entries, d.prepared).value;
    var before := [ToRoutes(entries)] + RetainWrites(entries, archived);
    PublishPlanTail(d, id, e, entries);
    assert PublishPlan(d, id, e).writes == before + RolloutWrites(entries, id);
    ApplyAllConcat(d, before, RolloutWrites(entries, id));
    RetainEnds(d, entries, archived);
    RolloutEnds(ApplyAll(d, before), entries, id);
  }

  lemma RetainEnds(d: Durable, entries: seq<Entry>, archived: Fleet)
    ensures ApplyAll(d, [ToRoutes(entries)] + RetainWrites(entries, archived)) ==
            d.(registry := Some(entries), routes := Some(Routes(entries)), fleet := Some(archived),
               archive := Retained(Some(archived)))
  {
    assert [ToRoutes(entries)] + RetainWrites(entries, archived) ==
           [ToRoutes(entries), ToRegistry(entries), ToFleet(archived), ToArchive];
    FourWrites(d, ToRoutes(entries), ToRegistry(entries), ToFleet(archived), ToArchive);
  }

  /** Main result: however often the deployment of a candidate has been interrupted, wherever it was, the attempt
      that lives long enough gets through; undisturbed, with every hold a plain move to its runtime, it leaves
      every customer there. */
  lemma RetriedDeploymentPlacesEverybody(d: Durable, c: Candidate, abandoned: seq<Attempt>, last: Attempt)
    requires Safe(d) && Formed(c) && CanFinish(d, c) && AllOf(abandoned, c) && last.candidate == c
    requires |PlanOf(History(d, abandoned), c).writes| < |last.schedule|
    ensures var d1 := History(d, abandoned);
            var reached := Reached(d1, last);
            && reached.Some?
            && (Consistent(reached.value.journal) && HeldTo(reached.value.journal, c.id) && Quiet(last.fates)
                  && Complete(last.fates, |reached.value.journal.customers|) ==>
                  && AllPlaced(Attempted(d1, last).journal, c.id)
                  && Attempted(d1, last).default == Some(c.id) && Served(Attempted(d1, last), c.id))
  {
    RetriesCanFinish(d, abandoned, c);
    DeploymentPlacesEverybody(History(d, abandoned), last);
  }

  // ----- Histories without edits by hand --------------------------------------------------------

  predicate ByTheBook(attempts: seq<Attempt>) {
    forall k :: 0 <= k < |attempts| ==> NoEdits(attempts[k].fates)
  }

  predicate NoEdits(fates: seq<Fate>) {
    forall m :: 0 <= m < |fates| ==> fates[m].foreign.edits == map[]
  }

  lemma OverlayIsConsistent(j: Journal, o: Others)
    requires Consistent(j) && o.edits == map[]
    ensures Consistent(Overlay(j, o))
  {
    assert Edited(j.customers, map[]) == j.customers;
    ReachableIsConsistent(j, o.acts);
  }

  lemma VisitIsConsistent(j: Journal, i: nat, c: Customer, dest: string, f: Fate)
    requires Consistent(j) && f.foreign.edits == map[]
    ensures Consistent(Visit(j, i, c, dest, f).0)
  {
    OverlayIsConsistent(j, f.foreign);
    var before := Overlay(j, f.foreign);
    match c.hold {
      case Some(op) => PerformKeepsConsistent(before, Resumes(op, f.reached));
      case None =>
        BegunIsConsistent(before, i, c.runtime, dest, c.generation, Move);
        var r := Begin(before, i, c.runtime, dest, c.generation, Move);
        if r.Some? {
          PerformKeepsConsistent(r.value, Resumes(before.next, f.reached));
        }
    }
  }

  lemma {:induction false} CohortIsConsistent(j: Journal, listed: seq<Customer>, i: nat, dest: string,
                                              fates: seq<Fate>, moved: nat)
    requires Consistent(j) && NoEdits(fates) && i <= |listed|
    ensures Consistent(Cohort(j, listed, i, dest, fates, moved).0)
    decreases |listed| - i
  {
    if i < |fates| {
      OverlayIsConsistent(j, fates[i].foreign);
      if i < |listed| {
        VisitIsConsistent(j, i, listed[i], dest, fates[i]);
        var (j', v) := Visit(j, i, listed[i], dest, fates[i]);
        if !v.Halted? {
          CohortIsConsistent(j', listed, i + 1, dest, fates, if v == Moved then moved + 1 else moved);
        }
      }
    }
  }

  lemma {:induction false} InterludeIsConsistent(d: Durable, acts: seq<Act>)
    requires Consistent(d.journal)
    ensures Consistent(Interlude(d, acts).journal)
    decreases |acts|
  {
    if acts != [] {
      PerformKeepsConsistent(d.journal, acts[0]);
      InterludeIsConsistent(if Permitted(d, acts[0]) then d.(journal := Perform(d.journal, acts[0])) else d, acts[1..]);
    }
  }

  lemma {:induction false} ExecuteIsConsistent(d: Durable, ws: seq<Write>, schedule: seq<seq<Act>>)
    requires Consistent(d.journal)
    ensures Consistent(Execute(d, ws, schedule).journal)
    decreases |ws|
  {
    if ws != [] && schedule != [] {
      InterludeIsConsistent(d, schedule[0]);
      ExecuteIsConsistent(Apply(Interlude(d, schedule[0]), ws[0]), ws[1..], schedule[1..]);
    }
  }

  lemma AttemptIsConsistent(d: Durable, a: Attempt)
    requires Consistent(d.journal)
    ensures Reached(d, a).Some? ==> Consistent(Reached(d, a).value.journal)
    ensures NoEdits(a.fates) ==> Consistent(Attempted(d, a).journal)
  {
    var p := PlanOf(d, a.candidate);
    ExecuteIsConsistent(d, p.writes, a.schedule);
    if Reached(d, a).Some? {
      InterludeIsConsistent(Execute(d, p.writes, a.schedule), a.schedule[|p.writes|]);
      var last := Reached(d, a).value;
      if NoEdits(a.fates) {
        var fates := PossibleFates(last, a.fates);
        forall m | 0 <= m < |fates| ensures fates[m].foreign.edits == map[] {
          assert a.fates[m].foreign.edits == map[];
        }
        CohortIsConsistent(last.journal, last.journal.customers, 0, a.candidate.id, fates, 0);
      }
    }
  }

  /** Without edits by hand, the journal in which any deployment moves the customers is consistent. */
  lemma {:induction false} HistoryIsConsistent(d: Durable, attempts: seq<Attempt>, last: Attempt)
    requires Consistent(d.journal) && ByTheBook(attempts)
    ensures var d1 := History(d, attempts);
            Consistent(d1.journal) && (Reached(d1, last).Some? ==> Consistent(Reached(d1, last).value.journal))
    decreases |attempts|
  {
    if attempts == [] {
      AttemptIsConsistent(d, last);
    } else {
      assert NoEdits(attempts[0].fates);
      AttemptIsConsistent(d, attempts[0]);
      HistoryIsConsistent(Attempted(d, attempts[0]), attempts[1..], last);
    }
  }
}
