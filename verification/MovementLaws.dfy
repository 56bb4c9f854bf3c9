/** What interrupted and repeated cohort runs keep, and where they end. */
module MovementLaws {
  import opened Common
  import opened Movement

  predicate Held(j: Journal, i: nat)
    requires i < |j.customers|
  {
    j.customers[i].hold.Some?
  }

  /** Holds and live movements belong to each other, and a live movement began with what the directory shows. */
  ghost predicate Consistent(j: Journal) {
    && (forall op :: op in j.movements ==> op < j.next && j.movements[op].customer < |j.customers|)
    && (forall op :: op in j.movements && Live(j.movements[op].phase) ==> Matches(j, op))
    && (forall i :: 0 <= i < |j.customers| && Held(j, i) ==> HoldIsLive(j, i))
  }

  ghost predicate HoldIsLive(j: Journal, i: nat)
    requires i < |j.customers| && Held(j, i)
  {
    var op := j.customers[i].hold.value;
    op in j.movements && j.movements[op].customer == i && Live(j.movements[op].phase)
  }

  /** Customer `i` is held by something other than a plain move to `dest`. */
  predicate Conflicting(j: Journal, dest: string, i: nat)
    requires i < |j.customers|
  {
    match j.customers[i].hold
    case None => false
    case Some(op) => op in j.movements && (j.movements[op].destination != dest || j.movements[op].mode != Move)
  }

  /** Customer `i` is held by a plain move to `dest` that an operator has asked to return. */
  predicate TurnedBack(j: Journal, dest: string, i: nat)
    requires i < |j.customers|
  {
    match j.customers[i].hold
    case None => false
    case Some(op) =>
      op in j.movements && !Conflicting(j, dest, i) && Rank(j.movements[op].phase) >= Rank(Returning)
  }

  /** Every hold is a plain move on its way to `dest`. */
  predicate HeldTo(j: Journal, dest: string) {
    forall i :: 0 <= i < |j.customers| ==> !Conflicting(j, dest, i) && !TurnedBack(j, dest, i)
  }

  predicate Quiet(fates: seq<Fate>) {
    forall k :: 0 <= k < |fates| ==> fates[k].foreign == NOBODY
  }

  predicate AllQuiet(schedules: seq<seq<Fate>>) {
    forall k :: 0 <= k < |schedules| ==> Quiet(schedules[k])
  }

  /** No call is lost and every resumed movement completes. */
  predicate Smooth(f: Fate) {
    f.statusAnswered && f.begin == Answered && f.reached == Completed && f.resumeAnswered
  }

  predicate Complete(fates: seq<Fate>, customers: nat) {
    |fates| > customers && forall k :: 0 <= k < customers ==> Smooth(fates[k])
  }

  // ----- Quantities conserved by every step -----------------------------------

  function BegunFor(j: Journal, i: nat): nat {
    multiset(j.begun)[i]
  }

  /** 1 when the cohort still has to begin a movement for customer `i`. */
  function Unbegun(j: Journal, dest: string, i: nat): nat
    requires i < |j.customers|
  {
    if j.customers[i].hold == None && j.customers[i].runtime != dest then 1 else 0
  }

  /** 1 when customer `i` still has an activation ahead of it. */
  function Unactivated(j: Journal, dest: string, i: nat): nat
    requires i < |j.customers|
  {
    if j.customers[i].hold.Some? then 1 else Unbegun(j, dest, i)
  }

  /** What no cohort step changes about customer `i`, unless an operator has turned it back: begins done
      plus begins owed, and generation plus activations owed; a conflicting hold is not touched at all. */
  ghost predicate Conserves(j: Journal, j': Journal, dest: string, i: nat)
    requires i < |j.customers| == |j'.customers|
  {
    !TurnedBack(j, dest, i) ==>
      && !TurnedBack(j', dest, i)
      && BegunFor(j', i) + Unbegun(j', dest, i) == BegunFor(j, i) + Unbegun(j, dest, i)
      && j'.customers[i].generation + Unactivated(j', dest, i) == j.customers[i].generation + Unactivated(j, dest, i)
      && (Conflicting(j', dest, i) <==> Conflicting(j, dest, i))
      && (Conflicting(j, dest, i) ==> Spared(j, j', i))
  }

  /** Customer `i`, and the movement that holds it, are as before. */
  predicate Spared(j: Journal, j': Journal, i: nat) {
    match if i < |j.customers| then j.customers[i].hold else None
    case None => false
    case Some(op) =>
      && i < |j'.customers| && j'.customers[i] == j.customers[i]
      && op in j.movements && op in j'.movements && j'.movements[op] == j.movements[op]
  }

  ghost predicate Preserves(j: Journal, j': Journal, dest: string) {
    && Consistent(j')
    && |j'.customers| == |j.customers|
    && forall i :: 0 <= i < |j.customers| ==> Conserves(j, j', dest, i)
  }

  function CompletedOps(j: Journal): set<nat> {
    set op | op in j.movements && j.movements[op].phase == Completed
  }

  /** Movements that have arrived and are not completed. */
  function Stranded(j: Journal): set<nat> {
    set op | op in j.movements && j.movements[op].phase == Activated
  }

  // ----- Reachability ---------------------------------------------------------

  lemma PerformKeepsConsistent(j: Journal, a: Act)
    requires Consistent(j)
    ensures Consistent(Perform(j, a))
  {
    match a {
      case Joins(runtime) => SignUpKeepsConsistent(j, runtime);
      case Renews(i) => RenewKeepsConsistent(j, i);
      case Begins(i, destination) => BeginKeepsConsistent(j, a);
      case Resumes(op, reached) => ResumeKeepsConsistent(j, op, reached);
      case RollsBack(i, op) => RollBackKeepsConsistent(j, i, op);
      case Returns(op) => ReturnKeepsConsistent(j, op);
    }
  }

  lemma SignUpKeepsConsistent(j: Journal, runtime: string)
    requires Consistent(j)
    ensures Consistent(SignUp(j, runtime))
  {
    var j' := SignUp(j, runtime);
    forall op | op in j'.movements && Live(j'.movements[op].phase) ensures Matches(j', op) {
      assert Matches(j, op);
    }
    forall k | 0 <= k < |j'.customers| && Held(j', k) ensures HoldIsLive(j', k) {
      assert Held(j, k) && HoldIsLive(j, k);
    }
  }

  lemma RenewKeepsConsistent(j: Journal, i: nat)
    requires Consistent(j)
    ensures Consistent(Perform(j, Renews(i)))
  {
    var j' := Perform(j, Renews(i));
    forall op | op in j'.movements && Live(j'.movements[op].phase) ensures Matches(j', op) {
      assert Matches(j, op);
    }
    forall k | 0 <= k < |j'.customers| && Held(j', k) ensures HoldIsLive(j', k) {
      assert Held(j, k) && HoldIsLive(j, k);
    }
  }

  lemma BeginKeepsConsistent(j: Journal, a: Act)
    requires Consistent(j) && a.Begins?
    ensures Consistent(Perform(j, a))
  {
    if a.i < |j.customers| {
      BegunIsConsistent(j, a.i, j.customers[a.i].runtime, a.destination, j.customers[a.i].generation, Move);
    }
  }

  lemma BegunIsConsistent(j: Journal, i: nat, source: string, destination: string, generation: nat, mode: Mode)
    requires Consistent(j)
    ensures var r := Begin(j, i, source, destination, generation, mode); r.Some? ==> Consistent(r.value)
  {
    var r := Begin(j, i, source, destination, generation, mode);
    if r.Some? {
      var j' := r.value;
      forall op | op in j'.movements && Live(j'.movements[op].phase) ensures Matches(j', op) {
        assert op != j.next ==> Matches(j, op);
      }
      forall k | 0 <= k < |j'.customers| && Held(j', k) ensures HoldIsLive(j', k) {
        assert k != i ==> Held(j, k) && HoldIsLive(j, k);
      }
    }
  }

  /** A live movement is the one hold of its customer. */
  lemma LiveIsHeld(j: Journal, op: nat)
    requires Consistent(j) && op in j.movements && Live(j.movements[op].phase)
    ensures j.movements[op].customer < |j.customers| && j.customers[j.movements[op].customer].hold == Some(op)
    ensures forall o :: o in j.movements && o != op && Live(j.movements[o].phase) ==>
              j.movements[o].customer != j.movements[op].customer
    ensures forall k :: 0 <= k < |j.customers| && k != j.movements[op].customer ==> j.customers[k].hold != Some(op)
  {
    assert Matches(j, op);
    forall o | o in j.movements && o != op && Live(j.movements[o].phase)
      ensures j.movements[o].customer != j.movements[op].customer
    {
      assert Matches(j, o);
    }
    forall k | 0 <= k < |j.customers| && k != j.movements[op].customer ensures j.customers[k].hold != Some(op) {
      assert Held(j, k) ==> HoldIsLive(j, k);
    }
  }

  lemma PhaseKeepsConsistent(j: Journal, op: nat, p: Phase)
    requires Consistent(j) && op in j.movements && Live(p) == Live(j.movements[op].phase)
    ensures Consistent(WithPhase(j, op, p))
  {
    var j' := WithPhase(j, op, p);
    forall o | o in j'.movements && Live(j'.movements[o].phase) ensures Matches(j', o) {
      assert Matches(j, o);
    }
    forall k | 0 <= k < |j'.customers| && Held(j', k) ensures HoldIsLive(j', k) {
      assert Held(j, k) && HoldIsLive(j, k);
    }
  }

  lemma PlaceKeepsConsistent(j: Journal, op: nat, runtime: string, generation: nat, p: Phase)
    requires Consistent(j) && op in j.movements && Live(j.movements[op].phase) && Matches(j, op) && !Live(p)
    ensures Consistent(Place(j, op, runtime, generation, p))
  {
    var j' := Place(j, op, runtime, generation, p);
    LiveIsHeld(j, op);
    forall o | o in j'.movements && Live(j'.movements[o].phase) ensures Matches(j', o) {
      assert Matches(j, o);
    }
    forall k | 0 <= k < |j'.customers| && Held(j', k) ensures HoldIsLive(j', k) {
      assert Held(j, k) && HoldIsLive(j, k);
    }
  }

  lemma ReturnedIsConsistent(j: Journal, op: nat, reached: Progress)
    requires Consistent(j) && op in j.movements
    requires j.movements[op].phase == Returning || j.movements[op].phase == Restamped
    ensures Consistent(Returned(j, op, reached))
  {
    PhaseKeepsConsistent(j, op, Restamped);
    PlaceKeepsConsistent(j, op, j.movements[op].source, j.movements[op].generation + 2, Cancelled);
  }

  lemma AdvancedIsConsistent(j: Journal, op: nat, reached: Progress)
    requires Consistent(j) && op in j.movements && Rank(j.movements[op].phase) <= Rank(Activated)
    ensures Consistent(Advanced(j, op, reached))
  {
    var m := j.movements[op];
    var p := Furthest(m.phase, reached);
    if Rank(m.phase) < Rank(Activated) <= Rank(p) {
      PlaceKeepsConsistent(j, op, m.destination, m.generation + 1, p);
    } else {
      PhaseKeepsConsistent(j, op, p);
    }
  }

  lemma ResumeKeepsConsistent(j: Journal, op: nat, reached: Progress)
    requires Consistent(j)
    ensures Consistent(Perform(j, Resumes(op, reached)))
  {
    if op in j.movements {
      var p := j.movements[op].phase;
      if p == Returning || p == Restamped {
        ReturnedIsConsistent(j, op, reached);
      } else if Rank(p) <= Rank(Activated) {
        AdvancedIsConsistent(j, op, reached);
      }
    }
  }

  lemma RollBackKeepsConsistent(j: Journal, i: nat, op: nat)
    requires Consistent(j)
    ensures Consistent(Perform(j, RollsBack(i, op)))
  {
    if RollBack(j, i, op).Some? {
      var m := j.movements[op];
      if m.phase == Activated {
        PhaseKeepsConsistent(j, op, Superseded);
      }
      var j' := if m.phase == Activated then WithPhase(j, op, Superseded) else j;
      BegunIsConsistent(j', i, m.destination, m.source, j.customers[i].generation, Rollback);
    }
  }

  lemma ReturnKeepsConsistent(j: Journal, op: nat)
    requires Consistent(j)
    ensures Consistent(Perform(j, Returns(op)))
  {
    if op in j.movements && Rank(j.movements[op].phase) <= Rank(Verified) {
      PhaseKeepsConsistent(j, op, Returning);
    }
  }

  /** Every journal any sequence of operations can produce is consistent. */
  lemma {:induction false} ReachableIsConsistent(j: Journal, acts: seq<Act>)
    requires Consistent(j)
    ensures Consistent(PerformAll(j, acts))
    decreases |acts|
  {
    if acts != [] {
      PerformKeepsConsistent(j, acts[0]);
      ReachableIsConsistent(Perform(j, acts[0]), acts[1..]);
    }
  }

  // ----- One visited customer ---------------------------------------------------

  lemma QuietOverlay(j: Journal)
    ensures Overlay(j, NOBODY) == j
  {
    assert Edited(j.customers, map[]) == j.customers;
  }

  /** Only customer `i` and its own movement change. */
  ghost predicate Touches(j: Journal, j': Journal, i: nat, op: nat)
    requires i < |j.customers|
  {
    && |j'.customers| == |j.customers|
    && (op in j.movements ==> j.movements[op].customer == i)
    && (forall k :: 0 <= k < |j.customers| && k != i ==> j'.customers[k] == j.customers[k])
    && j'.movements.Keys == j.movements.Keys + {op}
    && (forall o :: o in j.movements && o != op ==> j'.movements[o] == j.movements[o])
    && (j'.begun == j.begun || j'.begun == j.begun + [i])
  }

  /** Everybody else is conserved trivially. */
  lemma TouchingPreserves(j: Journal, j': Journal, dest: string, i: nat, op: nat)
    requires Consistent(j) && Consistent(j')
    requires i < |j.customers| && Touches(j, j', i, op) && (op in j.movements || op == j.next)
    requires Conserves(j, j', dest, i)
    ensures Preserves(j, j', dest) && OthersKept(j, j', dest, i)
  {
    forall k | 0 <= k < |j.customers| && k != i
      ensures Conserves(j, j', dest, k) && (TurnedBack(j, dest, k) ==> TurnedBack(j', dest, k))
    {
      assert multiset(j.begun + [i]) == multiset(j.begun) + multiset{i};
      if Held(j, k) {
        assert HoldIsLive(j, k) && j.customers[k].hold != Some(op);
      }
    }
  }

  /** The other customers are as before, and who of them is turned back still is. */
  predicate OthersKept(j: Journal, j': Journal, dest: string, i: nat) {
    |j'.customers| == |j.customers|
    && forall k :: 0 <= k < |j.customers| && k != i ==>
         j'.customers[k] == j.customers[k] && (TurnedBack(j, dest, k) ==> TurnedBack(j', dest, k))
  }

  /** A held movement that is not turned back is driven on by a resume exactly as far as it says. */
  lemma ResumeAdvances(j: Journal, i: nat, op: nat, reached: Progress)
    requires Consistent(j) && i < |j.customers| && j.customers[i].hold == Some(op)
    requires op in j.movements && Rank(j.movements[op].phase) < Rank(Returning)
    ensures Rank(j.movements[op].phase) <= Rank(Verified) && Resume(j, op, reached).Some?
    ensures var j', m, p := Resume(j, op, reached).value, j.movements[op], Furthest(j.movements[op].phase, reached);
            && Consistent(j') && Touches(j, j', i, op) && j'.begun == j.begun
            && j'.movements == j.movements[op := m.(phase := p)]
            && j.customers[i] == Customer(m.source, m.generation, Some(op))
            && j'.customers[i] == (if Rank(p) >= Rank(Activated) then Customer(m.destination, m.generation + 1, None)
                                   else j.customers[i])
  {
    assert Held(j, i) && HoldIsLive(j, i);
    assert Matches(j, op);
    ResumeKeepsConsistent(j, op, reached);
    AdvancedIs(j, op, reached);
  }

  lemma AdvancedIs(j: Journal, op: nat, reached: Progress)
    requires op in j.movements && Rank(j.movements[op].phase) <= Rank(Verified) && Matches(j, op)
    ensures var m := j.movements[op]; var p := Furthest(m.phase, reached);
            Driven(j, op, reached) ==
            j.(movements := j.movements[op := m.(phase := p)],
               customers := if Rank(p) >= Rank(Activated)
                            then j.customers[m.customer := Customer(m.destination, m.generation + 1, None)]
                            else j.customers)
  {
  }

  lemma ResumePreserves(j: Journal, dest: string, i: nat, op: nat, reached: Progress)
    requires Consistent(j) && i < |j.customers| && j.customers[i].hold == Some(op) && !TurnedBack(j, dest, i)
    requires op in j.movements && j.movements[op].destination == dest && j.movements[op].mode == Move
    ensures Rank(j.movements[op].phase) <= Rank(Verified) && Resume(j, op, reached).Some?
    ensures var j', p := Resume(j, op, reached).value, Furthest(j.movements[op].phase, reached);
            && Preserves(j, j', dest) && OthersKept(j, j', dest, i)
            && j'.movements == j.movements[op := j.movements[op].(phase := p)]
            && (Rank(p) >= Rank(Activated) ==> Placed(j', dest, i))
  {
    ResumeAdvances(j, i, op, reached);
    TouchingPreserves(j, Resume(j, op, reached).value, dest, i, op);
  }

  /** A movement on its way back is not completed by a resume, and everybody else is left alone. */
  lemma ResumeOfTurnedBack(j: Journal, dest: string, i: nat, op: nat, f: Fate)
    requires Consistent(j) && i < |j.customers| && j.customers[i].hold == Some(op) && TurnedBack(j, dest, i)
    ensures var (j', v) := ResumeAndCheck(j, op, f);
            && Preserves(j, j', dest) && (v == Halted(Interrupted) || v == Halted(Incomplete))
            && Stranded(j') == Stranded(j)
  {
    assert Held(j, i) && HoldIsLive(j, i);
    var j' := Returned(j, op, f.reached);
    ReturnedIsConsistent(j, op, f.reached);
    ReturnedTouches(j, i, op, f.reached);
    TouchingPreserves(j, j', dest, i, op);
  }

  lemma ReturnedTouches(j: Journal, i: nat, op: nat, reached: Progress)
    requires i < |j.customers| && op in j.movements && j.movements[op].customer == i
    requires j.movements[op].phase == Returning || j.movements[op].phase == Restamped
    ensures var j' := Returned(j, op, reached);
            && Touches(j, j', i, op) && Driven(j, op, reached) == j' && Stranded(j') == Stranded(j)
            && j'.movements[op].phase in {Returning, Restamped, Cancelled}
  {
  }

  lemma BeginPreserves(j: Journal, dest: string, i: nat)
    requires Consistent(j) && i < |j.customers| && j.customers[i].hold == None && j.customers[i].runtime != dest
    ensures var c := j.customers[i]; var r := Begin(j, i, c.runtime, dest, c.generation, Move);
            && r.Some? && Preserves(j, r.value, dest) && OthersKept(j, r.value, dest, i)
            && r.value.customers == j.customers[i := c.(hold := Some(j.next))]
            && r.value.movements == j.movements[j.next := Movement(i, c.runtime, dest, c.generation, Move, Paused)]
  {
    var c := j.customers[i];
    assert c == Customer(c.runtime, c.generation, None);
    var j' := Begin(j, i, c.runtime, dest, c.generation, Move).value;
    assert multiset(j.begun + [i]) == multiset(j.begun) + multiset{i};
    BegunIsConsistent(j, i, c.runtime, dest, c.generation, Move);
    TouchingPreserves(j, j', dest, i, j.next);
  }

  lemma PreservesTransitively(j0: Journal, j1: Journal, j2: Journal, dest: string)
    requires Preserves(j0, j1, dest) && Preserves(j1, j2, dest)
    ensures Preserves(j0, j2, dest)
  {
    forall i | 0 <= i < |j0.customers|
      ensures Conserves(j0, j2, dest, i)
    {
      assert Conserves(j0, j1, dest, i) && Conserves(j1, j2, dest, i);
    }
  }

  /** A visit that drives a movement to its activation and not to its completion. */
  predicate Strands(j: Journal, dest: string, i: nat, f: Fate) {
    && i < |j.customers| && f.reached == Activated
    && if j.customers[i].hold.Some? then f.statusAnswered && !Conflicting(j, dest, i) && !TurnedBack(j, dest, i)
       else j.customers[i].runtime != dest && f.begin == Answered
  }

  /** One more element, or none. */
  ghost predicate Gains(a: set<nat>, b: set<nat>, gained: bool) {
    if gained then exists op :: op !in a && b == a + {op} else a == b
  }

  /** What one visit of customer `i` may do to the journal, given its verdict. */
  ghost predicate VisitOk(j: Journal, j': Journal, v: Visited, i: nat, dest: string)
    requires i < |j.customers|
  {
    match v
    case Skipped => j' == j && Placed(j, dest, i)
    case Moved =>
      && Preserves(j, j', dest) && OthersKept(j, j', dest, i) && Placed(j', dest, i)
      && !Conflicting(j, dest, i) && !TurnedBack(j, dest, i)
      && Gains(CompletedOps(j), CompletedOps(j'), true)
    case Halted(reason) =>
      && Preserves(j, j', dest) && reason != PlacementChanged
      && (reason == Conflict ==> j' == j && Conflicting(j, dest, i))
  }

  predicate Placed(j: Journal, dest: string, i: nat) {
    i < |j.customers| && j.customers[i].runtime == dest && j.customers[i].hold == None
  }

  lemma CheckedResumeLaw(j: Journal, i: nat, op: nat, dest: string, f: Fate)
    requires Consistent(j) && i < |j.customers| && j.customers[i].hold == Some(op) && !TurnedBack(j, dest, i)
    requires op in j.movements && j.movements[op].destination == dest && j.movements[op].mode == Move
    ensures var (j', v) := ResumeAndCheck(j, op, f);
            && VisitOk(j, j', v, i, dest) && (Smooth(f) ==> v == Moved)
            && Gains(Stranded(j), Stranded(j'), f.reached == Activated) && (f.reached == Activated ==> v.Halted?)
  {
    ResumePreserves(j, dest, i, op, f.reached);
    var j', p := Resume(j, op, f.reached).value, Furthest(j.movements[op].phase, f.reached);
    assert CompletedOps(j') == CompletedOps(j) + (if p == Completed then {op} else {});
    assert Stranded(j') == Stranded(j) + (if p == Activated then {op} else {});
    assert op !in CompletedOps(j) && op !in Stranded(j);
  }

  lemma FreshVisitLaw(j: Journal, i: nat, dest: string, f: Fate)
    requires Consistent(j) && i < |j.customers| && f.foreign == NOBODY
    requires j.customers[i].hold == None && j.customers[i].runtime != dest && f.begin == Answered
    ensures var (j', v) := Visit(j, i, j.customers[i], dest, f);
            && VisitOk(j, j', v, i, dest) && (Smooth(f) ==> v == Moved)
            && Gains(Stranded(j), Stranded(j'), f.reached == Activated) && (f.reached == Activated ==> v.Halted?)
  {
    QuietOverlay(j);
    BeginPreserves(j, dest, i);
    var c := j.customers[i];
    var j1 := Begin(j, i, c.runtime, dest, c.generation, Move).value;
    assert CompletedOps(j1) == CompletedOps(j) && Stranded(j1) == Stranded(j);
    CheckedResumeLaw(j1, i, j.next, dest, f);
    PreservesTransitively(j, j1, ResumeAndCheck(j1, j.next, f).0, dest);
  }

  /** The whole effect of visiting customer `i` whose listed record is still current. */
  lemma VisitLaw(j: Journal, i: nat, dest: string, f: Fate)
    requires Consistent(j) && i < |j.customers| && f.foreign == NOBODY
    ensures var (j', v) := Visit(j, i, j.customers[i], dest, f);
            && VisitOk(j, j', v, i, dest)
            && Gains(Stranded(j), Stranded(j'), Strands(j, dest, i, f)) && (Strands(j, dest, i, f) ==> v.Halted?)
            && (Smooth(f) ==> (v.Halted? <==> Conflicting(j, dest, i) || TurnedBack(j, dest, i)))
  {
    QuietOverlay(j);
    var c := j.customers[i];
    if c.hold.Some? {
      assert Held(j, i) && HoldIsLive(j, i);
      if f.statusAnswered && TurnedBack(j, dest, i) {
        ResumeOfTurnedBack(j, dest, i, c.hold.value, f);
      } else if f.statusAnswered && !Conflicting(j, dest, i) {
        CheckedResumeLaw(j, i, c.hold.value, dest, f);
      }
    } else if c.runtime != dest && f.begin == Answered {
      FreshVisitLaw(j, i, dest, f);
    } else if c.runtime != dest && f.begin == LostAnswer {
      BeginPreserves(j, dest, i);
      var j1 := Begin(j, i, c.runtime, dest, c.generation, Move).value;
      assert Stranded(j1) == Stranded(j);
    }
  }

  /** A visit that goes on has met neither a conflict nor a movement on its way back. */
  lemma HoldsArePreserved(j: Journal, j': Journal, v: Visited, i: nat, dest: string)
    requires i < |j.customers| && VisitOk(j, j', v, i, dest) && !v.Halted? && Preserves(j, j', dest)
    ensures HeldTo(j, dest) <==> HeldTo(j', dest)
  {
    forall k | 0 <= k < |j.customers|
      ensures Conflicting(j, dest, k) || TurnedBack(j, dest, k) <==> Conflicting(j', dest, k) || TurnedBack(j', dest, k)
    {
      assert Conserves(j, j', dest, k);
    }
  }

  // ----- One run ------------------------------------------------------------------

  /** What was listed of the customers from position i on is still so. */
  predicate Listed(j: Journal, listed: seq<Customer>, i: nat) {
    |listed| == |j.customers| && forall m :: i <= m < |listed| ==> j.customers[m] == listed[m]
  }

  predicate PlacedBefore(j: Journal, dest: string, i: nat) {
    forall k :: 0 <= k < i ==> Placed(j, dest, k)
  }

  ghost predicate RunOk(j: Journal, dest: string, complete: bool, moved: nat, r: (Journal, Outcome)) {
    match r.1
    case Done(count) =>
      && Preserves(j, r.0, dest) && HeldTo(j, dest) && AllPlaced(r.0, dest)
      && CompletedOps(j) <= CompletedOps(r.0) && count == moved + |CompletedOps(r.0) - CompletedOps(j)|
    case Stopped(reason) =>
      && Preserves(j, r.0, dest) && reason != PlacementChanged && (complete ==> !HeldTo(j, dest))
  }

  /** Everything a run from position `i` keeps, and what its outcome means. */
  lemma {:induction false} CohortLaw(j: Journal, listed: seq<Customer>, i: nat, dest: string, fates: seq<Fate>,
                                     moved: nat)
    requires Consistent(j) && Quiet(fates)
    requires i <= |listed| && Listed(j, listed, i) && PlacedBefore(j, dest, i)
    ensures RunOk(j, dest, Complete(fates, |listed|), moved, Cohort(j, listed, i, dest, fates, moved))
    decreases |listed| - i
  {
    if |fates| <= i {
      PreservesItself(j, dest);
    } else if i == |listed| {
      PreservesItself(j, dest);
      QuietOverlay(j);
      AllAreVisited(j, dest);
    } else {
      VisitLaw(j, i, dest, fates[i]);
      var (j', v) := Visit(j, i, listed[i], dest, fates[i]);
      if !v.Halted? {
        var moved' := if v == Moved then moved + 1 else moved;
        VisitAdvances(j, j', v, i, listed, dest);
        CohortLaw(j', listed, i + 1, dest, fates, moved');
        var r := Cohort(j', listed, i + 1, dest, fates, moved');
        ContinuedRunOk(j, j', v, i, dest, Complete(fates, |listed|), moved, r);
      }
    }
  }

  lemma AllAreVisited(j: Journal, dest: string)
    requires PlacedBefore(j, dest, |j.customers|)
    ensures AllPlaced(j, dest) && HeldTo(j, dest) && |CompletedOps(j) - CompletedOps(j)| == 0
  {
    assert CompletedOps(j) - CompletedOps(j) == {};
    forall k | 0 <= k < |j.customers|
      ensures j.customers[k].runtime == dest && j.customers[k].hold == None
      ensures !Conflicting(j, dest, k) && !TurnedBack(j, dest, k)
    {
      assert Placed(j, dest, k);
    }
  }

  lemma PreservesItself(j: Journal, dest: string)
    requires Consistent(j)
    ensures Preserves(j, j, dest)
  {
  }

  lemma VisitAdvances(j: Journal, j': Journal, v: Visited, i: nat, listed: seq<Customer>, dest: string)
    requires Consistent(j) && i < |listed| && Listed(j, listed, i) && PlacedBefore(j, dest, i)
    requires VisitOk(j, j', v, i, dest) && !v.Halted?
    ensures Preserves(j, j', dest) && Listed(j', listed, i + 1) && PlacedBefore(j', dest, i + 1)
  {
    if v == Skipped {
      PreservesItself(j, dest);
    }
    forall k | 0 <= k < i ensures Placed(j', dest, k) {
      assert Placed(j, dest, k);
    }
  }

  lemma OneMoreCompleted(a: set<nat>, b: set<nat>, c: set<nat>, op: nat)
    requires op !in a && b == a + {op} && b <= c
    ensures a <= c && |c - a| == |c - b| + 1
  {
    assert c - a == (c - b) + {op};
  }

  lemma ContinuedRunOk(j: Journal, j': Journal, v: Visited, i: nat, dest: string, complete: bool, moved: nat,
                       r: (Journal, Outcome))
    requires i < |j.customers| && VisitOk(j, j', v, i, dest) && !v.Halted? && Preserves(j, j', dest)
    requires RunOk(j', dest, complete, if v == Moved then moved + 1 else moved, r)
    ensures RunOk(j, dest, complete, moved, r)
  {
    HoldsArePreserved(j, j', v, i, dest);
    PreservesTransitively(j, j', r.0, dest);
    if r.1.Done? && v == Moved {
      assert Gains(CompletedOps(j), CompletedOps(j'), true) && RunOk(j', dest, complete, moved + 1, r);
      var op :| op !in CompletedOps(j) && CompletedOps(j') == CompletedOps(j) + {op};
      OneMoreCompleted(CompletedOps(j), CompletedOps(j'), CompletedOps(r.0), op);
      assert r.1.moved == moved + |CompletedOps(r.0) - CompletedOps(j)|;
    }
  }

  /** A run that loses nothing finishes exactly when every hold is a plain move on its way to the destination,
      and then returns the number of movements it completed. */
  lemma CompleteRunFinishes(j: Journal, dest: string, fates: seq<Fate>)
    requires Consistent(j) && Quiet(fates) && Complete(fates, |j.customers|)
    ensures var (j', o) := Run(j, dest, fates);
            && (o.Done? <==> HeldTo(j, dest))
            && (o.Done? ==> AllPlaced(j', dest) && o.moved == |CompletedOps(j') - CompletedOps(j)|)
  {
    CohortLaw(j, j.customers, 0, dest, fates, 0);
  }

  // ----- Any number of interrupted runs -------------------------------------------

  lemma {:induction false} RunsPreserve(j: Journal, dest: string, schedules: seq<seq<Fate>>)
    requires Consistent(j) && AllQuiet(schedules)
    ensures Preserves(j, Runs(j, dest, schedules), dest)
    decreases |schedules|
  {
    if schedules != [] {
      assert Quiet(schedules[0]);
      CohortLaw(j, j.customers, 0, dest, schedules[0], 0);
      var j' := Run(j, dest, schedules[0]).0;
      RunsPreserve(j', dest, schedules[1..]);
      PreservesTransitively(j, j', Runs(j', dest, schedules[1..]), dest);
    }
  }

  /** Main result: from a reachable journal without conflicting holds, any interrupted
      runs followed by a complete one place every customer; each customer has exactly the
      begins and the generation steps it still needed, so never more than one of either. */
  lemma InterruptedRolloutConverges(acts: seq<Act>, dest: string, interrupted: seq<seq<Fate>>, last: seq<Fate>)
    requires HeldTo(PerformAll(EMPTY, acts), dest)
    requires AllQuiet(interrupted) && Quiet(last)
    requires Complete(last, |PerformAll(EMPTY, acts).customers|)
    ensures var j := PerformAll(EMPTY, acts);
            var before := Runs(j, dest, interrupted);
            var (after, o) := Run(before, dest, last);
            && o == Done(|CompletedOps(after) - CompletedOps(before)|)
            && AllPlaced(after, dest)
            && |after.customers| == |j.customers|
            && forall i :: 0 <= i < |j.customers| ==>
                 && BegunFor(after, i) == BegunFor(j, i) + Unbegun(j, dest, i)
                 && after.customers[i].generation == j.customers[i].generation + Unactivated(j, dest, i)
  {
    var j := PerformAll(EMPTY, acts);
    ReachableIsConsistent(EMPTY, acts);
    RunsPreserve(j, dest, interrupted);
    var before := Runs(j, dest, interrupted);
    forall i | 0 <= i < |j.customers| ensures !Conflicting(before, dest, i) && !TurnedBack(before, dest, i) {
      assert Conserves(j, before, dest, i);
    }
    CohortLaw(before, before.customers, 0, dest, last, 0);
    var (after, o) := Run(before, dest, last);
    forall i | 0 <= i < |j.customers|
      ensures BegunFor(after, i) == BegunFor(j, i) + Unbegun(j, dest, i)
      ensures after.customers[i].generation == j.customers[i].generation + Unactivated(j, dest, i)
    {
      assert Conserves(j, before, dest, i) && Conserves(before, after, dest, i);
      assert !TurnedBack(j, dest, i) && Placed(after, dest, i);
    }
  }

  // ----- Movements that arrive and are never completed ------------------------------

  /** Whether the run from position `i` breaks off between an activation and the completion. */
  predicate Cut(j: Journal, listed: seq<Customer>, i: nat, dest: string, fates: seq<Fate>)
    requires i <= |listed|
    decreases |listed| - i
  {
    i < |fates| && i < |listed| &&
    var (j', v) := Visit(j, i, listed[i], dest, fates[i]);
    if v.Halted? then Strands(j, dest, i, fates[i]) else Cut(j', listed, i + 1, dest, fates)
  }

  /** How many of the runs do. */
  function Cuts(j: Journal, dest: string, schedules: seq<seq<Fate>>): nat
    decreases |schedules|
  {
    if schedules == [] then 0
    else (if Cut(j, j.customers, 0, dest, schedules[0]) then 1 else 0)
         + Cuts(Run(j, dest, schedules[0]).0, dest, schedules[1..])
  }

  lemma {:induction false} CutRunStrandsOne(j: Journal, listed: seq<Customer>, i: nat, dest: string,
                                            fates: seq<Fate>, moved: nat)
    requires Consistent(j) && Quiet(fates) && i <= |listed| && Listed(j, listed, i) && PlacedBefore(j, dest, i)
    ensures Gains(Stranded(j), Stranded(Cohort(j, listed, i, dest, fates, moved).0), Cut(j, listed, i, dest, fates))
    decreases |listed| - i
  {
    if |fates| <= i {
    } else if i == |listed| {
      QuietOverlay(j);
    } else {
      VisitLaw(j, i, dest, fates[i]);
      var (j', v) := Visit(j, i, listed[i], dest, fates[i]);
      if !v.Halted? {
        VisitAdvances(j, j', v, i, listed, dest);
        CutRunStrandsOne(j', listed, i + 1, dest, fates, if v == Moved then moved + 1 else moved);
      }
    }
  }

  lemma {:induction false} CompleteRunIsNotCut(j: Journal, listed: seq<Customer>, i: nat, dest: string,
                                               fates: seq<Fate>)
    requires i <= |listed| && forall k :: 0 <= k < |fates| && k < |listed| ==> fates[k].reached != Activated
    ensures !Cut(j, listed, i, dest, fates)
    decreases |listed| - i
  {
    if i < |fates| && i < |listed| && !Visit(j, i, listed[i], dest, fates[i]).1.Halted? {
      CompleteRunIsNotCut(Visit(j, i, listed[i], dest, fates[i]).0, listed, i + 1, dest, fates);
    }
  }

  /** Each run that breaks off between an activation and the completion leaves one movement behind, and no run
      ever completes it: the customer is placed, so it is passed over. */
  lemma {:induction false} CutsStrand(j: Journal, dest: string, schedules: seq<seq<Fate>>)
    requires Consistent(j) && AllQuiet(schedules)
    ensures Stranded(j) <= Stranded(Runs(j, dest, schedules))
    ensures |Stranded(Runs(j, dest, schedules))| == |Stranded(j)| + Cuts(j, dest, schedules)
    decreases |schedules|
  {
    if schedules != [] {
      assert Quiet(schedules[0]);
      CohortLaw(j, j.customers, 0, dest, schedules[0], 0);
      CutRunStrandsOne(j, j.customers, 0, dest, schedules[0], 0);
      CutsStrand(Run(j, dest, schedules[0]).0, dest, schedules[1..]);
    }
  }

  /** A rollout that ends with a count leaves nothing behind exactly if there was nothing before and no run
      was interrupted between an activation and the completion. */
  lemma NothingIsStrandedIffNoRunWasCut(acts: seq<Act>, dest: string, interrupted: seq<seq<Fate>>, last: seq<Fate>)
    requires HeldTo(PerformAll(EMPTY, acts), dest)
    requires AllQuiet(interrupted) && Quiet(last)
    requires Complete(last, |PerformAll(EMPTY, acts).customers|)
    ensures var j := PerformAll(EMPTY, acts);
            var (after, o) := Run(Runs(j, dest, interrupted), dest, last);
            && o.Done? && |Stranded(after)| == |Stranded(j)| + Cuts(j, dest, interrupted)
            && (Stranded(after) == {} <==> Stranded(j) == {} && Cuts(j, dest, interrupted) == 0)
  {
    var j := PerformAll(EMPTY, acts);
    ReachableIsConsistent(EMPTY, acts);
    InterruptedRolloutConverges(acts, dest, interrupted, last);
    RunsPreserve(j, dest, interrupted);
    CutsStrand(j, dest, interrupted);
    var before := Runs(j, dest, interrupted);
    CutRunStrandsOne(before, before.customers, 0, dest, last, 0);
    CompleteRunIsNotCut(before, before.customers, 0, dest, last);
  }

  /** One customer, interrupted there: the next run counts nothing and the movement stays merely activated. */
  lemma ActivatedIsNotCompleted(f: Fate)
    requires f == Fate(NOBODY, true, Answered, Completed, true)
    ensures var j := PerformAll(EMPTY, [Joins("blue")]);
            var (between, o) := Run(j, "green", [f.(reached := Activated)]);
            var (after, o') := Run(between, "green", [f, f]);
            && o == Stopped(Incomplete) && o' == Done(0) && AllPlaced(after, "green")
            && after.movements == map[0 := Movement(0, "blue", "green", 1, Move, Activated)]
  {
    var j := PerformAll(EMPTY, [Joins("blue")]);
    assert [Joins("blue")][1..] == [];
    assert j == SignUp(EMPTY, "blue") == Journal([Customer("blue", 1, None)], map[], 0, []);
    QuietOverlay(j);
    var (between, o) := Run(j, "green", [f.(reached := Activated)]);
    var m := Movement(0, "blue", "green", 1, Move, Paused);
    var begun := Journal([Customer("blue", 1, Some(0))], map[0 := m], 1, [0]);
    var r := Begin(j, 0, "blue", "green", 1, Move).value;
    assert r.customers == begun.customers && r.movements == begun.movements && r.begun == begun.begun;
    var cut := f.(reached := Activated);
    assert Overlay(j, cut.foreign) == j;
    assert Visit(j, 0, j.customers[0], "green", cut) == ResumeAndCheck(begun, 0, cut);
    assert between == Journal([Customer("green", 2, None)], map[0 := m.(phase := Activated)], 1, [0]);
    QuietOverlay(between);
    assert Visit(between, 0, between.customers[0], "green", f) == (between, Skipped);
    assert Cohort(between, between.customers, 1, "green", [f, f], 0) == (between, Done(0));
  }

  /** A conflicting held movement is never resumed, by any number of runs. */
  lemma ConflictIsNeverResumed(acts: seq<Act>, dest: string, schedules: seq<seq<Fate>>, i: nat)
    requires i < |PerformAll(EMPTY, acts).customers| && Conflicting(PerformAll(EMPTY, acts), dest, i)
    requires AllQuiet(schedules)
    ensures Spared(PerformAll(EMPTY, acts), Runs(PerformAll(EMPTY, acts), dest, schedules), i)
  {
    var j := PerformAll(EMPTY, acts);
    ReachableIsConsistent(EMPTY, acts);
    RunsPreserve(j, dest, schedules);
    assert Conserves(j, Runs(j, dest, schedules), dest, i);
  }

  // ----- Others at work during a run ------------------------------------------------

  /** What a visit may do on the strength of the listed record `c`, whatever others did just before: it
      resumes the movement that held the customer then, or it begins one if the directory still shows exactly
      that record, or it changes nothing. */
  ghost predicate ActsOnListing(before: Journal, after: Journal, v: Visited, i: nat, c: Customer, dest: string,
                                f: Fate) {
    match c.hold
    case Some(op) =>
      if !f.statusAnswered then after == before && v == Halted(Interrupted)
      else if op !in before.movements then after == before && v == Halted(Refused)
      else if !MoveTo(before, op, dest) then after == before && v == Halted(Conflict)
      else
        && OnlyResumes(before, after, op) && after == Perform(before, Resumes(op, f.reached))
        && (v == Moved <==> f.resumeAnswered && CompletedTo(after, op, dest))
    case None =>
      if c.runtime == dest then after == before && v == Skipped
      else if f.begin == LostRequest then after == before && v == Halted(Interrupted)
      else if i < |before.customers| && before.customers[i] == c then
        && BeginsListed(before, after, i, c, dest)
        && after.movements[before.next].phase == (if f.begin == LostAnswer then Paused else f.reached)
        && (v == Moved <==> f.begin == Answered && f.resumeAnswered && f.reached == Completed)
      else after == before && v == Halted(Refused)
  }

  /** No movement is begun, and no other movement and no other customer is touched. */
  predicate OnlyResumes(before: Journal, after: Journal, op: nat) {
    && after.begun == before.begun && after.next == before.next && |after.customers| == |before.customers|
    && after.movements.Keys == before.movements.Keys
    && (forall o :: o in before.movements && o != op ==> after.movements[o] == before.movements[o])
    && forall k :: 0 <= k < |before.customers| && (op in before.movements ==> k != before.movements[op].customer) ==>
         after.customers[k] == before.customers[k]
  }

  /** One movement more, from the listed placement to `dest`; the customer is held by it or has arrived. */
  predicate BeginsListed(before: Journal, after: Journal, i: nat, c: Customer, dest: string) {
    var op := before.next;
    && after.begun == before.begun + [i] && after.next == op + 1 && op in after.movements
    && after.movements[op] == Movement(i, c.runtime, dest, c.generation, Move, after.movements[op].phase)
    && (forall o :: o in before.movements && o != op ==>
          o in after.movements && after.movements[o] == before.movements[o])
    && i < |before.customers| == |after.customers|
    && after.customers[i] == (if Rank(after.movements[op].phase) < Rank(Activated) then c.(hold := Some(op))
                              else Customer(dest, c.generation + 1, None))
    && forall k :: 0 <= k < |before.customers| && k != i ==> after.customers[k] == before.customers[k]
  }

  predicate MoveTo(j: Journal, op: nat, dest: string) {
    op in j.movements && j.movements[op].destination == dest && j.movements[op].mode == Move
  }

  predicate CompletedTo(j: Journal, op: nat, dest: string) {
    MoveTo(j, op, dest) && j.movements[op].phase == Completed
  }

  lemma VisitActsOnListing(j: Journal, i: nat, c: Customer, dest: string, f: Fate)
    ensures var (after, v) := Visit(j, i, c, dest, f);
            ActsOnListing(Overlay(j, f.foreign), after, v, i, c, dest, f)
  {
    var before := Overlay(j, f.foreign);
    match c.hold {
      case Some(op) => ResumeOnlyTouches(before, op, f);
      case None =>
        var r := Begin(before, i, c.runtime, dest, c.generation, Move);
        if r.Some? {
          FreshResume(before, r.value, i, c, dest, f);
        }
    }
  }

  lemma ResumeOnlyTouches(j: Journal, op: nat, f: Fate)
    ensures var (after, v) := ResumeAndCheck(j, op, f);
            && OnlyResumes(j, after, op) && after == Perform(j, Resumes(op, f.reached))
            && (op in j.movements ==>
                  && after.movements[op] == j.movements[op].(phase := after.movements[op].phase)
                  && (v == Moved <==> f.resumeAnswered && after.movements[op].phase == Completed))
  {
  }

  lemma FreshResume(before: Journal, begun: Journal, i: nat, c: Customer, dest: string, f: Fate)
    requires Begin(before, i, c.runtime, dest, c.generation, Move) == Some(begun) && c.hold == None
    ensures BeginsListed(before, begun, i, c, dest)
    ensures var (after, v) := ResumeAndCheck(begun, before.next, f);
            && BeginsListed(before, after, i, c, dest) && after.movements[before.next].phase == f.reached
            && (v == Moved <==> f.resumeAnswered && f.reached == Completed)
  {
  }

  /** The journal in which a run makes its calls for the k-th listed customer, and what comes of them; None if
      the run has stopped before. */
  function VisitNumber(j: Journal, listed: seq<Customer>, i: nat, dest: string, fates: seq<Fate>, k: nat)
    : Option<(Journal, Journal, Visited)>
    requires i <= k < |listed|
    decreases k - i
  {
    if |fates| <= i then None
    else
      var (after, v) := Visit(j, i, listed[i], dest, fates[i]);
      if i == k then Some((Overlay(j, fates[i].foreign), after, v))
      else if v.Halted? then None
      else VisitNumber(after, listed, i + 1, dest, fates, k)
  }

  lemma {:induction false} VisitsFollowTheListing(j: Journal, listed: seq<Customer>, i: nat, dest: string,
                                                  fates: seq<Fate>, moved: nat, k: nat)
    requires i <= k < |listed|
    ensures match VisitNumber(j, listed, i, dest, fates, k)
            case None => Cohort(j, listed, i, dest, fates, moved).1.Stopped?
            case Some((before, after, v)) =>
              && k < |fates| && ActsOnListing(before, after, v, k, listed[k], dest, fates[k])
              && (v.Halted? ==> Cohort(j, listed, i, dest, fates, moved) == (after, Stopped(v.reason)))
    decreases k - i
  {
    if i < |fates| {
      var (after, v) := Visit(j, i, listed[i], dest, fates[i]);
      if i == k {
        VisitActsOnListing(j, i, listed[i], dest, fates[i]);
      } else if !v.Halted? {
        VisitsFollowTheListing(after, listed, i + 1, dest, fates, if v == Moved then moved + 1 else moved, k);
      }
    }
  }

  /** Whatever anybody else does before and between its calls, every visit of a run acts on the record that the
      run listed; the run that does not visit a customer, or is halted there, has stopped. */
  lemma RunActsOnItsListing(j: Journal, dest: string, fates: seq<Fate>, k: nat)
    requires k < |j.customers|
    ensures match VisitNumber(j, j.customers, 0, dest, fates, k)
            case None => Run(j, dest, fates).1.Stopped?
            case Some((before, after, v)) =>
              && k < |fates| && ActsOnListing(before, after, v, k, j.customers[k], dest, fates[k])
              && (v.Halted? ==> Run(j, dest, fates) == (after, Stopped(v.reason)))
  {
    VisitsFollowTheListing(j, j.customers, 0, dest, fates, 0, k);
  }

  /** A customer that somebody has changed since the listing is left as it is found, and the run is refused. */
  lemma ChangedCustomerStopsTheRun(j: Journal, dest: string, fates: seq<Fate>, k: nat)
    requires k < |j.customers| && j.customers[k].hold == None && j.customers[k].runtime != dest
    requires VisitNumber(j, j.customers, 0, dest, fates, k).Some?
    ensures k < |fates|
    ensures var before := VisitNumber(j, j.customers, 0, dest, fates, k).value.0;
            fates[k].begin != LostRequest && (|before.customers| <= k || before.customers[k] != j.customers[k]) ==>
              Run(j, dest, fates) == (before, Stopped(Refused))
  {
    RunActsOnItsListing(j, dest, fates, k);
  }

  /** The run gets through the customers that it listed. */
  ghost predicate GetsThrough(j: Journal, listed: seq<Customer>, i: nat, dest: string, fates: seq<Fate>)
    requires i <= |listed|
  {
    |listed| < |fates| && forall k :: i <= k < |listed| ==> PassesBy(j, listed, i, dest, fates, k)
  }

  predicate PassesBy(j: Journal, listed: seq<Customer>, i: nat, dest: string, fates: seq<Fate>, k: nat)
    requires i <= k < |listed|
  {
    VisitNumber(j, listed, i, dest, fates, k).Some? && !VisitNumber(j, listed, i, dest, fates, k).value.2.Halted?
  }

  /** The journal after the last of them, if the run comes to it. */
  function AfterVisits(j: Journal, listed: seq<Customer>, i: nat, dest: string, fates: seq<Fate>): Journal
    requires i <= |listed|
  {
    if i == |listed| then j
    else match VisitNumber(j, listed, i, dest, fates, |listed| - 1)
      case None => j
      case Some((_, after, _)) => after
  }

  /** Then, and only then, does the second listing decide, at which others may have been at work again. */
  lemma SecondListingDecides(j: Journal, dest: string, fates: seq<Fate>)
    ensures var (last, o) := Run(j, dest, fates);
            if GetsThrough(j, j.customers, 0, dest, fates) then DecidedLast(j, j.customers, 0, dest, fates, last, o)
            else o.Stopped? && o != Stopped(PlacementChanged)
  {
    SecondListing(j, j.customers, 0, dest, fates, 0);
  }

  predicate DecidedLast(j: Journal, listed: seq<Customer>, i: nat, dest: string, fates: seq<Fate>, last: Journal,
                        o: Outcome)
    requires i <= |listed| < |fates|
  {
    && last == Overlay(AfterVisits(j, listed, i, dest, fates), fates[|listed|].foreign)
    && o.Done? == AllPlaced(last, dest) && (!o.Done? ==> o == Stopped(PlacementChanged))
  }

  lemma {:induction false} SecondListing(j: Journal, listed: seq<Customer>, i: nat, dest: string,
                                         fates: seq<Fate>, moved: nat)
    requires i <= |listed|
    ensures var (last, o) := Cohort(j, listed, i, dest, fates, moved);
            if GetsThrough(j, listed, i, dest, fates) then DecidedLast(j, listed, i, dest, fates, last, o)
            else o.Stopped? && o != Stopped(PlacementChanged)
    decreases |listed| - i
  {
    if i == |listed| {
    } else if |fates| <= i {
      assert !PassesBy(j, listed, i, dest, fates, i);
    } else {
      var (after, v) := Visit(j, i, listed[i], dest, fates[i]);
      NextOfCohort(j, listed, i, dest, fates, moved, after, v);
      if v.Halted? {
        assert !PassesBy(j, listed, i, dest, fates, i);
        HaltsOtherwise(j, i, listed[i], dest, fates[i]);
      } else {
        SecondListing(after, listed, i + 1, dest, fates, if v == Moved then moved + 1 else moved);
        NextGetsThrough(j, listed, i, dest, fates, after, v);
      }
    }
  }

  lemma HaltsOtherwise(j: Journal, i: nat, c: Customer, dest: string, f: Fate)
    ensures Visit(j, i, c, dest, f).1 != Halted(PlacementChanged)
  {
  }

  lemma NextGetsThrough(j: Journal, listed: seq<Customer>, i: nat, dest: string, fates: seq<Fate>, after: Journal,
                        v: Visited)
    requires i < |fates| && i < |listed| && (after, v) == Visit(j, i, listed[i], dest, fates[i]) && !v.Halted?
    ensures GetsThrough(j, listed, i, dest, fates) <==> GetsThrough(after, listed, i + 1, dest, fates)
    ensures GetsThrough(j, listed, i, dest, fates) ==>
              AfterVisits(j, listed, i, dest, fates) == AfterVisits(after, listed, i + 1, dest, fates)
  {
    assert PassesBy(j, listed, i, dest, fates, i);
    assert VisitNumber(j, listed, i, dest, fates, i) == Some((Overlay(j, fates[i].foreign), after, v));
    forall k | i < k < |listed|
      ensures VisitNumber(j, listed, i, dest, fates, k) == VisitNumber(after, listed, i + 1, dest, fates, k)
      ensures PassesBy(j, listed, i, dest, fates, k) <==> PassesBy(after, listed, i + 1, dest, fates, k)
    {
      VisitNumberLater(j, listed, i, dest, fates, k, after, v);
    }
    if GetsThrough(after, listed, i + 1, dest, fates) {
      forall k | i <= k < |listed| ensures PassesBy(j, listed, i, dest, fates, k) {
        assert k > i ==> PassesBy(after, listed, i + 1, dest, fates, k);
      }
    }
    var next := i + 1;
    if GetsThrough(j, listed, i, dest, fates) {
      forall k | i < k < |listed| ensures PassesBy(after, listed, next, dest, fates, k) {
        assert PassesBy(j, listed, i, dest, fates, k);
      }
    }
  }

  lemma VisitNumberLater(j: Journal, listed: seq<Customer>, i: nat, dest: string, fates: seq<Fate>, k: nat,
                         after: Journal, v: Visited)
    requires i < |fates| && i < k < |listed| && (after, v) == Visit(j, i, listed[i], dest, fates[i]) && !v.Halted?
    ensures VisitNumber(j, listed, i, dest, fates, k) == VisitNumber(after, listed, i + 1, dest, fates, k)
  {
  }

  /** The visits that completed a movement. */
  function MovedVisits(j: Journal, listed: seq<Customer>, i: nat, dest: string, fates: seq<Fate>): set<nat>
    requires i <= |listed|
  {
    set k: nat | i <= k < |listed| && VisitNumber(j, listed, i, dest, fates, k).Some?
                 && VisitNumber(j, listed, i, dest, fates, k).value.2 == Moved
  }

  lemma {:induction false} CountIsOfMovedVisits(j: Journal, listed: seq<Customer>, i: nat, dest: string,
                                                fates: seq<Fate>, moved: nat)
    requires i <= |listed|
    ensures var (last, o) := Cohort(j, listed, i, dest, fates, moved);
            o.Done? ==> AllPlaced(last, dest) && o.moved == moved + |MovedVisits(j, listed, i, dest, fates)|
    decreases |listed| - i
  {
    if i < |fates| && i < |listed| {
      var (after, v) := Visit(j, i, listed[i], dest, fates[i]);
      NextOfCohort(j, listed, i, dest, fates, moved, after, v);
      if !v.Halted? {
        CountIsOfMovedVisits(after, listed, i + 1, dest, fates, if v == Moved then moved + 1 else moved);
        NextMovedVisits(j, listed, i, dest, fates);
      }
    }
  }

  lemma NextOfCohort(j: Journal, listed: seq<Customer>, i: nat, dest: string, fates: seq<Fate>, moved: nat,
                     after: Journal, v: Visited)
    requires i < |fates| && i < |listed| && (after, v) == Visit(j, i, listed[i], dest, fates[i])
    ensures Cohort(j, listed, i, dest, fates, moved) ==
            match v
            case Halted(reason) => (after, Stopped(reason))
            case Skipped => Cohort(after, listed, i + 1, dest, fates, moved)
            case Moved => Cohort(after, listed, i + 1, dest, fates, moved + 1)
  {
  }

  lemma NextMovedVisits(j: Journal, listed: seq<Customer>, i: nat, dest: string, fates: seq<Fate>)
    requires i < |fates| && i < |listed| && !Visit(j, i, listed[i], dest, fates[i]).1.Halted?
    ensures var (after, v) := Visit(j, i, listed[i], dest, fates[i]);
            |MovedVisits(j, listed, i, dest, fates)|
            == |MovedVisits(after, listed, i + 1, dest, fates)| + if v == Moved then 1 else 0
  {
    var (after, v) := Visit(j, i, listed[i], dest, fates[i]);
    var rest := MovedVisits(after, listed, i + 1, dest, fates);
    assert MovedVisits(j, listed, i, dest, fates) == if v == Moved then rest + {i} else rest;
    assert i !in rest;
  }

  /** And a count that is returned is the number of customers whose movement the run saw completed, with
      everybody placed and free at the last listing. */
  lemma CountMeansPlaced(j: Journal, dest: string, fates: seq<Fate>)
    ensures var (last, o) := Run(j, dest, fates);
            o.Done? ==> AllPlaced(last, dest) && o.moved == |MovedVisits(j, j.customers, 0, dest, fates)|
  {
    CountIsOfMovedVisits(j, j.customers, 0, dest, fates, 0);
  }

  /** For instance, somebody moves the only customer elsewhere between the listing and the begin. */
  lemma MovedElsewhereIsRefused(f: Fate)
    requires f == Fate(Others(map[], [Begins(0, "red"), Resumes(0, Completed)]), true, Answered, Completed, true)
    ensures var j := PerformAll(EMPTY, [Joins("blue")]);
            var (last, o) := Run(j, "green", [f, f]);
            o == Stopped(Refused) && last.customers == [Customer("red", 2, None)]
  {
    var j := PerformAll(EMPTY, [Joins("blue")]);
    assert [Joins("blue")][1..] == [];
    assert j == SignUp(EMPTY, "blue");
    assert j.customers == [Customer("blue", 1, None)];
    var acts := f.foreign.acts;
    assert acts[1..] == [Resumes(0, Completed)] && [Resumes(0, Completed)][1..] == [];
    assert Edited(j.customers, map[]) == j.customers;
    var j1 := Perform(j, acts[0]);
    assert j1.customers == [Customer("blue", 1, Some(0))];
    assert j1.movements[0] == Movement(0, "blue", "red", 1, Move, Paused);
    var j2 := Perform(j1, acts[1]);
    assert PerformAll(j, acts) == PerformAll(j1, acts[1..]) == j2;
    assert Matches(j1, 0) && j2.customers == [Customer("red", 2, None)];
    RunActsOnItsListing(j, "green", [f, f], 0);
  }

  // ----- Ways that are gone to the end ------------------------------------------------

  function Resumptions(op: nat, reached: seq<Progress>): seq<Act> {
    seq(|reached|, k requires 0 <= k < |reached| => Resumes(op, reached[k]))
  }

  predicate OnItsWay(j: Journal, op: nat, back: bool) {
    op in j.movements && Live(j.movements[op].phase) && (Rank(j.movements[op].phase) >= Rank(Returning) <==> back)
  }

  /** Where a live movement leads, if it is driven on. */
  function HomeOf(m: Movement, back: bool): Customer {
    if back then Customer(m.source, m.generation + 2, None) else Customer(m.destination, m.generation + 1, None)
  }

  /** Movement `op`, begun as `m` among these customers, is on its way or has arrived. */
  ghost predicate Underway(j: Journal, op: nat, m: Movement, customers: seq<Customer>, back: bool) {
    && Consistent(j) && op in j.movements && j.movements[op] == m.(phase := j.movements[op].phase)
    && m.customer < |customers|
    && (if OnItsWay(j, op, back) then j.customers == customers
        else && j.customers == customers[m.customer := HomeOf(m, back)]
             && (if back then j.movements[op].phase == Cancelled
                 else j.movements[op].phase == Activated || j.movements[op].phase == Completed))
  }

  /** Movement `op`, begun as `m` among these customers, has come to its end. */
  predicate Arrived(j: Journal, op: nat, m: Movement, customers: seq<Customer>, back: bool) {
    match m.customer < |customers|
    case false => false
    case true =>
      && op in j.movements && j.movements[op] == m.(phase := if back then Cancelled else Completed)
      && j.customers == customers[m.customer := HomeOf(m, back)]
  }

  lemma ResumeKeepsUnderway(j: Journal, op: nat, m: Movement, customers: seq<Customer>, back: bool, reached: Progress)
    requires Underway(j, op, m, customers, back)
    ensures var j' := Perform(j, Resumes(op, reached));
            && Underway(j', op, m, customers, back)
            && (reached == Completed ==> Arrived(j', op, m, customers, back))
  {
    PerformKeepsConsistent(j, Resumes(op, reached));
    if OnItsWay(j, op, back) {
      assert Matches(j, op);
      DrivenOn(j, op, back, reached);
    } else {
      assert j.movements[op := j.movements[op]] == j.movements;
    }
  }

  lemma DrivenOn(j: Journal, op: nat, back: bool, reached: Progress)
    requires OnItsWay(j, op, back) && Matches(j, op)
    ensures var j', m := Perform(j, Resumes(op, reached)), j.movements[op];
            && op in j'.movements && j'.movements[op] == m.(phase := j'.movements[op].phase)
            && (if OnItsWay(j', op, back) then reached != Completed && j'.customers == j.customers
                else && j'.customers == j.customers[m.customer := HomeOf(m, back)]
                     && (if back then j'.movements[op].phase == Cancelled
                         else j'.movements[op].phase == Furthest(m.phase, reached)
                              && Rank(j'.movements[op].phase) >= Rank(Activated)))
  {
  }

  lemma {:induction false} ResumptionsKeepUnderway(j: Journal, op: nat, m: Movement, customers: seq<Customer>,
                                                   back: bool, reached: seq<Progress>)
    requires Underway(j, op, m, customers, back)
    ensures Underway(PerformAll(j, Resumptions(op, reached)), op, m, customers, back)
    decreases |reached|
  {
    var acts := Resumptions(op, reached);
    if reached != [] {
      assert acts[1..] == Resumptions(op, reached[1..]);
      ResumeKeepsUnderway(j, op, m, customers, back, reached[0]);
      ResumptionsKeepUnderway(Perform(j, acts[0]), op, m, customers, back, reached[1..]);
    }
  }

  /** A live movement that is resumed again and again, interrupted anywhere, and then once to the end, has
      arrived: on its destination with the next generation, or, turned back, on its source with the one after. */
  lemma DrivenMovementArrives(j: Journal, op: nat, back: bool, reached: seq<Progress>)
    requires Consistent(j) && OnItsWay(j, op, back)
    ensures Arrived(Perform(PerformAll(j, Resumptions(op, reached)), Resumes(op, Completed)), op, j.movements[op],
                    j.customers, back)
  {
    assert Matches(j, op);
    ResumptionsKeepUnderway(j, op, j.movements[op], j.customers, back, reached);
    var before := PerformAll(j, Resumptions(op, reached));
    ResumeKeepsUnderway(before, op, j.movements[op], j.customers, back, Completed);
  }

  /** An operator can turn any movement back that has not been activated. */
  lemma TurningBack(j: Journal, op: nat)
    requires Consistent(j) && op in j.movements
    ensures OnItsWay(j, op, false) ==>
              OnItsWay(Perform(j, Returns(op)), op, true) && Perform(j, Returns(op)).customers == j.customers
    ensures !OnItsWay(j, op, false) ==> Perform(j, Returns(op)) == j
  {
  }

  /** When the directory does not show what the movement began with, it gets as far as its verification, and
      nobody is moved. */
  lemma ChangedPlacementIsNotActivated(j: Journal, op: nat, reached: Progress)
    requires op in j.movements && Rank(j.movements[op].phase) <= Rank(Verified) && !Matches(j, op)
    ensures var before := j.movements[op].phase;
            var p := if Rank(reached) < Rank(before) then before
                     else if Rank(reached) < Rank(Activated) then reached else Verified;
            Perform(j, Resumes(op, reached)) == j.(movements := j.movements[op := j.movements[op].(phase := p)])
  {
  }

  /** The movement has brought the customer where it is now, and nothing holds it there. */
  predicate IsRetained(j: Journal, i: nat, op: nat) {
    && op in j.movements && j.movements[op].customer == i < |j.customers|
    && j.movements[op].phase in {Activated, Completed} && j.movements[op].source != j.movements[op].destination
    && j.customers[i].runtime == j.movements[op].destination && j.customers[i].hold == None
  }

  /** What an accepted rollback writes: its own movement, held, and the end of one not completed yet. */
  ghost predicate RollsBackAlong(j: Journal, j': Journal, i: nat, op: nat)
    requires IsRetained(j, i, op) && j.next !in j.movements
  {
    var m, c := j.movements[op], j.customers[i];
    && j'.customers == j.customers[i := c.(hold := Some(j.next))]
    && j'.movements == j.movements[op := m.(phase := if m.phase == Activated then Superseded else Completed)]
                                  [j.next := Movement(i, m.destination, m.source, c.generation, Rollback, Paused)]
    && j'.next == j.next + 1 && j'.begun == j.begun + [i]
  }

  /** A rollback begins exactly along a retained movement of the customer. */
  lemma RollBackIff(j: Journal, i: nat, op: nat)
    requires Consistent(j)
    ensures j.next !in j.movements
    ensures if IsRetained(j, i, op) then RollsBackAlong(j, Perform(j, RollsBack(i, op)), i, op)
            else Perform(j, RollsBack(i, op)) == j
  {
    if IsRetained(j, i, op) {
      assert j.movements[op := j.movements[op]] == j.movements;
    }
  }

  /** And driven on, with whatever interruptions, it brings the customer home to the runtime the retained movement
      came from, with one more generation and nobody else touched. */
  lemma RolledBackIsHome(j: Journal, i: nat, op: nat, reached: seq<Progress>)
    requires Consistent(j) && IsRetained(j, i, op)
    ensures var back := Perform(j, RollsBack(i, op));
            Perform(PerformAll(back, Resumptions(j.next, reached)), Resumes(j.next, Completed)).customers ==
            j.customers[i := Customer(j.movements[op].source, j.customers[i].generation + 1, None)]
  {
    var back := Perform(j, RollsBack(i, op));
    RollBackIff(j, i, op);
    PerformKeepsConsistent(j, RollsBack(i, op));
    DrivenMovementArrives(back, j.next, false, reached);
    var c := Customer(j.movements[op].source, j.customers[i].generation + 1, None);
    assert back.customers[i := c] == j.customers[i := c];
  }

  // ----- Where customers can be routed --------------------------------------------

  /** Every placement, and both ends of every movement, lie in `s`. */
  ghost predicate Within(j: Journal, s: set<string>) {
    && (forall i :: 0 <= i < |j.customers| ==> j.customers[i].runtime in s)
    && (forall op :: op in j.movements ==> j.movements[op].source in s && j.movements[op].destination in s)
  }

  predicate Targets(a: Act, s: set<string>) {
    match a
    case Joins(runtime) => runtime in s
    case Begins(_, destination) => destination in s
    case _ => true
  }

  lemma PerformStaysWithin(j: Journal, a: Act, s: set<string>)
    requires Within(j, s) && Targets(a, s)
    ensures Within(Perform(j, a), s)
  {
  }

  /** Somebody else places nobody, and moves nobody, outside `s`. */
  predicate ForeignWithin(o: Others, s: set<string>) {
    && (forall i :: i in o.edits ==> o.edits[i].runtime in s)
    && forall a :: a in o.acts ==> Targets(a, s)
  }

  lemma {:induction false} ActsStayWithin(j: Journal, acts: seq<Act>, s: set<string>)
    requires Within(j, s) && forall a :: a in acts ==> Targets(a, s)
    ensures Within(PerformAll(j, acts), s)
    decreases |acts|
  {
    if acts != [] {
      PerformStaysWithin(j, acts[0], s);
      ActsStayWithin(Perform(j, acts[0]), acts[1..], s);
    }
  }

  lemma OverlayStaysWithin(j: Journal, o: Others, s: set<string>)
    requires Within(j, s) && ForeignWithin(o, s)
    ensures Within(Overlay(j, o), s)
  {
    ActsStayWithin(j.(customers := Edited(j.customers, o.edits)), o.acts, s);
  }

  lemma ResumeStaysWithin(j: Journal, op: nat, f: Fate, s: set<string>)
    requires Within(j, s)
    ensures Within(ResumeAndCheck(j, op, f).0, s)
  {
    PerformStaysWithin(j, Resumes(op, f.reached), s);
  }

  lemma VisitStaysWithin(j: Journal, i: nat, c: Customer, dest: string, f: Fate, s: set<string>)
    requires Within(j, s) && dest in s && ForeignWithin(f.foreign, s)
    ensures Within(Visit(j, i, c, dest, f).0, s)
  {
    var j1 := Overlay(j, f.foreign);
    OverlayStaysWithin(j, f.foreign, s);
    if c.hold.Some? {
      ResumeStaysWithin(j1, c.hold.value, f, s);
    } else {
      var begun := Begin(j1, i, c.runtime, dest, c.generation, Move);
      if begun.Some? {
        assert Within(begun.value, s);
        ResumeStaysWithin(begun.value, j1.next, f, s);
      }
    }
  }

  /** Whoever else edits and moves meanwhile, as long as they stay within `s`, so does the run. */
  lemma {:induction false} CohortStaysWithin(j: Journal, listed: seq<Customer>, i: nat, dest: string,
                                             fates: seq<Fate>, moved: nat, s: set<string>)
    requires Within(j, s) && dest in s && i <= |listed|
    requires forall k :: 0 <= k < |fates| ==> ForeignWithin(fates[k].foreign, s)
    ensures Within(Cohort(j, listed, i, dest, fates, moved).0, s)
    decreases |listed| - i
  {
    if i < |fates| {
      OverlayStaysWithin(j, fates[i].foreign, s);
      if i < |listed| {
        VisitStaysWithin(j, i, listed[i], dest, fates[i], s);
        var (j', v) := Visit(j, i, listed[i], dest, fates[i]);
        if !v.Halted? {
          CohortStaysWithin(j', listed, i + 1, dest, fates, if v == Moved then moved + 1 else moved, s);
        }
      }
    }
  }
}
