/** The movement journal and the cohort controller that drives it.

    The journal is the store of services/platform-provisioner/src/movement.ts, which the
    deterministic authority of deploy/runtime/rollout-test.py abbreviates: a resumed movement
    advances through its phases and may be interrupted in any of them.  Activation changes the
    customer's runtime and generation and releases the hold; completion follows.  An operator may
    ask for the return of a movement that is not activated yet, or roll an activated one back. */
module Movement {
  import opened Common

  /** `Copied` is entered when the copy exists, `Prepared` (the store still says copied) when the destination
      bears its new generation, and `Restamped` (the store still says returning) when the source does. */
  datatype Phase =
    | Paused | Fenced | Copied | Prepared | Verified | Activated | Completed
    | Returning | Restamped | Cancelled | Superseded

  function Rank(p: Phase): nat {
    match p
    case Paused => 0
    case Fenced => 1
    case Copied => 2
    case Prepared => 3
    case Verified => 4
    case Activated => 5
    case Completed => 6
    case Returning => 7
    case Restamped => 8
    case Cancelled => 9
    case Superseded => 10
  }

  /** The phases a resumed movement can reach on its way to the destination. */
  type Progress = p: Phase | Rank(p) <= Rank(Completed) witness Paused

  /** The customer is held. */
  predicate Live(p: Phase) {
    Rank(p) <= Rank(Verified) || p == Returning || p == Restamped
  }

  datatype Mode = Move | Rollback
  datatype Customer = Customer(runtime: string, generation: nat, hold: Option<nat>)

  /** `generation` is the customer's when the movement began; arrival makes it the next one. */
  datatype Movement = Movement(customer: nat, source: string, destination: string, generation: nat, mode: Mode,
                               phase: Phase)

  /** `next` stands for a fresh UUID; `begun` logs the customer of every successful begin. */
  datatype Journal = Journal(customers: seq<Customer>, movements: map<nat, Movement>, next: nat, begun: seq<nat>)

  const EMPTY := Journal([], map[], 0, [])

  // ----- Authority operations ------------------------------------------------

  /** Refused (None) unless the caller's view of the placement is current, nothing holds the customer and
      the runtimes differ. */
  function Begin(j: Journal, i: nat, source: string, destination: string, generation: nat, mode: Mode)
    : Option<Journal>
  {
    if i < |j.customers| && j.customers[i] == Customer(source, generation, None) && source != destination then
      Some(Journal(j.customers[i := j.customers[i].(hold := Some(j.next))],
                   j.movements[j.next := Movement(i, source, destination, generation, mode, Paused)],
                   j.next + 1, j.begun + [i]))
    else None
  }

  function WithPhase(j: Journal, op: nat, p: Phase): Journal
    requires op in j.movements
  {
    j.(movements := j.movements[op := j.movements[op].(phase := p)])
  }

  /** The directory still shows the placement and the hold the movement began with. */
  predicate Matches(j: Journal, op: nat)
    requires op in j.movements
  {
    var m := j.movements[op];
    m.customer < |j.customers| && j.customers[m.customer] == Customer(m.source, m.generation, Some(op))
  }

  /** Publishes a placement and releases the hold. */
  function Place(j: Journal, op: nat, runtime: string, generation: nat, p: Phase): Journal
    requires op in j.movements && Matches(j, op)
  {
    WithPhase(j, op, p).(customers := j.customers[j.movements[op].customer := Customer(runtime, generation, None)])
  }

  function Furthest(p: Phase, q: Phase): Phase {
    if Rank(p) < Rank(q) then q else p
  }

  /** Resume drives a movement on, forwards or back; it is refused (None) only if there is none.  Activation
      is refused, at Verified, when the directory has changed. */
  function Resume(j: Journal, op: nat, reached: Progress): Option<Journal> {
    if op !in j.movements then None else Some(Driven(j, op, reached))
  }

  function Driven(j: Journal, op: nat, reached: Progress): Journal
    requires op in j.movements
  {
    var m := j.movements[op];
    match m.phase
    case Completed => j
    case Cancelled => j
    case Superseded => j
    case Returning => Returned(j, op, reached)
    case Restamped => Returned(j, op, reached)
    case _ => Advanced(j, op, reached)
  }

  function Advanced(j: Journal, op: nat, reached: Progress): Journal
    requires op in j.movements
  {
    var m := j.movements[op];
    var p := Furthest(m.phase, reached);
    if Rank(m.phase) < Rank(Activated) <= Rank(p) then
      if Matches(j, op) then Place(j, op, m.destination, m.generation + 1, p) else WithPhase(j, op, Verified)
    else WithPhase(j, op, p)
  }

  /** The way back skips the generation that the destination may already bear. */
  function Returned(j: Journal, op: nat, reached: Progress): Journal
    requires op in j.movements
  {
    var m := j.movements[op];
    if Rank(reached) < Rank(Prepared) then j
    else if reached == Completed && Matches(j, op) then Place(j, op, m.source, m.generation + 2, Cancelled)
    else WithPhase(j, op, Restamped)
  }

  /** Asked for before activation only. */
  function RequestReturn(j: Journal, op: nat): Option<Journal> {
    if op in j.movements && Rank(j.movements[op].phase) <= Rank(Verified) then Some(WithPhase(j, op, Returning))
    else None
  }

  /** A rollback is a movement of its own, back along a retained one that has arrived; one that is not
      completed yet is superseded. */
  function RollBack(j: Journal, i: nat, op: nat): Option<Journal> {
    if op in j.movements && i == j.movements[op].customer < |j.customers|
       && (j.movements[op].phase == Activated || j.movements[op].phase == Completed)
    then
      var m := j.movements[op];
      var j' := if m.phase == Activated then WithPhase(j, op, Superseded) else j;
      Begin(j', i, m.destination, m.source, j.customers[i].generation, Rollback)
    else None
  }

  function SignUp(j: Journal, runtime: string): Journal {
    j.(customers := j.customers + [Customer(runtime, 1, None)])
  }

  /** A later purchase or revocation gives a customer that is not held its next generation, where it is. */
  function Renew(j: Journal, i: nat): Option<Journal> {
    if i < |j.customers| && j.customers[i].hold.None? then
      Some(j.(customers := j.customers[i := j.customers[i].(generation := j.customers[i].generation + 1)]))
    else None
  }

  /** Everything that can happen to the journal. */
  datatype Act =
    | Joins(runtime: string)
    | Renews(i: nat)
    | Begins(i: nat, destination: string)
    | Resumes(op: nat, reached: Progress)
    | RollsBack(i: nat, op: nat)
    | Returns(op: nat)

  function Perform(j: Journal, a: Act): Journal {
    var r := match a
      case Joins(runtime) => Some(SignUp(j, runtime))
      case Renews(i) => Renew(j, i)
      case Begins(i, destination) =>
        if |j.customers| <= i then None
        else Begin(j, i, j.customers[i].runtime, destination, j.customers[i].generation, Move)
      case Resumes(op, reached) => Resume(j, op, reached)
      case RollsBack(i, op) => RollBack(j, i, op)
      case Returns(op) => RequestReturn(j, op);
    if r.Some? then r.value else j
  }

  function PerformAll(j: Journal, acts: seq<Act>): Journal
    decreases |acts|
  {
    if acts == [] then j else PerformAll(Perform(j, acts[0]), acts[1..])
  }

  // ----- The controller ------------------------------------------------------

  datatype Reply = Answered | LostRequest | LostAnswer

  /** What somebody else does meanwhile: records edited by hand, then operations of the authority. */
  datatype Others = Others(edits: map<nat, Customer>, acts: seq<Act>)

  const NOBODY := Others(map[], [])

  /** What the environment does to the controller's calls for one customer.  A
      call may be lost before or after taking effect, a resume may stop in any
      phase, and `foreign` is what somebody else does just before. */
  datatype Fate = Fate(foreign: Others, statusAnswered: bool, begin: Reply, reached: Progress, resumeAnswered: bool)

  datatype Reason = Interrupted | Conflict | Incomplete | Refused | PlacementChanged
  datatype Outcome = Done(moved: nat) | Stopped(reason: Reason)
  datatype Visited = Skipped | Moved | Halted(reason: Reason)

  function Edited(customers: seq<Customer>, edits: map<nat, Customer>): seq<Customer> {
    seq(|customers|, i requires 0 <= i < |customers| => if i in edits then edits[i] else customers[i])
  }

  function Overlay(j: Journal, foreign: Others): Journal {
    PerformAll(j.(customers := Edited(j.customers, foreign.edits)), foreign.acts)
  }

  function ResumeAndCheck(j: Journal, op: nat, f: Fate): (Journal, Visited) {
    match Resume(j, op, f.reached)
    case None => (j, Halted(Refused))
    case Some(j') =>
      (j', if !f.resumeAnswered then Halted(Interrupted)
           else if j'.movements[op].phase != Completed then Halted(Incomplete)
           else Moved)
  }

  /** One iteration of the cohort loop; `c` is the customer as first listed. */
  function Visit(j0: Journal, i: nat, c: Customer, dest: string, f: Fate): (Journal, Visited) {
    var j := Overlay(j0, f.foreign);
    match c.hold
    case Some(op) =>
      if !f.statusAnswered then (j, Halted(Interrupted))
      else if op !in j.movements then (j, Halted(Refused))
      else if j.movements[op].destination != dest || j.movements[op].mode != Move then (j, Halted(Conflict))
      else ResumeAndCheck(j, op, f)
    case None =>
      if c.runtime == dest then (j, Skipped)
      else if f.begin == LostRequest then (j, Halted(Interrupted))
      else match Begin(j, i, c.runtime, dest, c.generation, Move)
        case None => (j, Halted(Refused))
        case Some(j') =>
          if f.begin == LostAnswer then (j', Halted(Interrupted)) else ResumeAndCheck(j', j.next, f)
  }

  predicate AllPlaced(j: Journal, dest: string) {
    forall i :: 0 <= i < |j.customers| ==> j.customers[i].runtime == dest && j.customers[i].hold == None
  }

  /** The loop from position `i`; running out of fates is a crash of the controller. */
  function Cohort(j: Journal, listed: seq<Customer>, i: nat, dest: string, fates: seq<Fate>, moved: nat)
    : (Journal, Outcome)
    requires i <= |listed|
    decreases |listed| - i
  {
    if |fates| <= i then (j, Stopped(Interrupted))
    else if i == |listed| then
      var last := Overlay(j, fates[i].foreign);
      (last, if AllPlaced(last, dest) then Done(moved) else Stopped(PlacementChanged))
    else
      var (j', v) := Visit(j, i, listed[i], dest, fates[i]);
      match v
      case Halted(reason) => (j', Stopped(reason))
      case Skipped => Cohort(j', listed, i + 1, dest, fates, moved)
      case Moved => Cohort(j', listed, i + 1, dest, fates, moved + 1)
  }

  function Run(j: Journal, dest: string, fates: seq<Fate>): (Journal, Outcome) {
    Cohort(j, j.customers, 0, dest, fates, 0)
  }

  function Runs(j: Journal, dest: string, schedules: seq<seq<Fate>>): Journal
    decreases |schedules|
  {
    if schedules == [] then j else Runs(Run(j, dest, schedules[0]).0, dest, schedules[1..])
  }

  /** The authority of the rollout contract, updated in place. */
  class Authority {
    var customers: seq<Customer>
    var movements: map<nat, Movement>
    var next: nat
    var begun: seq<nat>

    constructor ()
      ensures State() == EMPTY
    {
      customers, movements, next, begun := [], map[], 0, [];
    }

    function State(): Journal
      reads this
    {
      Journal(customers, movements, next, begun)
    }

    method Interfere(foreign: Others)
      modifies this
      ensures State() == Overlay(old(State()), foreign)
    {
      customers := Edited(customers, foreign.edits);
      PerformActs(foreign.acts);
    }

    method PerformActs(acts: seq<Act>)
      modifies this
      ensures State() == PerformAll(old(State()), acts)
    {
      ghost var end := PerformAll(State(), acts);
      for k := 0 to |acts|
        invariant PerformAll(State(), acts[k..]) == end
      {
        assert acts[k..][1..] == acts[k + 1..];
        PerformAct(acts[k]);
      }
    }

    method PerformAct(a: Act)
      modifies this
      ensures State() == Perform(old(State()), a)
    {
      var j := Perform(State(), a);
      customers, movements, next, begun := j.customers, j.movements, j.next, j.begun;
    }

    method BeginMovement(i: nat, source: string, destination: string, generation: nat, mode: Mode)
      returns (op: Option<nat>)
      modifies this
      ensures var r := Begin(old(State()), i, source, destination, generation, mode);
              if r.Some? then op == Some(old(next)) && State() == r.value else op == None && State() == old(State())
    {
      if i < |customers| && customers[i] == Customer(source, generation, None) && source != destination {
        op := Some(next);
        customers := customers[i := customers[i].(hold := op)];
        movements := movements[next := Movement(i, source, destination, generation, mode, Paused)];
        begun, next := begun + [i], next + 1;
      } else {
        op := None;
      }
    }

    method ResumeMovement(op: nat, reached: Progress) returns (phase: Option<Phase>)
      modifies this
      ensures var r := Resume(old(State()), op, reached);
              if r.Some? then State() == r.value && op in movements && phase == Some(movements[op].phase)
              else phase == None && State() == old(State())
    {
      if op !in movements {
        return None;
      }
      var m := movements[op];
      if m.phase == Completed || m.phase == Cancelled || m.phase == Superseded {
        return Some(m.phase);
      }
      if m.phase == Returning || m.phase == Restamped {
        ReturnMovement(op, reached);
      } else {
        AdvanceMovement(op, reached);
      }
      phase := Some(movements[op].phase);
    }

    method AdvanceMovement(op: nat, reached: Progress)
      requires op in movements && Rank(movements[op].phase) <= Rank(Activated)
      modifies this`customers, this`movements
      ensures State() == Advanced(old(State()), op, reached)
    {
      var m := movements[op];
      var p := Furthest(m.phase, reached);
      if Rank(m.phase) < Rank(Activated) <= Rank(p) {
        if Matches(State(), op) {
          customers := customers[m.customer := Customer(m.destination, m.generation + 1, None)];
        } else {
          p := Verified;
        }
      }
      movements := movements[op := m.(phase := p)];
    }

    method ReturnMovement(op: nat, reached: Progress)
      requires op in movements
      modifies this`customers, this`movements
      ensures State() == Returned(old(State()), op, reached)
    {
      if Rank(reached) < Rank(Prepared) {
        return;
      }
      var m := movements[op];
      var p := Restamped;
      if reached == Completed && Matches(State(), op) {
        customers := customers[m.customer := Customer(m.source, m.generation + 2, None)];
        p := Cancelled;
      }
      movements := movements[op := m.(phase := p)];
    }
  }

  method ResumeChecked(cli: Authority, op: nat, f: Fate) returns (v: Visited)
    modifies cli
    ensures (cli.State(), v) == ResumeAndCheck(old(cli.State()), op, f)
  {
    var phase := cli.ResumeMovement(op, f.reached);
    if phase.None? {
      return Halted(Refused);
    }
    if !f.resumeAnswered {
      return Halted(Interrupted);
    }
    v := if phase.value != Completed then Halted(Incomplete) else Moved;
  }

  /** Retries the same database operations; never infers a rollback. */
  method MoveCustomers(cli: Authority, destination: string, fates: seq<Fate>) returns (o: Outcome)
    modifies cli
    ensures (cli.State(), o) == Run(old(cli.State()), destination, fates)
  {
    var customers := cli.customers;
    var moved: nat := 0;
    ghost var start := cli.State();
    for i := 0 to |customers|
      invariant Run(start, destination, fates) == Cohort(cli.State(), customers, i, destination, fates, moved)
    {
      if |fates| <= i {
        return Stopped(Interrupted);
      }
      var customer, f := customers[i], fates[i];
      cli.Interfere(f.foreign);
      var v: Visited;
      if customer.hold.Some? {
        var op := customer.hold.value;
        if !f.statusAnswered {
          return Stopped(Interrupted);
        }
        if op !in cli.movements {
          return Stopped(Refused);
        }
        if cli.movements[op].destination != destination || cli.movements[op].mode != Move {
          return Stopped(Conflict);
        }
        v := ResumeChecked(cli, op, f);
      } else if customer.runtime == destination {
        continue;
      } else {
        if f.begin == LostRequest {
          return Stopped(Interrupted);
        }
        var op := cli.BeginMovement(i, customer.runtime, destination, customer.generation, Move);
        if op.None? {
          return Stopped(Refused);
        }
        if f.begin == LostAnswer {
          return Stopped(Interrupted);
        }
        v := ResumeChecked(cli, op.value, f);
      }
      if v.Halted? {
        return Stopped(v.reason);
      }
      moved := moved + 1;
    }
    if |fates| <= |customers| {
      return Stopped(Interrupted);
    }
    cli.Interfere(fates[|customers|].foreign);
    if AllPlaced(cli.State(), destination) {
      return Done(moved);
    }
    return Stopped(PlacementChanged);
  }
}
