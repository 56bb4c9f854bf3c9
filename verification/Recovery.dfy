/** Admission of a restored fleet: deploy/runtime/recover.py compares the restored
    directory with the identity recorded in every restored customer database. */
module Recovery {
  import opened Common
  import opened Movement
  import opened MovementLaws

  /** A directory row, and the identity row of a customer database. */
  datatype Row = Row(id: string, database: string, runtime: string, generation: nat, held: bool)
  datatype Identity = Identity(environment: string, generation: nat)
  datatype Copy = Copy(identity: Identity, executing: bool)

  datatype Problem = UnfinishedMovement | UnretainedRuntime | CopyDiffers

  function ProblemOf(c: Row, identities: map<(string, string), Identity>, runtimes: set<string>): Option<Problem> {
    if c.held then Some(UnfinishedMovement)
    else if c.runtime !in runtimes then Some(UnretainedRuntime)
    else if (c.runtime, c.database) !in identities
            || identities[(c.runtime, c.database)] != Identity(c.id, c.generation) then Some(CopyDiffers)
    else None
  }

  /** Reports the first inadmissible placement, or admits the whole set. */
  method ValidatePlacement(customers: seq<Row>, identities: map<(string, string), Identity>, runtimes: set<string>)
    returns (problem: Option<Problem>)
    ensures problem.None? <==> forall k :: 0 <= k < |customers| ==> ProblemOf(customers[k], identities, runtimes).None?
    ensures problem.Some? ==>
              exists k :: && 0 <= k < |customers| && ProblemOf(customers[k], identities, runtimes) == problem
                          && forall i :: 0 <= i < k ==> ProblemOf(customers[i], identities, runtimes).None?
  {
    for k := 0 to |customers|
      invariant forall i :: 0 <= i < k ==> ProblemOf(customers[i], identities, runtimes).None?
    {
      var customer := customers[k];
      if customer.held {
        return Some(UnfinishedMovement);
      }
      if customer.runtime !in runtimes {
        return Some(UnretainedRuntime);
      }
      var key := (customer.runtime, customer.database);
      if key !in identities || identities[key].environment != customer.id
         || identities[key].generation != customer.generation {
        return Some(CopyDiffers);
      }
    }
    return None;
  }

  /** What collecting yields: the identity of each copy on the given runtimes. */
  function Collected(copies: map<(string, string), Copy>, runtimes: set<string>): map<(string, string), Identity> {
    map key | key in copies && key.0 in runtimes :: copies[key].identity
  }

  /** The databases that each cluster lists. */
  ghost predicate Lists(databases: map<string, seq<string>>, copies: map<(string, string), Copy>) {
    forall r, d :: (r, d) in copies <==> r in databases && d in databases[r]
  }

  function Elements(s: seq<string>): set<string> {
    set r | r in s
  }

  /** The restored database clusters, by runtime and database name. */
  class Clusters {
    var copies: map<(string, string), Copy>

    constructor (copies: map<(string, string), Copy>)
      ensures this.copies == copies
    {
      this.copies := copies;
    }

    /** Reads the identity of every restored customer database and switches its execution off. */
    method CollectIdentities(runtimes: seq<string>, databases: map<string, seq<string>>)
      returns (identities: map<(string, string), Identity>)
      requires Lists(databases, copies)
      modifies this
      ensures identities == Collected(old(copies), Elements(runtimes))
      ensures copies.Keys == old(copies).Keys
      ensures forall key :: key in copies ==>
                && copies[key].identity == old(copies)[key].identity
                && copies[key].executing == (old(copies)[key].executing && key.0 !in runtimes)
    {
      identities := map[];
      for i := 0 to |runtimes|
        invariant copies.Keys == old(copies).Keys
        invariant forall r, d :: (r, d) in identities <==> r in runtimes[..i] && (r, d) in copies
        invariant forall key :: key in identities ==> key in old(copies) && identities[key] == old(copies)[key].identity
        invariant forall key :: key in copies ==>
                    && copies[key].identity == old(copies)[key].identity
                    && copies[key].executing == (old(copies)[key].executing && key.0 !in runtimes[..i])
      {
        var runtime := runtimes[i];
        if runtime in databases {
          var names := databases[runtime];
          for k := 0 to |names|
            invariant copies.Keys == old(copies).Keys
            invariant forall r, d :: (r, d) in identities <==>
                        (r in runtimes[..i] && (r, d) in copies) || (r == runtime && d in names[..k])
            invariant forall key :: key in identities ==>
                        key in old(copies) && identities[key] == old(copies)[key].identity
            invariant forall key :: key in copies ==>
                        && copies[key].identity == old(copies)[key].identity
                        && copies[key].executing == (old(copies)[key].executing && key.0 !in runtimes[..i]
                                                     && !(key.0 == runtime && key.1 in names[..k]))
          {
            var key := (runtime, names[k]);
            assert names[k] in databases[runtime];
            identities := identities[key := copies[key].identity];
            copies := copies[key := copies[key].(executing := false)];
          }
          assert names[..|names|] == names;
        }
        assert runtimes[..i + 1] == runtimes[..i] + [runtime];
      }
      assert runtimes[..|runtimes|] == runtimes;
    }

    /** The restore of every retained runtime and the comparison that ends it, on a backup of the history
        `events`.  The ghost arguments say what was backed up; none of it is looked at. */
    method Admit(runtimes: seq<string>, databases: map<string, seq<string>>, directory: seq<Row>,
                 ghost events: seq<Event>, ghost accounts: seq<Account>, ghost b: Backup)
      returns (problem: Option<Problem>)
      requires WellFormed(events, accounts, b) && Elements(runtimes) == b.takenAt.Keys
      requires Collected(copies, b.takenAt.Keys) == Stamps(events, accounts, b) && Lists(databases, copies)
      requires directory == Directory(events, accounts, b)
      modifies this
      ensures problem.None? <==>
                forall i :: 0 <= i < |directory| ==> !directory[i].held && FromRecordedStay(events, b, i)
      ensures forall key :: key in copies && key.0 in b.takenAt ==> !copies[key].executing
    {
      var identities := CollectIdentities(runtimes, databases);
      problem := ValidatePlacement(directory, identities, Elements(runtimes));
      AdmissionIsExact(events, accounts, b);
    }
  }

  // ----- Who stamped a copy, and who set a record ---------------------------------------

  /** Why the control plane gave a customer a generation. */
  datatype Cause = SignedUp | Renewed | Arrival(op: nat) | WayBack(op: nat)
  datatype Grant = Grant(customer: nat, runtime: string, generation: nat, cause: Cause)

  /** The journal together with every generation ever given, in order.  `stays` tells which of these the
      directory shows for a customer, `copies` which of them a customer's copy on a runtime was last stamped
      with, and `pending` which of them a movement is working towards.  All of it is provenance: nothing in
      the repository stores it. */
  datatype World = World(journal: Journal, ledger: seq<Grant>, stays: seq<nat>, copies: map<(string, nat), nat>,
                         pending: map<nat, nat>)

  /** An operation on the journal, or the provisioner stamping a customer's copy. */
  datatype Event = Does(a: Act) | Provisions(i: nat)

  const START := World(EMPTY, [], [], map[], map[])

  function SignsUp(w: World, j: Journal, runtime: string): World {
    World(j, w.ledger + [Grant(|w.stays|, runtime, 1, SignedUp)], w.stays + [|w.ledger|], w.copies, w.pending)
  }

  predicate Free(w: World, i: nat) {
    i < |w.stays| && i < |w.journal.customers| && w.journal.customers[i].hold.None?
  }

  function RenewsOne(w: World, j: Journal, i: nat): World {
    if Free(w, i) then
      var c := w.journal.customers[i];
      var g := Grant(i, c.runtime, c.generation + 1, Renewed);
      World(j, w.ledger + [g], w.stays[i := |w.ledger|], w.copies, w.pending)
    else w
  }

  function ArrivalOf(j: Journal, op: nat): Grant
    requires op in j.movements
  {
    var m := j.movements[op];
    Grant(m.customer, m.destination, m.generation + 1, Arrival(op))
  }

  function WayBackOf(j: Journal, op: nat): Grant
    requires op in j.movements
  {
    var m := j.movements[op];
    Grant(m.customer, m.source, m.generation + 2, WayBack(op))
  }

  /** What a movement works towards. */
  function Aim(j: Journal, op: nat): Grant
    requires op in j.movements
  {
    if Rank(j.movements[op].phase) >= Rank(Returning) then WayBackOf(j, op) else ArrivalOf(j, op)
  }

  /** Movement `op` gets a generation to work towards when it begins, and another when it turns back. */
  function AimsAt(w: World, j: Journal, op: nat): World
    requires op in j.movements
  {
    World(j, w.ledger + [Aim(j, op)], w.stays, w.copies, w.pending[op := |w.ledger|])
  }

  function Stamped(copies: map<(string, nat), nat>, runtime: string, i: nat, k: nat): map<(string, nat), nat> {
    if (runtime, i) in copies then copies[(runtime, i) := k] else copies
  }

  /** A restored database carries the stamp it was dumped with. */
  function Restored(copies: map<(string, nat), nat>, source: string, destination: string, i: nat)
    : map<(string, nat), nat>
  {
    if (source, i) in copies then copies[(destination, i) := copies[(source, i)]] else copies
  }

  predicate Crosses(from: Phase, to: Phase, p: Phase) {
    Rank(from) < Rank(p) <= Rank(to)
  }

  /** What driving a movement from one phase to another does to the copies: a move restores the source's
      on the destination, which is stamped before it is verified; a return stamps the source's anew. */
  function Handled(copies: map<(string, nat), nat>, m: Movement, p: Phase, k: nat): map<(string, nat), nat> {
    if Rank(p) <= Rank(Completed) then
      var c := if m.mode == Move && Crosses(m.phase, p, Copied)
               then Restored(copies, m.source, m.destination, m.customer) else copies;
      if Crosses(m.phase, p, Prepared) then Stamped(c, m.destination, m.customer, k) else c
    else if Rank(p) <= Rank(Cancelled) && Crosses(m.phase, p, Restamped) then Stamped(copies, m.source, m.customer, k)
    else copies
  }

  function Resumed(w: World, j: Journal, op: nat): World
    requires op in w.journal.movements && op in j.movements
  {
    var m, p := w.journal.movements[op], j.movements[op].phase;
    if op in w.pending && m.customer < |w.stays| && Live(m.phase) then
      World(j, w.ledger, if Live(p) then w.stays else w.stays[m.customer := w.pending[op]],
            Handled(w.copies, m, p, w.pending[op]), w.pending)
    else w.(journal := j)
  }

  function Followed(w: World, a: Act, j: Journal): World {
    match a
    case Joins(runtime) => SignsUp(w, j, runtime)
    case Renews(i) => RenewsOne(w, j, i)
    case Begins(_, _) => if w.journal.next in j.movements then AimsAt(w, j, w.journal.next) else w.(journal := j)
    case RollsBack(_, _) => if w.journal.next in j.movements then AimsAt(w, j, w.journal.next) else w.(journal := j)
    case Returns(op) => if j == w.journal || op !in j.movements then w else AimsAt(w, j, op)
    case Resumes(op, _) =>
      if op in w.journal.movements && op in j.movements then Resumed(w, j, op) else w.(journal := j)
  }

  function Step(w: World, e: Event): World {
    match e
    case Does(a) => Followed(w, a, Perform(w.journal, a))
    case Provisions(i) =>
      if Free(w, i) then w.(copies := w.copies[(w.journal.customers[i].runtime, i) := w.stays[i]]) else w
  }

  /** The world after the first n events. */
  function At(events: seq<Event>, n: nat): World
    requires n <= |events|
  {
    if n == 0 then START else Step(At(events, n - 1), events[n - 1])
  }

  // ----- What holds in every world ------------------------------------------------------

  /** The directory's record of customer i is what its grant says. */
  predicate Recorded(w: World, i: nat) {
    && i < |w.stays| && w.stays[i] < |w.ledger| && i < |w.journal.customers|
    && var g, c := w.ledger[w.stays[i]], w.journal.customers[i];
       g.customer == i && g.runtime == c.runtime && g.generation == c.generation
  }

  /** Only the movement that holds a customer has been given generations beyond the recorded one. */
  predicate Issued(w: World, k: nat)
    requires k < |w.ledger|
  {
    var g := w.ledger[k];
    && g.customer < |w.stays| == |w.journal.customers|
    && (k > w.stays[g.customer] ==> Pending(w.journal, g, w.journal.customers[g.customer].hold))
  }

  predicate Pending(j: Journal, g: Grant, hold: Option<nat>) {
    match hold
    case None => false
    case Some(op) => op in j.movements && (g == ArrivalOf(j, op) || g == Aim(j, op))
  }

  /** A copy bears a generation of its customer, and one beyond the recorded one only if the movement that
      holds the customer has prepared it. */
  predicate CopyOk(w: World, key: (string, nat))
    requires key in w.copies
  {
    MayBear(w, key, w.copies[key])
  }

  predicate MayBear(w: World, key: (string, nat), k: nat) {
    var i := key.1;
    && k < |w.ledger| && w.ledger[k].customer == i < |w.stays| == |w.journal.customers|
    && (k > w.stays[i] ==>
          w.ledger[k].runtime == key.0 && PreparedBy(w.journal, w.journal.customers[i].hold))
  }

  predicate PreparedBy(j: Journal, hold: Option<nat>) {
    match hold
    case None => false
    case Some(op) => op in j.movements && Rank(j.movements[op].phase) >= Rank(Prepared)
  }

  /** A live movement has its aim ahead of it. */
  predicate Aims(w: World, op: nat)
    requires op in w.journal.movements
  {
    var m := w.journal.movements[op];
    && m.source != m.destination && m.customer < |w.stays|
    && op in w.pending && w.stays[m.customer] < w.pending[op] < |w.ledger|
    && w.ledger[w.pending[op]] == Aim(w.journal, op)
  }

  predicate Increasing(ledger: seq<Grant>) {
    forall a, b :: 0 <= a < b < |ledger| && ledger[a].customer == ledger[b].customer ==>
      ledger[a].generation < ledger[b].generation
  }

  ghost predicate Sound(w: World) {
    && Consistent(w.journal) && |w.stays| == |w.journal.customers| && Increasing(w.ledger)
    && (forall i :: 0 <= i < |w.stays| ==> Recorded(w, i))
    && (forall k :: 0 <= k < |w.ledger| ==> Issued(w, k))
    && (forall key :: key in w.copies ==> CopyOk(w, key))
    && (forall op :: op in w.journal.movements && Live(w.journal.movements[op].phase) ==> Aims(w, op))
  }

  /** What is recorded, given and stamped never gets older. */
  predicate Later(w: World, w': World) {
    && w.ledger <= w'.ledger && |w.stays| <= |w'.stays|
    && forall i :: 0 <= i < |w.stays| ==> w.stays[i] <= w'.stays[i]
  }

  lemma AppendIncreasing(ledger: seq<Grant>, g: Grant)
    requires Increasing(ledger)
    requires forall k :: 0 <= k < |ledger| && ledger[k].customer == g.customer ==> ledger[k].generation < g.generation
    ensures Increasing(ledger + [g])
  {
  }

  /** Of a free customer, nothing beyond the record has been given. */
  lemma FreeIsLatest(w: World, i: nat, k: nat)
    requires Sound(w) && Free(w, i) && k < |w.ledger| && w.ledger[k].customer == i
    ensures k <= w.stays[i] && w.ledger[k].generation <= w.journal.customers[i].generation
  {
    assert Issued(w, k) && Recorded(w, i);
  }

  lemma ProvisionIsSound(w: World, i: nat)
    requires Sound(w)
    ensures Sound(Step(w, Provisions(i))) && Later(w, Step(w, Provisions(i)))
  {
    var w' := Step(w, Provisions(i));
    forall key | key in w'.copies ensures CopyOk(w', key) {
      assert Free(w, i) ==> Recorded(w, i);
      assert key in w.copies ==> CopyOk(w, key);
    }
    KeepsRecords(w, w');
  }

  /** Where only the copies differ, everything else is as it was. */
  lemma KeepsRecords(w: World, w': World)
    requires Sound(w) && w' == w.(copies := w'.copies)
    ensures forall i :: 0 <= i < |w'.stays| ==> Recorded(w', i)
    ensures forall k :: 0 <= k < |w'.ledger| ==> Issued(w', k)
    ensures forall op :: op in w'.journal.movements && Live(w'.journal.movements[op].phase) ==> Aims(w', op)
  {
    forall i | 0 <= i < |w'.stays| ensures Recorded(w', i) { assert Recorded(w, i); }
    forall k | 0 <= k < |w'.ledger| ensures Issued(w', k) { assert Issued(w, k); }
    forall op | op in w'.journal.movements && Live(w'.journal.movements[op].phase) ensures Aims(w', op) {
      assert Aims(w, op);
    }
  }

  lemma SignUpIsSound(w: World, runtime: string)
    requires Sound(w)
    ensures var w' := Step(w, Does(Joins(runtime))); Sound(w') && Later(w, w')
  {
    var w' := Step(w, Does(Joins(runtime)));
    PerformKeepsConsistent(w.journal, Joins(runtime));
    forall k | 0 <= k < |w.ledger| ensures w.ledger[k].customer < |w.stays| { assert Issued(w, k); }
    AppendIncreasing(w.ledger, Grant(|w.stays|, runtime, 1, SignedUp));
    forall i | 0 <= i < |w'.stays| ensures Recorded(w', i) { assert i < |w.stays| ==> Recorded(w, i); }
    forall k | 0 <= k < |w'.ledger| ensures Issued(w', k) { assert k < |w.ledger| ==> Issued(w, k); }
    forall key | key in w'.copies ensures CopyOk(w', key) { assert CopyOk(w, key); }
    forall op | op in w'.journal.movements && Live(w'.journal.movements[op].phase) ensures Aims(w', op) {
      assert Aims(w, op);
    }
  }

  lemma RenewalIsSound(w: World, i: nat)
    requires Sound(w)
    ensures var w' := Step(w, Does(Renews(i))); Sound(w') && Later(w, w')
  {
    var w' := Step(w, Does(Renews(i)));
    PerformKeepsConsistent(w.journal, Renews(i));
    if Free(w, i) {
      var c := w.journal.customers[i];
      forall k | 0 <= k < |w.ledger| && w.ledger[k].customer == i ensures w.ledger[k].generation <= c.generation {
        FreeIsLatest(w, i, k);
      }
      assert Recorded(w, i);
      AppendIncreasing(w.ledger, Grant(i, c.runtime, c.generation + 1, Renewed));
      forall m | 0 <= m < |w'.stays| ensures Recorded(w', m) { assert Recorded(w, m); }
      forall k | 0 <= k < |w'.ledger| ensures Issued(w', k) { assert k < |w.ledger| ==> Issued(w, k); }
      forall key | key in w'.copies ensures CopyOk(w', key) { assert CopyOk(w, key); }
      forall op | op in w'.journal.movements && Live(w'.journal.movements[op].phase) ensures Aims(w', op) {
        assert Matches(w.journal, op) && Aims(w, op);
      }
    }
  }

  /** The journal after movement `op` of a customer held by nothing before has begun. */
  predicate Began(j: Journal, j': Journal, op: nat) {
    && op == j.next && op in j'.movements && j'.movements[op].phase == Paused
    && var m := j'.movements[op];
       && m.customer < |j.customers| == |j'.customers| && m.source != m.destination
       && j.customers[m.customer] == Customer(m.source, m.generation, None)
       && j'.customers[m.customer].hold == Some(op)
       && (forall i :: 0 <= i < |j.customers| ==>
             && j'.customers[i].runtime == j.customers[i].runtime
             && j'.customers[i].generation == j.customers[i].generation)
       && (forall i :: 0 <= i < |j.customers| && i != m.customer ==> j'.customers[i] == j.customers[i])
       && (forall o :: o in j'.movements && o != op ==>
             && o in j.movements && Live(j'.movements[o].phase) == Live(j.movements[o].phase)
             && (Live(j.movements[o].phase) ==> j'.movements[o] == j.movements[o]))
       && (forall o :: o in j.movements ==> o in j'.movements)
  }

  lemma BeginsOrNot(j: Journal, a: Act)
    requires Consistent(j) && (a.Begins? || a.RollsBack?)
    ensures var j' := Perform(j, a); if j.next in j'.movements then Began(j, j', j.next) else j' == j
  {
  }

  lemma BeginIsSound(w: World, a: Act)
    requires Sound(w) && (a.Begins? || a.RollsBack?)
    ensures var w' := Step(w, Does(a)); Sound(w') && Later(w, w')
  {
    var w', op := Step(w, Does(a)), w.journal.next;
    PerformKeepsConsistent(w.journal, a);
    BeginsOrNot(w.journal, a);
    if op in w'.journal.movements {
      BegunIsSound(w, w', op);
    }
  }

  lemma BegunIsSound(w: World, w': World, op: nat)
    requires Sound(w) && Consistent(w'.journal) && Began(w.journal, w'.journal, op) && w' == AimsAt(w, w'.journal, op)
    ensures Sound(w') && Later(w, w')
  {
    var m := w'.journal.movements[op];
    forall k | 0 <= k < |w.ledger| && w.ledger[k].customer == m.customer
      ensures w.ledger[k].generation <= m.generation
    {
      FreeIsLatest(w, m.customer, k);
    }
    AppendIncreasing(w.ledger, ArrivalOf(w'.journal, op));
    forall i | 0 <= i < |w'.stays| ensures Recorded(w', i) { assert Recorded(w, i); }
    forall k | 0 <= k < |w'.ledger| ensures Issued(w', k) {
      if k < |w.ledger| {
        assert Issued(w, k);
        StaysPending(w, w', op, k);
      }
    }
    forall key | key in w'.copies ensures CopyOk(w', key) {
      BegunKeepsCopy(w, w', op, key);
    }
    forall o | o in w'.journal.movements && Live(w'.journal.movements[o].phase) ensures Aims(w', o) {
      if o != op {
        assert Aims(w, o);
      } else {
        assert Recorded(w, m.customer);
      }
    }
  }

  lemma BegunKeepsCopy(w: World, w': World, op: nat, key: (string, nat))
    requires Sound(w) && Began(w.journal, w'.journal, op) && w' == AimsAt(w, w'.journal, op) && key in w.copies
    ensures CopyOk(w', key)
  {
    assert CopyOk(w, key);
    var i := key.1;
    if Held(w.journal, i) {
      assert HoldIsLive(w.journal, i);
    }
  }

  lemma StaysPending(w: World, w': World, op: nat, k: nat)
    requires Sound(w) && Began(w.journal, w'.journal, op) && k < |w.ledger| && w'.stays == w.stays
    ensures var g := w.ledger[k];
            && g.customer < |w.stays|
            && (k > w.stays[g.customer] ==> g.customer < |w'.journal.customers|
                                            && Pending(w'.journal, g, w'.journal.customers[g.customer].hold))
  {
    assert Issued(w, k);
    var i := w.ledger[k].customer;
    if k > w.stays[i] {
      assert Held(w.journal, i) && HoldIsLive(w.journal, i);
    }
  }

  lemma ReturnIsSound(w: World, op: nat)
    requires Sound(w)
    ensures var w' := Step(w, Does(Returns(op))); Sound(w') && Later(w, w')
  {
    PerformKeepsConsistent(w.journal, Returns(op));
    var j := w.journal;
    if op in j.movements && Rank(j.movements[op].phase) <= Rank(Verified) {
      TurnedIsSound(w, Step(w, Does(Returns(op))), op);
    }
  }

  lemma TurnedIsSound(w: World, w': World, op: nat)
    requires Sound(w) && op in w.journal.movements && Rank(w.journal.movements[op].phase) <= Rank(Verified)
    requires w'.journal == WithPhase(w.journal, op, Returning) && Consistent(w'.journal)
    requires w' == AimsAt(w, w'.journal, op)
    ensures Sound(w') && Later(w, w')
  {
    var m := w.journal.movements[op];
    LiveIsHeld(w.journal, op);
    assert Matches(w.journal, op) && Aims(w, op) && Recorded(w, m.customer);
    forall k | 0 <= k < |w.ledger| && w.ledger[k].customer == m.customer
      ensures w.ledger[k].generation < m.generation + 2
    {
      assert Issued(w, k);
    }
    AppendIncreasing(w.ledger, WayBackOf(w'.journal, op));
    forall i | 0 <= i < |w'.stays| ensures Recorded(w', i) { assert Recorded(w, i); }
    forall k | 0 <= k < |w'.ledger| ensures Issued(w', k) {
      TurnedKeepsIssued(w, w', op, k);
    }
    forall key | key in w'.copies ensures CopyOk(w', key) {
      TurnedKeepsCopy(w, w', op, key);
    }
    forall o | o in w'.journal.movements && Live(w'.journal.movements[o].phase) ensures Aims(w', o) {
      assert Aims(w, o);
    }
  }

  lemma TurnedKeepsIssued(w: World, w': World, op: nat, k: nat)
    requires Sound(w) && op in w.journal.movements && Rank(w.journal.movements[op].phase) <= Rank(Verified)
    requires w'.journal == WithPhase(w.journal, op, Returning)
    requires w' == AimsAt(w, w'.journal, op) && k < |w'.ledger|
    ensures Issued(w', k)
  {
    LiveIsHeld(w.journal, op);
    assert k < |w.ledger| ==> Issued(w, k);
    assert Aims(w, op);
  }

  lemma TurnedKeepsCopy(w: World, w': World, op: nat, key: (string, nat))
    requires Sound(w) && op in w.journal.movements && Rank(w.journal.movements[op].phase) <= Rank(Verified)
    requires w'.journal == WithPhase(w.journal, op, Returning)
    requires w' == AimsAt(w, w'.journal, op) && key in w.copies
    ensures CopyOk(w', key)
  {
    assert CopyOk(w, key);
  }

  /** A resume of the live movement `op` changes its phase, never from forwards to back, and places the
      customer as it aims to when the movement leaves the live phases. */
  predicate Drives(j: Journal, j': Journal, op: nat)
    requires op in j.movements
  {
    var m, aim := j.movements[op], Aim(j, op);
    && op in j'.movements && var p := j'.movements[op].phase;
    && Rank(m.phase) <= Rank(p) && (Rank(m.phase) >= Rank(Returning) <==> Rank(p) >= Rank(Returning))
    && j' == j.(movements := j.movements[op := m.(phase := p)], customers := j'.customers)
    && p != Superseded && m.customer < |j.customers|
    && j'.customers == (if Live(p) then j.customers
                        else j.customers[m.customer := Customer(aim.runtime, aim.generation, None)])
  }

  lemma ResumeDrives(j: Journal, op: nat, reached: Progress)
    requires Consistent(j) && op in j.movements && Live(j.movements[op].phase)
    ensures Drives(j, Perform(j, Resumes(op, reached)), op)
  {
    LiveIsHeld(j, op);
    assert Matches(j, op);
    var m := j.movements[op];
    assert j.movements[op := m] == j.movements;
    assert j.movements[op := m.(phase := m.phase)] == j.movements;
  }

  lemma ResumeIsSound(w: World, op: nat, reached: Progress)
    requires Sound(w)
    ensures var w' := Step(w, Does(Resumes(op, reached))); Sound(w') && Later(w, w')
  {
    PerformKeepsConsistent(w.journal, Resumes(op, reached));
    var j := w.journal;
    var w' := Step(w, Does(Resumes(op, reached)));
    if op in j.movements && Live(j.movements[op].phase) {
      ResumeDrives(j, op, reached);
      assert Aims(w, op);
      assert w' == Resumed(w, w'.journal, op);
      DrivenIsSound(w, w', op);
    } else {
      IdleResumeIsSound(w, w', op, reached);
    }
  }

  /** Completing a movement that has arrived concerns the journal alone. */
  lemma IdleResume(j: Journal, op: nat, reached: Progress)
    requires op in j.movements && !Live(j.movements[op].phase)
    ensures var j' := Perform(j, Resumes(op, reached));
            j'.customers == j.customers && op in j'.movements && !Live(j'.movements[op].phase)
            && j'.movements == j.movements[op := j'.movements[op]]
  {
    assert j.movements[op := j.movements[op]] == j.movements;
  }

  lemma IdleResumeIsSound(w: World, w': World, op: nat, reached: Progress)
    requires Sound(w) && w' == Step(w, Does(Resumes(op, reached))) && Consistent(w'.journal)
    requires op in w.journal.movements ==> !Live(w.journal.movements[op].phase)
    ensures Sound(w') && Later(w, w')
  {
    if op in w.journal.movements {
      IdleResume(w.journal, op, reached);
      assert w' == w.(journal := w'.journal);
      OnlyJournal(w, w', op);
    }
  }

  lemma OnlyJournal(w: World, w': World, op: nat)
    requires Sound(w) && w' == w.(journal := w'.journal) && Consistent(w'.journal)
    requires op in w.journal.movements && !Live(w.journal.movements[op].phase) && op in w'.journal.movements
    requires w'.journal.customers == w.journal.customers && !Live(w'.journal.movements[op].phase)
    requires w'.journal.movements == w.journal.movements[op := w'.journal.movements[op]]
    ensures Sound(w') && Later(w, w')
  {
    forall i | 0 <= i < |w'.stays| ensures Recorded(w', i) { assert Recorded(w, i); }
    forall k | 0 <= k < |w'.ledger| ensures Issued(w', k) {
      assert Issued(w, k);
      assert Held(w.journal, w.ledger[k].customer) ==> HoldIsLive(w.journal, w.ledger[k].customer);
    }
    forall key | key in w'.copies ensures CopyOk(w', key) {
      assert CopyOk(w, key);
      assert Held(w.journal, key.1) ==> HoldIsLive(w.journal, key.1);
    }
    forall o | o in w'.journal.movements && Live(w'.journal.movements[o].phase) ensures Aims(w', o) {
      assert Aims(w, o);
    }
  }

  lemma DrivenIsSound(w: World, w': World, op: nat)
    requires Sound(w) && op in w.journal.movements && Live(w.journal.movements[op].phase)
    requires Drives(w.journal, w'.journal, op) && Consistent(w'.journal) && w' == Resumed(w, w'.journal, op)
    ensures Sound(w') && Later(w, w')
  {
    assert Aims(w, op);
    DrivenKeepsRecords(w, w', op);
    forall k | 0 <= k < |w'.ledger| ensures Issued(w', k) {
      DrivenKeepsIssued(w, w', op, k);
    }
    forall key | key in w'.copies ensures CopyOk(w', key) {
      DrivenKeepsCopy(w, w', op, key);
    }
    forall o | o in w'.journal.movements && Live(w'.journal.movements[o].phase) ensures Aims(w', o) {
      assert Aims(w, o);
      LiveIsHeld(w.journal, op);
    }
  }

  lemma DrivenKeepsRecords(w: World, w': World, op: nat)
    requires Sound(w) && op in w.journal.movements && Live(w.journal.movements[op].phase)
    requires Drives(w.journal, w'.journal, op) && w' == Resumed(w, w'.journal, op)
    ensures Later(w, w') && forall i :: 0 <= i < |w'.stays| ==> Recorded(w', i)
  {
    assert Aims(w, op);
    forall i | 0 <= i < |w'.stays| ensures Recorded(w', i) {
      assert Recorded(w, i);
    }
  }

  /** Nothing was given beyond what the movement aims at. */
  lemma AimIsLatest(w: World, op: nat, k: nat)
    requires Sound(w) && op in w.journal.movements && Live(w.journal.movements[op].phase) && k < |w.ledger|
    requires w.ledger[k].customer == w.journal.movements[op].customer
    ensures Aims(w, op) && k <= w.pending[op]
  {
    assert Aims(w, op) && Issued(w, k);
    LiveIsHeld(w.journal, op);
    assert w.ledger[w.pending[op]] == Aim(w.journal, op);
  }

  lemma DrivenKeepsIssued(w: World, w': World, op: nat, k: nat)
    requires Sound(w) && op in w.journal.movements && Live(w.journal.movements[op].phase) && k < |w.ledger|
    requires Drives(w.journal, w'.journal, op) && w' == Resumed(w, w'.journal, op)
    ensures w'.ledger == w.ledger && Issued(w', k)
  {
    assert Aims(w, op) && Issued(w, k);
    var i := w.ledger[k].customer;
    if i == w.journal.movements[op].customer {
      AimIsLatest(w, op, k);
      LiveIsHeld(w.journal, op);
    } else if Held(w.journal, i) {
      assert HoldIsLive(w.journal, i);
      LiveIsHeld(w.journal, op);
    }
  }

  lemma HandledIs(copies: map<(string, nat), nat>, m: Movement, p: Phase, k: nat, key: (string, nat))
    requires key in Handled(copies, m, p, k)
    ensures var v, i := Handled(copies, m, p, k)[key], m.customer;
            || (key in copies && v == copies[key])
            || (&& key == (m.destination, i) && (m.source, i) in copies && v == copies[(m.source, i)]
                && Rank(m.phase) < Rank(Copied))
            || (v == k && key == (m.destination, i) && Rank(Prepared) <= Rank(p) <= Rank(Completed))
            || (v == k && key == (m.source, i) && Rank(Restamped) <= Rank(p) <= Rank(Cancelled))
  {
  }

  lemma DrivenKeepsCopy(w: World, w': World, op: nat, key: (string, nat))
    requires Sound(w) && op in w.journal.movements && Live(w.journal.movements[op].phase)
    requires Drives(w.journal, w'.journal, op) && w' == Resumed(w, w'.journal, op) && key in w'.copies
    ensures CopyOk(w', key)
  {
    assert Aims(w, op);
    var m, p, v := w.journal.movements[op], w'.journal.movements[op].phase, w'.copies[key];
    HandledIs(w.copies, m, p, w.pending[op], key);
    if key in w.copies && v == w.copies[key] {
      assert CopyOk(w, key);
      StaysBorne(w, w', op, key, v);
    } else if key == (m.destination, m.customer) && (m.source, m.customer) in w.copies
              && v == w.copies[(m.source, m.customer)] && Rank(m.phase) < Rank(Copied) {
      assert CopyOk(w, (m.source, m.customer));
      RestoredBears(w, w', op, key, v);
    } else {
      AimIsBorne(w, w', op, key);
    }
  }

  lemma StaysBorne(w: World, w': World, op: nat, key: (string, nat), v: nat)
    requires Sound(w) && op in w.journal.movements && Live(w.journal.movements[op].phase) && MayBear(w, key, v)
    requires Drives(w.journal, w'.journal, op) && Aims(w, op) && w' == Resumed(w, w'.journal, op)
    ensures MayBear(w', key, v)
  {
    LiveIsHeld(w.journal, op);
    if key.1 == w.journal.movements[op].customer {
      AimIsLatest(w, op, v);
    } else if Held(w.journal, key.1) {
      assert HoldIsLive(w.journal, key.1);
    }
  }

  /** Nothing is prepared before it is copied, so the dump bears no generation beyond the recorded one. */
  lemma RestoredBears(w: World, w': World, op: nat, key: (string, nat), v: nat)
    requires Sound(w) && op in w.journal.movements && Rank(w.journal.movements[op].phase) < Rank(Copied)
    requires key.1 == w.journal.movements[op].customer && MayBear(w, (w.journal.movements[op].source, key.1), v)
    requires Drives(w.journal, w'.journal, op) && Aims(w, op) && w' == Resumed(w, w'.journal, op)
    ensures MayBear(w', key, v)
  {
    LiveIsHeld(w.journal, op);
    assert v <= w.stays[key.1];
  }

  lemma AimIsBorne(w: World, w': World, op: nat, key: (string, nat))
    requires Sound(w) && op in w.journal.movements && Live(w.journal.movements[op].phase)
    requires Drives(w.journal, w'.journal, op) && Aims(w, op) && w' == Resumed(w, w'.journal, op)
    requires key == (Aim(w.journal, op).runtime, w.journal.movements[op].customer)
    requires Rank(w'.journal.movements[op].phase) >= Rank(Prepared)
    ensures MayBear(w', key, w.pending[op])
  {
    LiveIsHeld(w.journal, op);
  }

  lemma StepIsSound(w: World, e: Event)
    requires Sound(w)
    ensures Sound(Step(w, e)) && Later(w, Step(w, e))
  {
    match e {
      case Provisions(i) => ProvisionIsSound(w, i);
      case Does(a) =>
        match a {
          case Joins(runtime) => SignUpIsSound(w, runtime);
          case Renews(i) => RenewalIsSound(w, i);
          case Begins(_, _) => BeginIsSound(w, a);
          case RollsBack(_, _) => BeginIsSound(w, a);
          case Returns(op) => ReturnIsSound(w, op);
          case Resumes(op, reached) => ResumeIsSound(w, op, reached);
        }
    }
  }

  // ----- Backups --------------------------------------------------------------------------

  datatype Account = Account(id: string, database: string)

  /** A backup set: the directory and every runtime, each snapshotted at a time of its own. */
  datatype Backup = Backup(directoryAt: nat, takenAt: map<string, nat>)

  ghost predicate WellFormed(events: seq<Event>, accounts: seq<Account>, b: Backup) {
    && b.directoryAt <= |events| && |At(events, b.directoryAt).journal.customers| <= |accounts|
    && (forall r :: r in b.takenAt ==> b.takenAt[r] <= |events|)
    && (forall i, k :: 0 <= i < k < |accounts| ==> accounts[i].database != accounts[k].database)
  }

  function Find(accounts: seq<Account>, database: string): (r: Option<nat>)
    ensures r.Some? ==> r.value < |accounts| && accounts[r.value].database == database
    ensures r.None? ==> forall i :: 0 <= i < |accounts| ==> accounts[i].database != database
  {
    if accounts == [] then None
    else
      var n := |accounts| - 1;
      if accounts[n].database == database then Some(n)
      else
        var found := Find(accounts[..n], database);
        assert forall i :: 0 <= i < n ==> accounts[i] == accounts[..n][i];
        found
  }

  function Stamp(w: World, k: nat): nat {
    if k < |w.ledger| then w.ledger[k].generation else 0
  }

  /** The identities of all restored copies: each runtime's snapshot holds the copies of its time. */
  function Stamps(events: seq<Event>, accounts: seq<Account>, b: Backup): map<(string, string), Identity>
    requires forall r :: r in b.takenAt ==> b.takenAt[r] <= |events|
  {
    var names := set i | 0 <= i < |accounts| :: accounts[i].database;
    map r, d | r in b.takenAt && d in names && Find(accounts, d).Some?
               && (r, Find(accounts, d).value) in At(events, b.takenAt[r]).copies ::
      (r, d) := var i, w := Find(accounts, d).value, At(events, b.takenAt[r]);
                Identity(accounts[i].id, Stamp(w, w.copies[(r, i)]))
  }

  /** The restored directory. */
  function Directory(events: seq<Event>, accounts: seq<Account>, b: Backup): seq<Row>
    requires b.directoryAt <= |events| && |At(events, b.directoryAt).journal.customers| <= |accounts|
  {
    var customers := At(events, b.directoryAt).journal.customers;
    seq(|customers|, i requires 0 <= i < |customers| =>
          var c := customers[i];
          Row(accounts[i].id, accounts[i].database, c.runtime, c.generation, c.hold.Some?))
  }

  /** The copy of customer i on the runtime where the directory records it was last stamped by the very
      sign-up, renewal or movement that set the record. */
  predicate FromRecordedStay(events: seq<Event>, b: Backup, i: nat)
    requires b.directoryAt <= |events| && forall r :: r in b.takenAt ==> b.takenAt[r] <= |events|
  {
    var w := At(events, b.directoryAt);
    i < |w.stays| && i < |w.journal.customers| &&
    var r := w.journal.customers[i].runtime;
    r in b.takenAt && var copies := At(events, b.takenAt[r]).copies; (r, i) in copies && copies[(r, i)] == w.stays[i]
  }

  // ----- Generations tell stays apart -------------------------------------------------------

  /** Every world that any history can produce is sound. */
  lemma {:induction false} WorldIsSound(events: seq<Event>, n: nat)
    requires n <= |events|
    ensures Sound(At(events, n))
    decreases n
  {
    if n > 0 {
      WorldIsSound(events, n - 1);
      StepIsSound(At(events, n - 1), events[n - 1]);
    }
  }

  lemma WorldsGrow(events: seq<Event>, lo: nat, hi: nat)
    requires lo <= hi <= |events|
    ensures Later(At(events, lo), At(events, hi))
  {
    var ws := seq(|events| + 1, n requires 0 <= n <= |events| => At(events, n));
    forall n | 0 < n < |ws| ensures Later(ws[n - 1], ws[n]) {
      NextIsLater(events, n - 1);
    }
    ChainGrows(ws, lo, hi);
  }

  lemma {:induction false} ChainGrows(ws: seq<World>, lo: nat, hi: nat)
    requires lo <= hi < |ws| && forall n :: 0 < n < |ws| ==> Later(ws[n - 1], ws[n])
    ensures Later(ws[lo], ws[hi])
    decreases hi
  {
    if lo < hi {
      ChainGrows(ws, lo, hi - 1);
      LaterTransitively(ws[lo], ws[hi - 1], ws[hi]);
    }
  }

  lemma NextIsLater(events: seq<Event>, n: nat)
    requires n < |events|
    ensures Later(At(events, n), At(events, n + 1))
  {
    WorldIsSound(events, n);
    StepIsSound(At(events, n), events[n]);
  }

  lemma LaterTransitively(w: World, w': World, w'': World)
    requires Later(w, w') && Later(w', w'')
    ensures Later(w, w'')
  {
  }

  /** Two generations of one customer, given at whatever times, are equal only if they are the same one. */
  lemma NumbersTellGrantsApart(events: seq<Event>, s: nat, k: nat, t: nat, m: nat)
    requires s <= |events| && t <= |events| && k < |At(events, s).ledger| && m < |At(events, t).ledger|
    requires At(events, s).ledger[k].customer == At(events, t).ledger[m].customer
    ensures At(events, s).ledger[k].generation == At(events, t).ledger[m].generation <==> k == m
  {
    WorldsGrow(events, if s < t then s else t, if s < t then t else s);
    WorldIsSound(events, if s < t then t else s);
    var last := At(events, if s < t then t else s).ledger;
    assert At(events, s).ledger[k] == last[k] && At(events, t).ledger[m] == last[m];
  }

  /** Over any history a customer's generation never falls, and it is equal at two times exactly when the
      directory has shown the same record, and so the same runtime, at both. */
  lemma GenerationsMarkStays(events: seq<Event>, lo: nat, hi: nat, i: nat)
    requires lo <= hi <= |events| && i < |At(events, lo).journal.customers|
    ensures var w, w' := At(events, lo), At(events, hi);
            && i < |w'.journal.customers| && i < |w.stays| && i < |w'.stays|
            && w.journal.customers[i].generation <= w'.journal.customers[i].generation
            && (w.journal.customers[i].generation == w'.journal.customers[i].generation <==> w.stays[i] == w'.stays[i])
            && (w.stays[i] == w'.stays[i] ==> w.journal.customers[i].runtime == w'.journal.customers[i].runtime)
  {
    WorldsGrow(events, lo, hi);
    WorldIsSound(events, lo);
    WorldIsSound(events, hi);
    var w, w' := At(events, lo), At(events, hi);
    assert Recorded(w, i) && Recorded(w', i);
    NumbersTellGrantsApart(events, lo, w.stays[i], hi, w'.stays[i]);
    assert w.ledger[w.stays[i]] == w'.ledger[w.stays[i]];
  }

  /** What an exact copy is: at the time of its snapshot the customer was in the recorded stay already, or
      was held by the movement that began it, which had prepared this copy (or, turned back, its source). */
  lemma ExactCopyIs(events: seq<Event>, accounts: seq<Account>, b: Backup, i: nat)
    requires WellFormed(events, accounts, b) && FromRecordedStay(events, b, i)
    ensures var d := At(events, b.directoryAt);
            var r := d.journal.customers[i].runtime;
            var t := At(events, b.takenAt[r]);
            && i < |t.stays| && i < |t.journal.customers| && d.stays[i] < |t.ledger|
            && (t.stays[i] < d.stays[i] ==>
                  && PreparedBy(t.journal, t.journal.customers[i].hold)
                  && t.ledger[d.stays[i]].runtime == r
                  && t.ledger[d.stays[i]].cause in {Arrival(t.journal.customers[i].hold.value),
                                                    WayBack(t.journal.customers[i].hold.value)})
  {
    var d := At(events, b.directoryAt);
    var r := d.journal.customers[i].runtime;
    var t := At(events, b.takenAt[r]);
    WorldIsSound(events, b.takenAt[r]);
    assert CopyOk(t, (r, i)) && Issued(t, d.stays[i]);
  }

  lemma FindsItself(accounts: seq<Account>, i: nat)
    requires i < |accounts| && forall i, k :: 0 <= i < k < |accounts| ==> accounts[i].database != accounts[k].database
    ensures Find(accounts, accounts[i].database) == Some(i)
  {
  }

  /** What is compared for customer i: the stamp of the copy where the directory says it is. */
  lemma IdentityFound(events: seq<Event>, accounts: seq<Account>, b: Backup, i: nat, r: string)
    requires WellFormed(events, accounts, b) && i < |accounts|
    ensures var identities, key := Stamps(events, accounts, b), (r, accounts[i].database);
            && (key in identities <==> r in b.takenAt && (r, i) in At(events, b.takenAt[r]).copies)
            && (key in identities ==>
                  var w := At(events, b.takenAt[r]);
                  identities[key] == Identity(accounts[i].id, Stamp(w, w.copies[(r, i)])))
  {
    FindsItself(accounts, i);
  }

  lemma CopyVerdict(events: seq<Event>, accounts: seq<Account>, b: Backup, i: nat)
    requires WellFormed(events, accounts, b) && i < |At(events, b.directoryAt).journal.customers|
    ensures var w := At(events, b.directoryAt);
            ProblemOf(Directory(events, accounts, b)[i], Stamps(events, accounts, b), b.takenAt.Keys).None?
            <==> w.journal.customers[i].hold.None? && FromRecordedStay(events, b, i)
  {
    var w := At(events, b.directoryAt);
    var r := w.journal.customers[i].runtime;
    WorldIsSound(events, b.directoryAt);
    assert Recorded(w, i);
    IdentityFound(events, accounts, b, i, r);
    if r in b.takenAt && (r, i) in At(events, b.takenAt[r]).copies {
      var t := At(events, b.takenAt[r]);
      WorldIsSound(events, b.takenAt[r]);
      assert CopyOk(t, (r, i));
      NumbersTellGrantsApart(events, b.directoryAt, w.stays[i], b.takenAt[r], t.copies[(r, i)]);
    }
  }

  /** Main result: over every history and every choice of snapshot times, comparing generations admits the set
      if and only if nobody is held and every placement's copy is exact. */
  lemma AdmissionIsExact(events: seq<Event>, accounts: seq<Account>, b: Backup)
    requires WellFormed(events, accounts, b)
    ensures var identities := Stamps(events, accounts, b);
            var directory := Directory(events, accounts, b);
            (forall i :: 0 <= i < |directory| ==> ProblemOf(directory[i], identities, b.takenAt.Keys).None?)
            <==> (forall i :: 0 <= i < |directory| ==> !directory[i].held && FromRecordedStay(events, b, i))
  {
    var directory := Directory(events, accounts, b);
    forall i | 0 <= i < |directory|
      ensures ProblemOf(directory[i], Stamps(events, accounts, b), b.takenAt.Keys).None?
              <==> !directory[i].held && FromRecordedStay(events, b, i)
    {
      CopyVerdict(events, accounts, b, i);
    }
  }

  /** For instance, the destination's snapshot of a movement that is verified, with the directory's of the same
      movement once it is activated and not completed: admitted, although the customer was not there yet. */
  lemma VerifiedCopyIsAdmitted(account: Account)
    ensures var events := [Does(Joins("primary")), Provisions(0), Does(Begins(0, "green")),
                           Does(Resumes(0, Verified)), Does(Resumes(0, Activated))];
            var b := Backup(5, map["green" := 4]);
            && WellFormed(events, [account], b)
            && Directory(events, [account], b) == [Row(account.id, account.database, "green", 2, false)]
            && At(events, 4).journal.customers[0] == Customer("primary", 1, Some(0))
            && FromRecordedStay(events, b, 0)
  {
    var events := [Does(Joins("primary")), Provisions(0), Does(Begins(0, "green")),
                   Does(Resumes(0, Verified)), Does(Resumes(0, Activated))];
    BegunWorld();
    assert At(events, 1) == Step(START, events[0]) && At(events, 2) == Step(At(events, 1), events[1]);
    assert At(events, 3) == Step(At(events, 2), events[2]);
    VerifiedWorld(At(events, 3));
    assert At(events, 4) == Step(At(events, 3), events[3]);
    ActivatedWorld(At(events, 4));
    assert At(events, 5) == Step(At(events, 4), events[4]);
  }

  /** One customer of primary that is moving to green. */
  predicate Moving(w: World, p: Phase) {
    && w.journal.customers == [Customer("primary", 1, Some(0))] && w.journal.movements.Keys == {0}
    && w.journal.movements[0] == Movement(0, "primary", "green", 1, Move, p)
    && w.stays == [0] && w.pending == map[0 := 1] && ("primary", 0) in w.copies
  }

  lemma BegunWorld()
    ensures Moving(Step(Step(Step(START, Does(Joins("primary"))), Provisions(0)), Does(Begins(0, "green"))), Paused)
  {
  }

  lemma VerifiedWorld(w: World)
    requires Moving(w, Paused)
    ensures var w' := Step(w, Does(Resumes(0, Verified)));
            Moving(w', Verified) && ("green", 0) in w'.copies && w'.copies[("green", 0)] == 1
  {
  }

  lemma ActivatedWorld(w: World)
    requires Moving(w, Verified)
    ensures var w' := Step(w, Does(Resumes(0, Activated)));
            w'.journal.customers == [Customer("green", 2, None)] && w'.stays == [1]
  {
    assert Matches(w.journal, 0);
  }
}
