/** When a backup set is admitted: what the movements of Recovery.dfy achieve for the copies they handle.

    A movement leaves the copy where the customer ends up stamped with the generation that the directory
    then shows, so a backup taken at rest passes deploy/runtime/recover.py. */
module RecoveryProgress {
  import opened Common
  import opened Movement
  import opened MovementLaws
  import opened Recovery

  // ----- What a movement has done to the copies so far ---------------------------------------

  /** The recorded stay of customer i was begun by a movement. */
  predicate Moved(w: World, i: nat) {
    i < |w.stays| && w.stays[i] < |w.ledger|
    && match w.ledger[w.stays[i]].cause
       case Arrival(_) => true
       case WayBack(_) => true
       case _ => false
  }

  /** The source's copy of a held customer has been stamped for the way back. */
  predicate Restamping(j: Journal, hold: Option<nat>) {
    match hold
    case None => false
    case Some(op) => op in j.movements && j.movements[op].phase == Restamped
  }

  predicate Bears(copies: map<(string, nat), nat>, key: (string, nat), k: nat) {
    key in copies ==> copies[key] == k
  }

  /** The copy where the directory shows a customer bears the generation it shows, if a movement brought the
      customer there or it is known to have been provisioned since. */
  predicate HomeKept(w: World, i: nat, known: set<nat>) {
    i < |w.stays| && i < |w.journal.customers|
    && var c := w.journal.customers[i];
       ((Moved(w, i) || i in known) && !Restamping(w.journal, c.hold) ==> Bears(w.copies, (c.runtime, i), w.stays[i]))
  }

  /** A live movement has stamped, from Prepared on, the copy it leads to; and a plain one has brought it there. */
  predicate AimKept(w: World, op: nat) {
    op in w.journal.movements && op in w.pending
    && var m := w.journal.movements[op]; var i := m.customer;
       && (m.phase == Prepared || m.phase == Verified ==> Bears(w.copies, (m.destination, i), w.pending[op]))
       && (m.phase == Restamped ==> Bears(w.copies, (m.source, i), w.pending[op]))
       && (Rank(Copied) <= Rank(m.phase) <= Rank(Verified) && m.mode == Move && (m.source, i) in w.copies ==>
             (m.destination, i) in w.copies)
  }

  ghost predicate Kept(w: World, known: set<nat>) {
    && (forall i :: i in known ==> i < |w.stays|)
    && (forall i :: 0 <= i < |w.stays| ==> HomeKept(w, i, known))
    && (forall op :: op in w.journal.movements && Live(w.journal.movements[op].phase) ==> AimKept(w, op))
  }

  /** Who has been provisioned since the last renewal, if these were before. */
  function Provisioned(w: World, e: Event, known: set<nat>): set<nat> {
    match e
    case Provisions(i) => if Free(w, i) then known + {i} else known
    case Does(Renews(i)) => known - {i}
    case _ => known
  }

  function ProvisionedBy(events: seq<Event>, n: nat): set<nat>
    requires n <= |events|
  {
    if n == 0 then {} else Provisioned(At(events, n - 1), events[n - 1], ProvisionedBy(events, n - 1))
  }

  // ----- Every event keeps that ---------------------------------------------------------------

  lemma ProvisionKeeps(w: World, i: nat, known: set<nat>)
    requires Sound(w) && Kept(w, known)
    ensures Kept(Step(w, Provisions(i)), Provisioned(w, Provisions(i), known))
  {
    var w', known' := Step(w, Provisions(i)), Provisioned(w, Provisions(i), known);
    forall k | 0 <= k < |w'.stays| ensures HomeKept(w', k, known') {
      assert HomeKept(w, k, known);
    }
    forall op | op in w'.journal.movements && Live(w'.journal.movements[op].phase) ensures AimKept(w', op) {
      LiveIsHeld(w.journal, op);
      assert Matches(w.journal, op) && AimKept(w, op);
    }
  }

  lemma SignUpKeeps(w: World, runtime: string, known: set<nat>)
    requires Sound(w) && Kept(w, known)
    ensures Kept(Step(w, Does(Joins(runtime))), Provisioned(w, Does(Joins(runtime)), known))
  {
    var w' := Step(w, Does(Joins(runtime)));
    forall k | 0 <= k < |w'.stays| ensures HomeKept(w', k, known) {
      if k < |w.stays| {
        assert Recorded(w, k) && HomeKept(w, k, known);
      }
    }
    forall op | op in w'.journal.movements && Live(w'.journal.movements[op].phase) ensures AimKept(w', op) {
      assert AimKept(w, op);
    }
  }

  lemma RenewalKeeps(w: World, i: nat, known: set<nat>)
    requires Sound(w) && Kept(w, known)
    ensures Kept(Step(w, Does(Renews(i))), Provisioned(w, Does(Renews(i)), known))
  {
    var w', known' := Step(w, Does(Renews(i))), known - {i};
    forall k | 0 <= k < |w'.stays| ensures HomeKept(w', k, known') {
      assert Recorded(w, k) && HomeKept(w, k, known);
    }
    forall op | op in w'.journal.movements && Live(w'.journal.movements[op].phase) ensures AimKept(w', op) {
      assert AimKept(w, op);
    }
  }

  lemma BeginKeeps(w: World, a: Act, known: set<nat>)
    requires Sound(w) && Kept(w, known) && (a.Begins? || a.RollsBack?)
    ensures Kept(Step(w, Does(a)), Provisioned(w, Does(a), known))
  {
    var w', op := Step(w, Does(a)), w.journal.next;
    BeginsOrNot(w.journal, a);
    if op in w'.journal.movements {
      BegunKeeps(w, w', op, known);
    }
  }

  lemma BegunKeeps(w: World, w': World, op: nat, known: set<nat>)
    requires Sound(w) && Kept(w, known) && Began(w.journal, w'.journal, op) && w' == AimsAt(w, w'.journal, op)
    ensures Kept(w', known)
  {
    forall i | 0 <= i < |w'.stays| ensures HomeKept(w', i, known) {
      assert Recorded(w, i) && HomeKept(w, i, known);
      if Held(w.journal, i) {
        assert HoldIsLive(w.journal, i);
      }
    }
    forall o | o in w'.journal.movements && Live(w'.journal.movements[o].phase) ensures AimKept(w', o) {
      if o != op {
        assert AimKept(w, o);
      }
    }
  }

  lemma ReturnKeeps(w: World, op: nat, known: set<nat>)
    requires Sound(w) && Kept(w, known)
    ensures Kept(Step(w, Does(Returns(op))), Provisioned(w, Does(Returns(op)), known))
  {
    var w', j := Step(w, Does(Returns(op))), w.journal;
    if op in j.movements && Rank(j.movements[op].phase) <= Rank(Verified) {
      TurnedKeeps(w, w', op, known);
    }
  }

  lemma TurnedKeeps(w: World, w': World, op: nat, known: set<nat>)
    requires Sound(w) && Kept(w, known) && op in w.journal.movements
             && Rank(w.journal.movements[op].phase) <= Rank(Verified)
    requires w'.journal == WithPhase(w.journal, op, Returning) && w' == AimsAt(w, w'.journal, op)
    ensures Kept(w', known)
  {
    forall i | 0 <= i < |w'.stays| ensures HomeKept(w', i, known) {
      assert Recorded(w, i) && HomeKept(w, i, known);
    }
    forall o | o in w'.journal.movements && Live(w'.journal.movements[o].phase) ensures AimKept(w', o) {
      assert AimKept(w, o);
    }
  }

  lemma ResumeKeeps(w: World, op: nat, reached: Progress, known: set<nat>)
    requires Sound(w) && Kept(w, known)
    ensures Kept(Step(w, Does(Resumes(op, reached))), Provisioned(w, Does(Resumes(op, reached)), known))
  {
    var w', j := Step(w, Does(Resumes(op, reached))), w.journal;
    if op in j.movements && Live(j.movements[op].phase) {
      ResumeDrives(j, op, reached);
      assert Aims(w, op);
      DrivenKeeps(w, w', op, known);
    } else if op in j.movements {
      IdleResume(j, op, reached);
      forall i | 0 <= i < |w'.stays| ensures HomeKept(w', i, known) {
        assert Recorded(w, i) && HomeKept(w, i, known);
      }
      forall o | o in w'.journal.movements && Live(w'.journal.movements[o].phase) ensures AimKept(w', o) {
        assert AimKept(w, o);
      }
    }
  }

  /** A movement touches no copy but its own customer's. */
  lemma HandledElsewhere(copies: map<(string, nat), nat>, m: Movement, p: Phase, k: nat, key: (string, nat))
    requires key.1 != m.customer
    ensures key in Handled(copies, m, p, k) <==> key in copies
    ensures key in copies ==> Handled(copies, m, p, k)[key] == copies[key]
  {
  }

  lemma DrivenKeeps(w: World, w': World, op: nat, known: set<nat>)
    requires Sound(w) && Kept(w, known) && op in w.journal.movements && Live(w.journal.movements[op].phase)
             && Aims(w, op)
    requires Drives(w.journal, w'.journal, op) && w' == Resumed(w, w'.journal, op)
    ensures Kept(w', known)
  {
    var m := w.journal.movements[op];
    LiveIsHeld(w.journal, op);
    forall i | 0 <= i < |w'.stays| ensures HomeKept(w', i, known) {
      assert Recorded(w, i) && HomeKept(w, i, known);
      if i == m.customer {
        DrivenKeepsHome(w, w', op, known);
      } else {
        var home := (w.journal.customers[i].runtime, i);
        HandledElsewhere(w.copies, m, w'.journal.movements[op].phase, w.pending[op], home);
        if Held(w.journal, i) {
          assert HoldIsLive(w.journal, i);
        }
      }
    }
    forall o | o in w'.journal.movements && Live(w'.journal.movements[o].phase) ensures AimKept(w', o) {
      assert AimKept(w, o);
      if o == op {
        DrivenKeepsAim(w, w', op);
      } else {
        OthersKeepAim(w, w', op, o);
      }
    }
  }

  lemma OthersKeepAim(w: World, w': World, op: nat, o: nat)
    requires Sound(w) && op in w.journal.movements && Live(w.journal.movements[op].phase) && Aims(w, op)
    requires Drives(w.journal, w'.journal, op) && w' == Resumed(w, w'.journal, op)
    requires o != op && o in w.journal.movements && Live(w.journal.movements[o].phase) && AimKept(w, o)
    ensures AimKept(w', o)
  {
    var m, n, p := w.journal.movements[op], w.journal.movements[o], w'.journal.movements[op].phase;
    LiveIsHeld(w.journal, op);
    LiveIsHeld(w.journal, o);
    HandledElsewhere(w.copies, m, p, w.pending[op], (n.source, n.customer));
    HandledElsewhere(w.copies, m, p, w.pending[op], (n.destination, n.customer));
  }

  /** What driving it does to the two copies that a movement is about. */
  lemma HandledWhere(copies: map<(string, nat), nat>, m: Movement, p: Phase, k: nat)
    requires Live(m.phase) && Rank(m.phase) <= Rank(p) <= Rank(Cancelled) && m.source != m.destination
    requires Rank(m.phase) >= Rank(Returning) <==> Rank(p) >= Rank(Returning)
    ensures var after, from, to := Handled(copies, m, p, k), (m.source, m.customer), (m.destination, m.customer);
            if Rank(p) <= Rank(Completed) then
              && (from in after <==> from in copies) && (from in copies ==> after[from] == copies[from])
              && (Rank(m.phase) < Rank(Prepared) <= Rank(p) ==> Bears(after, to, k))
              && (Rank(m.phase) >= Rank(Prepared) ==> after == copies)
              && (to in copies ==> to in after)
              && (Rank(m.phase) < Rank(Copied) <= Rank(p) && m.mode == Move && from in copies ==> to in after)
            else
              if m.phase == Returning && p != Returning then Bears(after, from, k) else after == copies
  {
  }

  lemma DrivenKeepsHome(w: World, w': World, op: nat, known: set<nat>)
    requires Sound(w) && op in w.journal.movements && Live(w.journal.movements[op].phase) && Aims(w, op)
    requires Drives(w.journal, w'.journal, op) && w' == Resumed(w, w'.journal, op)
    requires HomeKept(w, w.journal.movements[op].customer, known) && AimKept(w, op)
    ensures HomeKept(w', w.journal.movements[op].customer, known)
  {
    if Live(w'.journal.movements[op].phase) {
      assert Matches(w.journal, op);
      HandledWhere(w.copies, w.journal.movements[op], w'.journal.movements[op].phase, w.pending[op]);
      LiveKeepsHome(w, w', op, known);
    } else {
      PlacedHome(w, w', op, known);
    }
  }

  /** Until the movement places its customer, the copy at home is only stamped for the way back. */
  lemma LiveKeepsHome(w: World, w': World, op: nat, known: set<nat>)
    requires op in w.journal.movements && op in w'.journal.movements && op in w.pending && Matches(w.journal, op)
    requires var m, p := w.journal.movements[op], w'.journal.movements[op].phase;
             var home := (m.source, m.customer);
             && Live(m.phase) && Live(p) && w'.copies == Handled(w.copies, m, p, w.pending[op])
             && (p != Restamped ==> (home in w'.copies <==> home in w.copies)
                                    && (home in w.copies ==> w'.copies[home] == w.copies[home]))
             && (m.phase == Restamped ==> p == Restamped)
    requires w'.journal.customers == w.journal.customers && w'.stays == w.stays && w'.ledger == w.ledger
    requires HomeKept(w, w.journal.movements[op].customer, known)
    ensures HomeKept(w', w.journal.movements[op].customer, known)
  {
  }

  lemma PlacedHome(w: World, w': World, op: nat, known: set<nat>)
    requires op in w.journal.movements && Live(w.journal.movements[op].phase) && Aims(w, op) && AimKept(w, op)
    requires Drives(w.journal, w'.journal, op) && w' == Resumed(w, w'.journal, op)
    requires !Live(w'.journal.movements[op].phase)
    ensures HomeKept(w', w.journal.movements[op].customer, known)
  {
    HandledWhere(w.copies, w.journal.movements[op], w'.journal.movements[op].phase, w.pending[op]);
  }

  lemma DrivenKeepsAim(w: World, w': World, op: nat)
    requires Sound(w) && op in w.journal.movements && Live(w.journal.movements[op].phase) && Aims(w, op)
    requires Drives(w.journal, w'.journal, op) && w' == Resumed(w, w'.journal, op)
    requires AimKept(w, op) && Live(w'.journal.movements[op].phase)
    ensures AimKept(w', op)
  {
    HandledWhere(w.copies, w.journal.movements[op], w'.journal.movements[op].phase, w.pending[op]);
  }

  lemma StepKeeps(w: World, e: Event, known: set<nat>)
    requires Sound(w) && Kept(w, known)
    ensures Kept(Step(w, e), Provisioned(w, e, known))
  {
    match e {
      case Provisions(i) => ProvisionKeeps(w, i, known);
      case Does(a) =>
        match a {
          case Joins(runtime) => SignUpKeeps(w, runtime, known);
          case Renews(i) => RenewalKeeps(w, i, known);
          case Begins(_, _) => BeginKeeps(w, a, known);
          case RollsBack(_, _) => BeginKeeps(w, a, known);
          case Returns(op) => ReturnKeeps(w, op, known);
          case Resumes(op, reached) => ResumeKeeps(w, op, reached, known);
        }
    }
  }

  /** Every world that any history can produce is in step. */
  lemma {:induction false} WorldIsKept(events: seq<Event>, n: nat) returns (w: World, known: set<nat>)
    requires n <= |events|
    ensures w == At(events, n) && known == ProvisionedBy(events, n) && Kept(w, known)
    decreases n
  {
    if n == 0 {
      w, known := START, {};
    } else {
      w, known := WorldIsKept(events, n - 1);
      WorldIsSound(events, n - 1);
      w, known := NextIsKept(events, n - 1, w, known);
    }
  }

  lemma NextIsKept(events: seq<Event>, n: nat, w: World, known: set<nat>) returns (w': World, known': set<nat>)
    requires n < |events| && w == At(events, n) && known == ProvisionedBy(events, n) && Sound(w) && Kept(w, known)
    ensures w' == At(events, n + 1) && known' == ProvisionedBy(events, n + 1) && Kept(w', known')
  {
    StepKeeps(w, events[n], known);
    w', known' := Step(w, events[n]), Provisioned(w, events[n], known);
  }

  // ----- Backups at rest ----------------------------------------------------------------------

  /** After n events nobody is held, everybody has a copy where the directory says, and who has not been moved
      since signing up or renewing has been provisioned since. */
  predicate AtRest(events: seq<Event>, n: nat)
    requires n <= |events|
  {
    forall i :: 0 <= i < |At(events, n).journal.customers| ==> Rests(events, n, i)
  }

  predicate Rests(events: seq<Event>, n: nat, i: nat)
    requires n <= |events|
  {
    var w := At(events, n);
    i < |w.journal.customers|
    && var c := w.journal.customers[i];
       c.hold == None && (c.runtime, i) in w.copies && (Moved(w, i) || i in ProvisionedBy(events, n))
  }

  /** Main result: whatever has happened before, with whatever interruptions, returns and rollbacks, a backup of
      the directory and of all its runtimes that is taken at rest is admitted. */
  lemma BackupAtRestIsAdmitted(events: seq<Event>, accounts: seq<Account>, b: Backup)
    requires WellFormed(events, accounts, b) && AtRest(events, b.directoryAt)
    requires forall r :: r in b.takenAt ==> b.takenAt[r] == b.directoryAt
    requires forall i :: 0 <= i < |At(events, b.directoryAt).journal.customers| ==>
               At(events, b.directoryAt).journal.customers[i].runtime in b.takenAt
    ensures var directory := Directory(events, accounts, b);
            forall i :: 0 <= i < |directory| ==>
              ProblemOf(directory[i], Stamps(events, accounts, b), b.takenAt.Keys).None?
  {
    var w, directory := At(events, b.directoryAt), Directory(events, accounts, b);
    WorldIsSound(events, b.directoryAt);
    var kept, known := WorldIsKept(events, b.directoryAt);
    forall i | 0 <= i < |directory| ensures !directory[i].held && FromRecordedStay(events, b, i) {
      assert Rests(events, b.directoryAt, i) && HomeKept(w, i, known);
      assert w.journal.customers[i].runtime in b.takenAt;
    }
    AdmissionIsExact(events, accounts, b);
  }

  /** A plain movement that arrives brings the customer's copy along, stamped with the generation it is given. */
  lemma ArrivalBringsTheCopy(events: seq<Event>, n: nat, op: nat, reached: Progress)
    requires n < |events| && events[n] == Does(Resumes(op, reached))
    requires var j := At(events, n).journal;
             op in j.movements && Rank(j.movements[op].phase) <= Rank(Verified) && j.movements[op].mode == Move
    requires op in At(events, n + 1).journal.movements && !Live(At(events, n + 1).journal.movements[op].phase)
    ensures var w, w', m := At(events, n), At(events, n + 1), At(events, n).journal.movements[op];
            (m.source, m.customer) in w.copies ==>
              && m.customer < |w'.stays| && (m.destination, m.customer) in w'.copies
              && w'.copies[(m.destination, m.customer)] == w'.stays[m.customer]
              && m.customer < |w'.journal.customers| && w'.journal.customers[m.customer].runtime == m.destination
  {
    var w, w' := At(events, n), At(events, n + 1);
    WorldIsSound(events, n);
    var kept, known := WorldIsKept(events, n);
    assert w' == Step(w, events[n]);
    ResumeDrives(w.journal, op, reached);
    assert Aims(w, op) && AimKept(w, op);
    assert w' == Resumed(w, w'.journal, op);
    ArrivedCopy(w, w', op);
  }

  lemma ArrivedCopy(w: World, w': World, op: nat)
    requires Sound(w) && op in w.journal.movements && Aims(w, op) && AimKept(w, op)
    requires Rank(w.journal.movements[op].phase) <= Rank(Verified) && w.journal.movements[op].mode == Move
    requires Drives(w.journal, w'.journal, op) && w' == Resumed(w, w'.journal, op)
    requires !Live(w'.journal.movements[op].phase)
    ensures var m := w.journal.movements[op]; var to := (m.destination, m.customer);
            && m.customer < |w'.stays| && m.customer < |w'.journal.customers|
            && w'.journal.customers[m.customer].runtime == m.destination
            && ((m.source, m.customer) in w.copies ==> to in w'.copies && w'.copies[to] == w'.stays[m.customer])
  {
    LiveIsHeld(w.journal, op);
    HandledWhere(w.copies, w.journal.movements[op], w'.journal.movements[op].phase, w.pending[op]);
  }

  predicate NoCopyOf(copies: map<(string, nat), nat>, i: nat) {
    forall key :: key in copies ==> key.1 != i
  }

  lemma HandlingMakesNoCopy(copies: map<(string, nat), nat>, m: Movement, p: Phase, k: nat, i: nat)
    requires NoCopyOf(copies, i)
    ensures NoCopyOf(Handled(copies, m, p, k), i)
  {
    forall key | key in Handled(copies, m, p, k) ensures key.1 != i {
      if key.1 != m.customer {
        HandledElsewhere(copies, m, p, k, key);
      }
    }
  }

  lemma StepMakesNoCopy(w: World, e: Event, i: nat)
    requires NoCopyOf(w.copies, i) && e != Provisions(i)
    ensures NoCopyOf(Step(w, e).copies, i)
  {
    if e.Does? && e.a.Resumes? && e.a.op in w.journal.movements && e.a.op in w.pending {
      var op, j := e.a.op, Perform(w.journal, e.a);
      HandlingMakesNoCopy(w.copies, w.journal.movements[op], j.movements[op].phase, w.pending[op], i);
    }
  }

  /** Copies come from the provisioner only: what is never provisioned is never stamped, moved or restored. */
  lemma {:induction false} NoCopyWithoutProvisioning(events: seq<Event>, n: nat, i: nat)
    requires n <= |events| && forall k :: 0 <= k < n ==> events[k] != Provisions(i)
    ensures NoCopyOf(At(events, n).copies, i)
    decreases n
  {
    if n > 0 {
      NoCopyWithoutProvisioning(events, n - 1, i);
      StepMakesNoCopy(At(events, n - 1), events[n - 1], i);
    }
  }
}
