/** The unbounded reconciliation loop of scripts/lib/deployment-bootstrap.ts:
    apply, and on failure decide from the provider's answers whether to adopt
    buckets, to wait for their visibility, or to give up. */
module BucketReconcile {
  import opened Common

  /** A set of bucket kinds: the state bucket, the backup bucket. */
  datatype Kinds = Kinds(state: bool, backup: bool) {
    function And(o: Kinds): Kinds { Kinds(state || o.state, backup || o.backup) }
    function Without(o: Kinds): Kinds { Kinds(state && !o.state, backup && !o.backup) }
    predicate Within(o: Kinds) { (state ==> o.state) && (backup ==> o.backup) }
  }

  const NONE := Kinds(false, false)
  const BACKUP := Kinds(false, true)
  const BOTH := Kinds(true, true)

  /** One entry for each delay of the visibility retry table. */
  const DELAYS := [2000, 4000, 8000, 15000, 30000, 30000, 30000, 60000, 60000, 60000]
  const ORDINARY_LIMIT := 3

  datatype Inspection = Seen(existing: Kinds, tracked: Kinds) | InspectFailed(error: nat)

  /** The kinds a failed apply's output reports as colliding or created, and as missing on import. */
  datatype Applied = Succeeded | Failed(error: nat, reported: Kinds, invisible: Kinds)

  /** The environment answers each call by its number. */
  datatype World = World(inspect: nat -> Inspection, apply: nat -> Applied)

  datatype LoopState = LoopState(
    attempted: Kinds, reported: Kinds, preceding: Option<nat>, ordinary: nat, repeat: bool,
    key: Kinds, retries: nat, inspects: nat, applies: nat)

  const START := LoopState(NONE, NONE, None, 0, false, NONE, 0, 0, 0)

  /** `Threw(None)` would be a throw of an undefined error. */
  datatype Verdict = Returned | Threw(error: Option<nat>) | InspectionThrew(failure: nat)
  datatype Next = Again(state: LoopState) | Ended(verdict: Verdict, applies: nat)

  function Candidates(confirmed: Kinds, reported: Kinds, existing: Kinds, tracked: Kinds): Kinds {
    confirmed.And(existing).And(reported).Without(tracked)
  }

  /** What follows a failed apply; `after` is the extra inspection, when one is made. */
  function AfterFailure(st: LoopState, confirmed: Kinds, candidates: Kinds, f: Applied, after: Inspection): Next
    requires f.Failed? && after.Seen?
  {
    var recoverable := after.existing.Without(after.tracked);
    var visible :=
      f.invisible != NONE && f.invisible.Within(candidates) && f.invisible.Within(confirmed.And(recoverable));
    if visible then
      var retries := if candidates == st.key then st.retries else 0;
      if retries >= |DELAYS| then Ended(Threw(Some(f.error)), st.applies)
      else Again(st.(key := candidates, retries := retries + 1, repeat := true))
    else if f.reported == NONE && recoverable.Within(st.attempted) then Ended(Threw(Some(f.error)), st.applies)
    else Again(st)
  }

  /** One turn of the loop. */
  function Step(w: World, confirmed: Kinds, st: LoopState): Next {
    var seen := w.inspect(st.inspects);
    if seen.InspectFailed? then Ended(InspectionThrew(seen.error), st.applies)
    else
      var candidates := Candidates(confirmed, st.reported, seen.existing, seen.tracked);
      if candidates != NONE && candidates.Within(st.attempted) && !st.repeat then Ended(Threw(st.preceding), st.applies)
      else if !st.repeat && st.ordinary >= ORDINARY_LIMIT then Ended(Threw(st.preceding), st.applies)
      else
        Attempt(w, confirmed, candidates, Begin(st, candidates))
  }

  /** A visibility retry does not count as an ordinary attempt. */
  function Begin(st: LoopState, candidates: Kinds): LoopState {
    st.(attempted := st.attempted.And(candidates), repeat := false, inspects := st.inspects + 1,
        ordinary := if st.repeat then st.ordinary else st.ordinary + 1)
  }

  /** The try block and its catch block. */
  function Attempt(w: World, confirmed: Kinds, candidates: Kinds, st: LoopState): Next {
    var f := w.apply(st.applies);
    var applied := st.(applies := st.applies + 1);
    if f.Succeeded? then Ended(Returned, applied.applies)
    else AfterApply(w, confirmed, candidates, applied.(preceding := Some(f.error), reported := f.reported), f)
  }

  /** A failed apply: inspect again unless the output only reports collisions, then decide. */
  function AfterApply(w: World, confirmed: Kinds, candidates: Kinds, st: LoopState, f: Applied): Next
    requires f.Failed?
  {
    if f.reported == NONE || f.invisible != NONE then
      var after := w.inspect(st.inspects);
      if after.InspectFailed? then Ended(InspectionThrew(after.error), st.applies)
      else AfterFailure(st.(inspects := st.inspects + 1), confirmed, candidates, f, after)
    else AfterFailure(st, confirmed, candidates, f, Seen(NONE, NONE))
  }

  /** The state after `n` turns, as long as the loop keeps going. */
  function Turns(w: World, confirmed: Kinds, st: LoopState, n: nat): Next
  {
    if n == 0 then Again(st)
    else match Turns(w, confirmed, st, n - 1)
      case Again(st') => Step(w, confirmed, st')
      case Ended(verdict, applies) => Ended(verdict, applies)
  }

  // ----- Termination -------------------------------------------------------------------

  /** Buckets that are tracked once stay tracked. */
  ghost predicate TrackedGrows(w: World) {
    forall i: nat, k: nat :: i <= k && w.inspect(i).Seen? && w.inspect(k).Seen? ==>
      w.inspect(i).tracked.Within(w.inspect(k).tracked)
  }

  /** The buckets that any inspection from number `n` on may still show as untracked. */
  ghost predicate Untracked(w: World, n: nat, kinds: Kinds) {
    forall k: nat :: n <= k && w.inspect(k).Seen? ==> BOTH.Without(w.inspect(k).tracked).Within(kinds)
  }

  /** The visibility retries granted so far: at most ten for each of two shrinking candidate sets. */
  function Granted(st: LoopState): nat {
    if st.key == NONE then 0 else if st.key == BOTH then st.retries else |DELAYS| + st.retries
  }

  /** What holds at the top of the loop when both kinds are confirmed and tracking only grows. */
  ghost predicate AtTop(w: World, st: LoopState) {
    && st.ordinary <= ORDINARY_LIMIT && st.retries <= |DELAYS|
    && st.applies + (if st.repeat then 1 else 0) <= st.ordinary + Granted(st)
    && (st.key != NONE ==> Untracked(w, st.inspects, st.key))
    && (st.repeat ==> st.key != NONE)
    && (st.applies == 0 ==> st.ordinary == 0 && !st.repeat && st.attempted == NONE)
    && (st.applies > 0 ==> w.apply(st.applies - 1).Failed? && st.preceding == Some(w.apply(st.applies - 1).error))
  }

  lemma ConfirmedCandidates(w: World, n: nat, reported: Kinds)
    requires TrackedGrows(w) && w.inspect(n).Seen?
    ensures var candidates := Candidates(BOTH, reported, w.inspect(n).existing, w.inspect(n).tracked);
            candidates == BOTH.Without(w.inspect(n).tracked) && Untracked(w, n, candidates)
  {
  }

  /** How the loop may end: after at most 23 applies, and with the error of the last one if it throws. */
  ghost predicate EndsWell(w: World, verdict: Verdict, applies: nat) {
    && applies <= 23
    && (verdict.Threw? ==> applies > 0 && w.apply(applies - 1).Failed?
                           && verdict.error == Some(w.apply(applies - 1).error))
  }

  ghost predicate Sound(w: World, next: Next, n: nat) {
    match next
    case Again(st) => AtTop(w, st) && st.applies == n
    case Ended(verdict, applies) => EndsWell(w, verdict, applies)
  }

  lemma TopIsBounded(w: World, st: LoopState)
    requires AtTop(w, st)
    ensures st.applies <= 23 && (st.repeat ==> st.applies < 23)
  {
  }

  /** A turn that has chosen its candidates and is about to apply. */
  ghost predicate Ready(w: World, candidates: Kinds, st: LoopState) {
    && st.ordinary <= ORDINARY_LIMIT && st.retries <= |DELAYS| && !st.repeat
    && st.applies + 1 <= st.ordinary + Granted(st)
    && Untracked(w, st.inspects, candidates)
    && (st.key != NONE ==> Untracked(w, st.inspects, st.key) && candidates.Within(st.key))
  }

  lemma AttemptIsSound(w: World, candidates: Kinds, st: LoopState)
    requires Ready(w, candidates, st)
    ensures Sound(w, Attempt(w, BOTH, candidates, st), st.applies + 1)
  {
    var f := w.apply(st.applies);
    if f.Failed? {
      var after := st.(applies := st.applies + 1, preceding := Some(f.error), reported := f.reported);
      FailureIsSound(w, candidates, after, f);
    }
  }

  lemma FailureIsSound(w: World, candidates: Kinds, st: LoopState, f: Applied)
    requires f.Failed? && st.applies > 0 && f == w.apply(st.applies - 1) && st.preceding == Some(f.error)
    requires st.applies <= st.ordinary + Granted(st) && Ready(w, candidates, st.(applies := st.applies - 1))
    ensures Sound(w, AfterApply(w, BOTH, candidates, st, f), st.applies)
  {
  }

  lemma TurnIsReady(w: World, st: LoopState, candidates: Kinds)
    requires AtTop(w, st) && Untracked(w, st.inspects, candidates) && (st.repeat || st.ordinary < ORDINARY_LIMIT)
    requires st.key != NONE ==> candidates.Within(st.key)
    ensures Ready(w, candidates, Begin(st, candidates))
  {
    TopIsBounded(w, st);
  }

  lemma CandidatesShrink(w: World, st: LoopState, candidates: Kinds)
    requires AtTop(w, st) && w.inspect(st.inspects).Seen? && candidates == BOTH.Without(w.inspect(st.inspects).tracked)
    ensures st.key != NONE ==> candidates.Within(st.key)
  {
  }

  /** A turn either ends, with the error of the last apply if it throws, or makes one apply and comes back to
      the top. */
  lemma TurnKeepsTop(w: World, st: LoopState)
    requires TrackedGrows(w) && AtTop(w, st)
    ensures Sound(w, Step(w, BOTH, st), st.applies + 1)
  {
    TopIsBounded(w, st);
    var seen := w.inspect(st.inspects);
    if seen.Seen? {
      var candidates := Candidates(BOTH, st.reported, seen.existing, seen.tracked);
      ConfirmedCandidates(w, st.inspects, st.reported);
      CandidatesShrink(w, st, candidates);
      if st.repeat || st.ordinary < ORDINARY_LIMIT {
        TurnIsReady(w, st, candidates);
        AttemptIsSound(w, candidates, Begin(st, candidates));
      }
    }
  }

  lemma {:induction false} LoopIsSound(w: World, n: nat)
    requires TrackedGrows(w)
    ensures Sound(w, Turns(w, BOTH, START, n), n)
  {
    if n > 0 {
      LoopIsSound(w, n - 1);
      var before := Turns(w, BOTH, START, n - 1);
      if before.Again? {
        TurnKeepsTop(w, before.state);
      }
    }
  }

  /** Main result: with both kinds confirmed and tracking that only grows, every turn is one apply and there
      are at most 23 of them, so the loop ends; an error it throws is that of the last apply, never undefined. */
  lemma LoopIsBounded(w: World, n: nat)
    requires TrackedGrows(w)
    ensures match Turns(w, BOTH, START, n)
            case Again(st) => st.applies == n <= 23
            case Ended(verdict, applies) =>
              && applies <= 23
              && (verdict.Threw? ==> applies > 0 && w.apply(applies - 1).Failed?
                                     && verdict.error == Some(w.apply(applies - 1).error))
  {
    LoopIsSound(w, n);
    var now := Turns(w, BOTH, START, n);
    if now.Again? {
      TopIsBounded(w, now.state);
    }
  }

  lemma {:induction false} EndedStaysEnded(w: World, n: nat, m: nat)
    requires n <= m && Turns(w, BOTH, START, n).Ended?
    ensures Turns(w, BOTH, START, m) == Turns(w, BOTH, START, n)
  {
    if n < m {
      EndedStaysEnded(w, n, m - 1);
    }
  }

  // ----- The loop in terms of what happened -------------------------------------------------

  function Reported(f: Applied): Kinds {
    if f.Failed? then f.reported else NONE
  }

  function ErrorOf(f: Applied): Option<nat> {
    if f.Failed? then Some(f.error) else None
  }

  /** A failure that does not only report collisions is followed by an inspection of its own. */
  predicate LooksTwice(f: Applied) {
    f.Failed? && (f.reported == NONE || f.invisible != NONE)
  }

  /** The inspections made before turn n, if the loop gets there. */
  function Looks(w: World, n: nat): nat {
    if n == 0 then 0 else Looks(w, n - 1) + if LooksTwice(w.apply(n - 1)) then 2 else 1
  }

  /** The buckets that apply n is to adopt: seen, confirmed or just reported, and untracked. */
  function Offered(w: World, confirmed: Kinds, n: nat): Kinds {
    match w.inspect(Looks(w, n))
    case InspectFailed(_) => NONE
    case Seen(existing, tracked) =>
      confirmed.And(existing).And(if n == 0 then NONE else Reported(w.apply(n - 1))).Without(tracked)
  }

  /** All that any apply before the n-th was to adopt. */
  function Tried(w: World, confirmed: Kinds, n: nat): Kinds {
    if n == 0 then NONE else Tried(w, confirmed, n - 1).And(Offered(w, confirmed, n - 1))
  }

  /** What the inspection after the failure of apply n shows as existing and untracked. */
  function Recoverable(w: World, n: nat): Kinds {
    if !LooksTwice(w.apply(n)) then NONE
    else match w.inspect(Looks(w, n) + 1)
      case InspectFailed(_) => NONE
      case Seen(existing, tracked) => existing.Without(tracked)
  }

  /** Apply n failed because the provider did not see buckets that it was to adopt and that are there. */
  predicate Blind(w: World, confirmed: Kinds, n: nat) {
    var f := w.apply(n);
    && f.Failed? && f.invisible != NONE && f.invisible.Within(Offered(w, confirmed, n))
    && f.invisible.Within(confirmed.And(Recoverable(w, n)))
  }

  /** The applies before the n-th that did not repeat a blind one. */
  function Ordinary(w: World, confirmed: Kinds, n: nat): nat {
    if n == 0 then 0
    else Ordinary(w, confirmed, n - 1) + if n > 1 && Blind(w, confirmed, n - 2) then 0 else 1
  }

  /** What the last blind apply before the n-th was to adopt. */
  function LastBlind(w: World, confirmed: Kinds, n: nat): Kinds {
    if n == 0 then NONE
    else if Blind(w, confirmed, n - 1) then Offered(w, confirmed, n - 1) else LastBlind(w, confirmed, n - 1)
  }

  /** How many blind applies in a row, ordinary ones aside, were to adopt just that. */
  function BlindInARow(w: World, confirmed: Kinds, n: nat): nat {
    if n == 0 then 0
    else if !Blind(w, confirmed, n - 1) then BlindInARow(w, confirmed, n - 1)
    else if Offered(w, confirmed, n - 1) == LastBlind(w, confirmed, n - 1) then BlindInARow(w, confirmed, n - 1) + 1
    else 1
  }

  /** Apply n is made, once the loop has come to it: after a blind one; otherwise only if there is nothing to adopt
      or something that has not been tried, and at most three times. */
  predicate Applies(w: World, confirmed: Kinds, n: nat) {
    && w.inspect(Looks(w, n)).Seen?
    && ((n > 0 && Blind(w, confirmed, n - 1)) ||
        (&& (Offered(w, confirmed, n) == NONE || !Offered(w, confirmed, n).Within(Tried(w, confirmed, n)))
         && Ordinary(w, confirmed, n) < ORDINARY_LIMIT))
  }

  /** The loop goes on after apply n: blind ones are repeated ten times for the same buckets; otherwise the
      failure must have reported buckets or left one that can be adopted and has not been tried. */
  predicate GoesOn(w: World, confirmed: Kinds, n: nat) {
    var f := w.apply(n);
    && f.Failed? && (LooksTwice(f) ==> w.inspect(Looks(w, n) + 1).Seen?)
    && if Blind(w, confirmed, n)
       then Offered(w, confirmed, n) == LastBlind(w, confirmed, n) ==> BlindInARow(w, confirmed, n) < |DELAYS|
       else f.reported != NONE || !Recoverable(w, n).Within(Tried(w, confirmed, n + 1))
  }

  predicate Passes(w: World, confirmed: Kinds, n: nat) {
    Applies(w, confirmed, n) && GoesOn(w, confirmed, n)
  }

  /** How the loop ends that comes to turn n and no further. */
  function EndAt(w: World, confirmed: Kinds, n: nat): Next
  {
    var seen, f := w.inspect(Looks(w, n)), w.apply(n);
    if seen.InspectFailed? then Ended(InspectionThrew(seen.error), n)
    else if !Applies(w, confirmed, n) then Ended(Threw(if n == 0 then None else ErrorOf(w.apply(n - 1))), n)
    else if f.Succeeded? then Ended(Returned, n + 1)
    else
      var after := w.inspect(Looks(w, n) + 1);
      if LooksTwice(f) && after.InspectFailed? then Ended(InspectionThrew(after.error), n + 1)
      else Ended(Threw(Some(f.error)), n + 1)
  }

  /** The variables of the loop at the top of turn n. */
  function StateAt(w: World, confirmed: Kinds, n: nat): LoopState {
    LoopState(Tried(w, confirmed, n), if n == 0 then NONE else Reported(w.apply(n - 1)),
              if n == 0 then None else ErrorOf(w.apply(n - 1)), Ordinary(w, confirmed, n),
              n > 0 && Blind(w, confirmed, n - 1), LastBlind(w, confirmed, n), BlindInARow(w, confirmed, n),
              Looks(w, n), n)
  }

  lemma FailureIsHistory(w: World, confirmed: Kinds, n: nat)
    requires w.inspect(Looks(w, n)).Seen? && w.apply(n).Failed?
    ensures var f, st := w.apply(n), Begin(StateAt(w, confirmed, n), Offered(w, confirmed, n));
            AfterApply(w, confirmed, Offered(w, confirmed, n),
                       st.(applies := n + 1, preceding := Some(f.error), reported := f.reported), f) ==
            if GoesOn(w, confirmed, n) then Again(StateAt(w, confirmed, n + 1))
            else if LooksTwice(f) && w.inspect(Looks(w, n) + 1).InspectFailed?
            then Ended(InspectionThrew(w.inspect(Looks(w, n) + 1).error), n + 1)
            else Ended(Threw(Some(f.error)), n + 1)
  {
  }

  lemma TurnIsHistory(w: World, confirmed: Kinds, n: nat)
    ensures Step(w, confirmed, StateAt(w, confirmed, n)) ==
            if Passes(w, confirmed, n) then Again(StateAt(w, confirmed, n + 1)) else EndAt(w, confirmed, n)
  {
    var st, seen := StateAt(w, confirmed, n), w.inspect(Looks(w, n));
    if seen.Seen? {
      assert Candidates(confirmed, st.reported, seen.existing, seen.tracked) == Offered(w, confirmed, n);
      if Applies(w, confirmed, n) {
        assert Step(w, confirmed, st) ==
               Attempt(w, confirmed, Offered(w, confirmed, n), Begin(st, Offered(w, confirmed, n)));
        if w.apply(n).Failed? {
          FailureIsHistory(w, confirmed, n);
        }
      }
    }
  }

  /** Turn k leads to the next state if it passes, and else to an end. */
  predicate Leads(w: World, confirmed: Kinds, states: seq<LoopState>, passes: seq<bool>, ends: seq<Next>, k: nat)
    requires |passes| == |ends| == |states| - 1 && k < |passes|
  {
    && ends[k].Ended?
    && Step(w, confirmed, states[k]) == if passes[k] then Again(states[k + 1]) else ends[k]
  }

  lemma {:induction false} ChainEnds(w: World, confirmed: Kinds, states: seq<LoopState>, passes: seq<bool>,
                                     ends: seq<Next>, n: nat) returns (m: nat)
    requires |passes| == |ends| == |states| - 1 && n <= |passes| && states[0] == START
    requires forall k :: 0 <= k < |passes| ==> Leads(w, confirmed, states, passes, ends, k)
    ensures m <= n && (forall k :: 0 <= k < m ==> passes[k]) && (m < n ==> !passes[m])
    ensures Turns(w, confirmed, START, n) == if m == n then Again(states[n]) else ends[m]
  {
    if n == 0 {
      return 0;
    }
    m := ChainEnds(w, confirmed, states, passes, ends, n - 1);
    assert Leads(w, confirmed, states, passes, ends, n - 1);
    if m == n - 1 {
      if passes[m] {
        m := n;
      }
    } else {
      assert Leads(w, confirmed, states, passes, ends, m);
    }
  }

  /** Main result: whatever the provider answers and whatever is confirmed, the loop comes to its n-th turn exactly
      if every apply before was made and gone on from, and it ends in the first turn `m` where that fails. */
  lemma LoopFollowsHistory(w: World, confirmed: Kinds, n: nat) returns (m: nat)
    ensures m <= n && (forall k: nat :: k < m ==> Passes(w, confirmed, k)) && (m < n ==> !Passes(w, confirmed, m))
    ensures Turns(w, confirmed, START, n) ==
            if m == n then Again(StateAt(w, confirmed, n)) else EndAt(w, confirmed, m)
  {
    var states := seq(n + 1, k requires 0 <= k => StateAt(w, confirmed, k));
    var passes := seq(n, k requires 0 <= k => Passes(w, confirmed, k));
    var ends := seq(n, k requires 0 <= k => EndAt(w, confirmed, k));
    forall k | 0 <= k < n ensures Leads(w, confirmed, states, passes, ends, k) {
      TurnIsHistory(w, confirmed, k);
    }
    m := ChainEnds(w, confirmed, states, passes, ends, n);
    forall k: nat | k < m ensures Passes(w, confirmed, k) {
      assert passes[k];
    }
  }

  /** An apply is repeated only after a blind one, or if nothing is left to adopt, or something has not been tried. */
  lemma RepeatNeedsCause(w: World, confirmed: Kinds, n: nat)
    requires n > 0 && Applies(w, confirmed, n)
    ensures Blind(w, confirmed, n - 1) || Offered(w, confirmed, n) == NONE
            || exists m :: 0 <= m < 2 && KindOf(Offered(w, confirmed, n), m) && forall k :: 0 <= k < n ==>
                 !KindOf(Offered(w, confirmed, k), m)
  {
    if !Blind(w, confirmed, n - 1) && Offered(w, confirmed, n) != NONE {
      var m := if KindOf(Offered(w, confirmed, n), 0) && !KindOf(Tried(w, confirmed, n), 0) then 0 else 1;
      forall k | 0 <= k < n ensures !KindOf(Offered(w, confirmed, k), m) {
        TriedIsUnion(w, confirmed, n, k);
      }
      assert KindOf(Offered(w, confirmed, n), m);
    }
  }

  predicate KindOf(kinds: Kinds, m: nat) {
    if m == 0 then kinds.state else kinds.backup
  }

  lemma {:induction false} TriedIsUnion(w: World, confirmed: Kinds, n: nat, k: nat)
    requires k < n
    ensures Offered(w, confirmed, k).Within(Tried(w, confirmed, n))
  {
    if k < n - 1 {
      TriedIsUnion(w, confirmed, n - 1, k);
    }
  }

  /** An ordinary failure on buckets that stay as they are is final: the loop ends with it after one apply. */
  lemma OrdinaryFailureIsFinal(w: World, confirmed: Kinds, existing: Kinds, tracked: Kinds, n: nat)
    requires n >= 2 && forall k: nat :: w.inspect(k) == Seen(existing, tracked)
    requires w.apply(0).Failed? && w.apply(0).invisible == NONE
    requires var untracked := confirmed.And(existing).Without(tracked);
             untracked != NONE && w.apply(0).reported.Without(tracked).Within(untracked)
    ensures Turns(w, confirmed, START, n) == Ended(Threw(Some(w.apply(0).error)), 1)
  {
    var m := LoopFollowsHistory(w, confirmed, n);
    SameBucketsAreNotTriedAgain(w, confirmed, existing, tracked);
    assert m > 1 ==> Passes(w, confirmed, 1);
    EndsWithFirst(w, confirmed, m);
  }

  lemma SameBucketsAreNotTriedAgain(w: World, confirmed: Kinds, existing: Kinds, tracked: Kinds)
    requires forall k: nat :: w.inspect(k) == Seen(existing, tracked)
    requires w.apply(0).Failed? && w.apply(0).invisible == NONE
    requires var untracked := confirmed.And(existing).Without(tracked);
             untracked != NONE && w.apply(0).reported.Without(tracked).Within(untracked)
    ensures Applies(w, confirmed, 0) && !Applies(w, confirmed, 1)
  {
    assert Offered(w, confirmed, 0) == confirmed.And(existing).Without(tracked);
    assert Tried(w, confirmed, 1) == Offered(w, confirmed, 0) && !Blind(w, confirmed, 0);
    assert Offered(w, confirmed, 1).Within(Offered(w, confirmed, 0)) && Offered(w, confirmed, 1) != NONE;
  }

  lemma EndsWithFirst(w: World, confirmed: Kinds, m: nat)
    requires m <= 1 && Applies(w, confirmed, 0) && w.apply(0).Failed? && !Passes(w, confirmed, m)
    requires m == 1 ==> !Applies(w, confirmed, 1)
    requires forall k: nat :: w.inspect(k).Seen?
    ensures EndAt(w, confirmed, m) == Ended(Threw(Some(w.apply(0).error)), 1)
  {
  }

  /** The catch block; the loop goes on with the returned key, retries and repeat flag unless it throws. */
  method Recover(w: World, confirmed: Kinds, candidates: Kinds, st: LoopState, f: Applied)
    returns (thrown: Option<Verdict>, key: Kinds, retries: nat, repeat: bool, inspects: nat)
    requires f.Failed?
    ensures AfterApply(w, confirmed, candidates, st, f) ==
            if thrown.Some? then Ended(thrown.value, st.applies)
            else Again(st.(key := key, retries := retries, repeat := repeat, inspects := inspects))
  {
    thrown, key, retries, repeat, inspects := None, st.key, st.retries, st.repeat, st.inspects;
    var recoverable := NONE;
    if f.reported == NONE || f.invisible != NONE {
      var after := w.inspect(inspects);
      if after.InspectFailed? {
        thrown := Some(InspectionThrew(after.error));
        return;
      }
      inspects := inspects + 1;
      recoverable := after.existing.Without(after.tracked);
    }
    if f.invisible != NONE && f.invisible.Within(candidates) && f.invisible.Within(confirmed.And(recoverable)) {
      if candidates != key {
        key, retries := candidates, 0;
      }
      if retries >= |DELAYS| {
        thrown := Some(Threw(Some(f.error)));
        return;
      }
      retries, repeat := retries + 1, true;
    } else if f.reported == NONE && recoverable.Within(st.attempted) {
      thrown := Some(Threw(Some(f.error)));
    }
  }

  /** The body of the loop; `ended` is what a return or a throw out of it delivers. */
  method Turn(w: World, confirmed: Kinds, top: LoopState) returns (ended: Option<Verdict>, st: LoopState)
    ensures Step(w, confirmed, top) == if ended.Some? then Ended(ended.value, st.applies) else Again(st)
  {
    st := top;
    var seen := w.inspect(st.inspects);
    if seen.InspectFailed? {
      return Some(InspectionThrew(seen.error)), st;
    }
    st := st.(inspects := st.inspects + 1);
    var candidates := Candidates(confirmed, st.reported, seen.existing, seen.tracked);
    if candidates != NONE && candidates.Within(st.attempted) && !st.repeat {
      return Some(Threw(st.preceding)), st;
    }
    var visibilityRetry := st.repeat;
    st := st.(repeat := false, attempted := st.attempted.And(candidates));
    if !visibilityRetry {
      if st.ordinary >= ORDINARY_LIMIT {
        return Some(Threw(st.preceding)), st;
      }
      st := st.(ordinary := st.ordinary + 1);
    }
    assert st == Begin(top, candidates);
    ended, st := Try(w, confirmed, candidates, st);
  }

  method Try(w: World, confirmed: Kinds, candidates: Kinds, before: LoopState)
    returns (ended: Option<Verdict>, st: LoopState)
    ensures Attempt(w, confirmed, candidates, before) ==
            if ended.Some? then Ended(ended.value, st.applies) else Again(st)
  {
    st := before;
    var f := w.apply(st.applies);
    st := st.(applies := st.applies + 1);
    if f.Succeeded? {
      return Some(Returned), st;
    }
    st := st.(preceding := Some(f.error), reported := f.reported);
    var thrown, key, retries, repeat, inspects := Recover(w, confirmed, candidates, st, f);
    if thrown.Some? {
      return thrown, st;
    }
    return None, st.(key := key, retries := retries, repeat := repeat, inspects := inspects);
  }

  /** Turn number n of a run, counted from the start. */
  method TurnOfRun(w: World, top: LoopState, ghost n: nat) returns (ended: Option<Verdict>, st: LoopState)
    requires TrackedGrows(w) && Turns(w, BOTH, START, n) == Again(top)
    ensures Turns(w, BOTH, START, n + 1) == if ended.Some? then Ended(ended.value, st.applies) else Again(st)
    ensures ended.None? ==> n < 23
    ensures ended.Some? ==> EndsWell(w, ended.value, st.applies)
  {
    ended, st := Turn(w, BOTH, top);
    LoopIsBounded(w, n + 1);
    LoopIsSound(w, n + 1);
  }

  /** The loop of reconcileBootstrapBucketUpdate; 24 turns always reach its end. */
  method Reconcile(w: World) returns (verdict: Verdict, applies: nat)
    requires TrackedGrows(w)
    ensures Turns(w, BOTH, START, 24) == Ended(verdict, applies)
    ensures EndsWell(w, verdict, applies)
  {
    var st, ended := START, None;
    ghost var n := 0;
    while ended.None?
      invariant n <= 24 && (ended.None? ==> n < 24)
      invariant Turns(w, BOTH, START, n) == if ended.Some? then Ended(ended.value, st.applies) else Again(st)
      invariant ended.Some? ==> EndsWell(w, ended.value, st.applies)
      decreases 24 - n
    {
      ended, st := TurnOfRun(w, st, n);
      n := n + 1;
    }
    EndedStaysEnded(w, n, 24);
    return ended.value, st.applies;
  }

  // ----- The bound is attained, and the assumption is needed --------------------------------

  /** A provider that stays blind to both buckets, then to one, and then keeps reporting a collision. */
  function Stubborn(): World {
    World((n: nat) => Seen(BOTH, if n < 20 then NONE else if n < 40 then Kinds(true, false) else BOTH),
          (n: nat) =>
            if n < 10 then Failed(n, NONE, BOTH)
            else if n < 20 then Failed(n, NONE, BACKUP)
            else Failed(n, BACKUP, NONE))
  }

  /** A run that steps through the given states. */
  lemma {:induction false} Chain(w: World, states: nat -> LoopState, n: nat)
    requires states(0) == START && forall m: nat :: m < n ==> Step(w, BOTH, states(m)) == Again(states(m + 1))
    ensures Turns(w, BOTH, START, n) == Again(states(n))
  {
    if n > 0 {
      Chain(w, states, n - 1);
    }
  }

  lemma LastTurn(w: World, n: nat, st: LoopState)
    requires Turns(w, BOTH, START, n) == Again(st)
    ensures Turns(w, BOTH, START, n + 1) == Step(w, BOTH, st)
  {
  }

  function StubbornState(n: nat): LoopState {
    if n == 0 then START
    else if n <= 10 then LoopState(BOTH, NONE, Some(n - 1), 1, true, BOTH, n, 2 * n, n)
    else if n <= 20 then LoopState(BOTH, NONE, Some(n - 1), 1, true, BACKUP, n - 10, 2 * n, n)
    else LoopState(BOTH, BACKUP, Some(n - 1), n - 20, false, BACKUP, 10, n + 20, n)
  }

  /** A failure that names exactly the candidates as invisible is retried, with fresh retries if they are new. */
  lemma RetriedTurn(w: World, st: LoopState, candidates: Kinds, error: nat)
    requires w.inspect(st.inspects) == w.inspect(st.inspects + 1) == Seen(BOTH, BOTH.Without(candidates))
    requires w.apply(st.applies) == Failed(error, NONE, candidates) && candidates != NONE && st.reported == NONE
    requires st.repeat || (st.ordinary < ORDINARY_LIMIT && !candidates.Within(st.attempted))
    requires candidates == st.key ==> st.retries < |DELAYS|
    ensures Step(w, BOTH, st) ==
            Again(Begin(st, candidates).(preceding := Some(error), reported := NONE, inspects := st.inspects + 2,
                                         applies := st.applies + 1, key := candidates, repeat := true,
                                         retries := if candidates == st.key then st.retries + 1 else 1))
  {
  }

  lemma StubbornTurn(n: nat)
    requires n < 23
    ensures Step(Stubborn(), BOTH, StubbornState(n)) == Again(StubbornState(n + 1))
  {
    var w, st := Stubborn(), StubbornState(n);
    if n < 20 {
      var candidates := if n < 10 then BOTH else BACKUP;
      assert w.inspect(2 * n) == w.inspect(2 * n + 1) == Seen(BOTH, BOTH.Without(candidates));
      assert w.apply(n) == Failed(n, NONE, candidates);
      RetriedTurn(w, st, candidates, n);
    } else {
      assert w.inspect(n + 20) == Seen(BOTH, BOTH) && w.apply(n) == Failed(n, BACKUP, NONE);
      CollidingTurn(w, st, n);
    }
  }

  /** A failure that only reports a collision leads to another turn; the bucket is tracked by then. */
  lemma CollidingTurn(w: World, st: LoopState, error: nat)
    requires w.inspect(st.inspects) == Seen(BOTH, BOTH) && w.apply(st.applies) == Failed(error, BACKUP, NONE)
    requires st.repeat || st.ordinary < ORDINARY_LIMIT
    ensures Step(w, BOTH, st) ==
            Again(Begin(st, NONE).(preceding := Some(error), reported := BACKUP, applies := st.applies + 1))
  {
  }

  lemma StubbornEnds()
    ensures TrackedGrows(Stubborn())
    ensures Step(Stubborn(), BOTH, StubbornState(23)) == Ended(Threw(Some(22)), 23)
  {
  }

  /** The bound of 23 applies is exact: this provider uses them all. */
  lemma BoundIsAttained()
    ensures TrackedGrows(Stubborn()) && Turns(Stubborn(), BOTH, START, 24) == Ended(Threw(Some(22)), 23)
  {
    forall m: nat | m < 23 ensures Step(Stubborn(), BOTH, StubbornState(m)) == Again(StubbornState(m + 1)) {
      StubbornTurn(m);
    }
    Chain(Stubborn(), StubbornState, 23);
    StubbornEnds();
    LastTurn(Stubborn(), 23, StubbornState(23));
  }

  /** A provider whose state bucket alternates between tracked and untracked. */
  function Flapping(): World {
    World((n: nat) => Seen(BOTH, if (n / 2) % 2 == 0 then NONE else Kinds(true, false)),
          (n: nat) => Failed(n, NONE, if n % 2 == 0 then BOTH else BACKUP))
  }

  function FlappingState(n: nat): LoopState {
    if n == 0 then START
    else LoopState(BOTH, NONE, Some(n - 1), 1, true, FlappingKey(n - 1), 1, 2 * n, n)
  }

  function FlappingKey(n: nat): Kinds {
    if n % 2 == 0 then BOTH else BACKUP
  }

  lemma FlappingAnswers(n: nat, candidates: Kinds)
    requires candidates == FlappingKey(n)
    ensures Flapping().inspect(2 * n) == Flapping().inspect(2 * n + 1) == Seen(BOTH, BOTH.Without(candidates))
    ensures Flapping().apply(n) == Failed(n, NONE, candidates)
  {
    assert (2 * n) / 2 == n && (2 * n + 1) / 2 == n;
  }

  lemma FlappingTurn(n: nat)
    ensures Step(Flapping(), BOTH, FlappingState(n)) == Again(FlappingState(n + 1))
  {
    FlappingAnswers(n, FlappingKey(n));
    assert n > 0 ==> FlappingKey(n) != FlappingKey(n - 1);
    RetriedTurn(Flapping(), FlappingState(n), FlappingKey(n), n);
  }

  /** Without the assumption the loop need not end: every change of the candidates renews the retries. */
  lemma FlappingNeverEnds(n: nat)
    ensures Turns(Flapping(), BOTH, START, n) == Again(FlappingState(n))
  {
    forall m: nat | m < n ensures Step(Flapping(), BOTH, FlappingState(m)) == Again(FlappingState(m + 1)) {
      FlappingTurn(m);
    }
    Chain(Flapping(), FlappingState, n);
  }
}
