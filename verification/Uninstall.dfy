/** Removal of one deployment generation (scripts/deployment-uninstall.ts).

    Every provider mutation may be the one at which the run is interrupted; a
    later run starts from whatever is left.  Buckets, stacks, Environments and saved
    addresses carry their generation; the items of the billing catalogue do not. */
module Uninstall {
  import opened Common

  datatype Target = Identity | Next | Production
  datatype Kind = State | Backup
  const KINDS := [State, Backup]

  datatype Bucket = Bucket(generation: string, target: Target, kind: Kind)
  datatype Stack = Stack(generation: string, target: Target)
  datatype Resource = Resource(stack: Stack, name: string)
  /** Servers, volumes and record sets carry a provider lock; any resource may be protected in its stack. */
  datatype Guard = Guard(locked: bool, protect: bool)
  datatype Environment = Environment(generation: string, target: Target, operations: bool)
  datatype CatalogKind = Product | Benefit | Meter
  /** `marked` items bear the metadata by which the catalogue is recognised; `users` are the generations that
      sell them, which nothing in the account records. */
  datatype CatalogItem = CatalogItem(id: string, marked: bool, granting: bool, users: set<string>)
  /** An address record; `generation` is the one whose saved addresses it carries. */
  datatype Webhook = Webhook(id: string, url: string)
  datatype Address = Address(generation: string, value: string)

  datatype Outcome = Completed | Interrupted | Refused

  // ----- Pure helpers of scripts/lib/deployment-uninstall.ts ---------------------------

  function Filter(kinds: seq<Kind>, keep: Kind -> bool): (r: seq<Kind>)
    ensures forall k :: k in r <==> k in kinds && keep(k)
  {
    if kinds == [] then []
    else (if keep(kinds[0]) then [kinds[0]] else []) + Filter(kinds[1..], keep)
  }

  datatype TeardownPlan = TeardownPlan(adopt: seq<Kind>, remove: seq<Kind>)

  function StorageTeardownPlan(existing: set<Kind>, tracked: set<Kind>): TeardownPlan {
    TeardownPlan(Filter(KINDS, k => k in existing && k !in tracked), Filter(KINDS, k => k in existing))
  }

  /** Once the adopted buckets are tracked, everything planned for removal is owned;
      nothing absent is removed and nothing tracked is adopted again. */
  lemma PlanEstablishesOwnership(existing: set<Kind>, tracked: set<Kind>)
    ensures var p := StorageTeardownPlan(existing, tracked);
            && (set k | k in p.remove) == existing
            && (set k | k in p.adopt) !! tracked
            && (set k | k in p.remove) <= tracked + (set k | k in p.adopt)
  {
    assert KINDS[0] == State && KINDS[1] == Backup;
    forall k: Kind ensures k in KINDS {
      match k { case State => case Backup => }
    }
  }

  // ----- The billing catalogue -----------------------------------------------------------

  /** The items of each kind in the billing account of a target, in the order in which they are listed. */
  type Shelves = map<(Target, CatalogKind), seq<CatalogItem>>

  function Shelf(shelves: Shelves, target: Target, kind: CatalogKind): seq<CatalogItem> {
    if (target, kind) in shelves then shelves[(target, kind)] else []
  }

  /** Items are listed once, without following the pages. */
  const PAGE := 100

  function Unmarked(s: seq<CatalogItem>): seq<CatalogItem> {
    if s == [] then [] else Unmarked(s[..|s| - 1]) + Plain(s[|s| - 1])
  }

  function Plain(x: CatalogItem): seq<CatalogItem> {
    if x.marked then [] else [x]
  }

  function Listed(s: seq<CatalogItem>): seq<CatalogItem> {
    if |s| <= PAGE then s else s[..PAGE]
  }

  function Unlisted(s: seq<CatalogItem>): seq<CatalogItem> {
    if |s| <= PAGE then [] else s[PAGE..]
  }

  /** What a completed removal leaves of a shelf. */
  function Cleared(s: seq<CatalogItem>): seq<CatalogItem> {
    Unmarked(Listed(s)) + Unlisted(s)
  }

  /** What an interrupted removal may leave: all unmarked items in order, and of the others some, of which one
      may have lost its benefits already. */
  predicate Trimmed(s: seq<CatalogItem>, s': seq<CatalogItem>) {
    s' == s || (Unmarked(s') == Unmarked(s) && forall x :: x in s' ==> CameFrom(x, s))
  }

  /** The whole effect of a removal on a shelf. */
  predicate Removed(s: seq<CatalogItem>, s': seq<CatalogItem>, completed: bool) {
    match completed
    case true => s' == Cleared(s) && Trimmed(s, s')
    case false => Trimmed(s, s')
  }

  predicate CameFrom(x: CatalogItem, s: seq<CatalogItem>) {
    x in s || (x.marked && !x.granting && x.(granting := true) in s)
  }

  lemma TrimmedTransitively(s: seq<CatalogItem>, s': seq<CatalogItem>, s'': seq<CatalogItem>)
    requires Trimmed(s, s') && Trimmed(s', s'')
    ensures Trimmed(s, s'')
  {
  }

  lemma UnmarkedSnoc(s: seq<CatalogItem>, x: CatalogItem)
    ensures Unmarked(s + [x]) == Unmarked(s) + Plain(x)
  {
    assert (s + [x])[..|s + [x]| - 1] == s;
  }

  lemma {:induction false} UnmarkedConcat(a: seq<CatalogItem>, b: seq<CatalogItem>)
    ensures Unmarked(a + b) == Unmarked(a) + Unmarked(b)
    decreases |b|
  {
    if b == [] {
      assert a + b == a && Unmarked(b) == [];
    } else {
      var front, x := b[..|b| - 1], b[|b| - 1];
      assert a + b == (a + front) + [x];
      UnmarkedSnoc(a + front, x);
      UnmarkedConcat(a, front);
      assert Unmarked(a) + (Unmarked(front) + Plain(x)) == (Unmarked(a) + Unmarked(front)) + Plain(x);
    }
  }

  lemma {:induction false} UnmarkedHas(s: seq<CatalogItem>, x: CatalogItem)
    ensures x in Unmarked(s) <==> x in s && !x.marked
  {
    if s != [] {
      UnmarkedHas(s[..|s| - 1], x);
      assert s == s[..|s| - 1] + [s[|s| - 1]];
    }
  }

  lemma {:induction false} UnmarkedTwice(s: seq<CatalogItem>)
    ensures Unmarked(Unmarked(s)) == Unmarked(s)
  {
    if s != [] {
      var front, x := s[..|s| - 1], s[|s| - 1];
      UnmarkedTwice(front);
      if x.marked {
        assert Unmarked(front) + Plain(x) == Unmarked(front);
      } else {
        UnmarkedSnoc(Unmarked(front), x);
      }
    }
  }

  lemma MarkedVanishes(x: CatalogItem)
    requires x.marked
    ensures Unmarked([x]) == []
  {
    assert [x] == [] + [x];
    UnmarkedSnoc([], x);
  }

  lemma UnmarkedNext(s: seq<CatalogItem>, i: nat)
    requires i < |s|
    ensures Unmarked(s[..i + 1]) == Unmarked(s[..i]) + Plain(s[i])
    ensures s[i..] == [s[i]] + s[i + 1..]
  {
    assert s[..i + 1] == s[..i] + [s[i]];
    UnmarkedSnoc(s[..i], s[i]);
  }

  /** The shelf when its removal has come to position i. */
  function Swept(s: seq<CatalogItem>, i: nat): seq<CatalogItem>
    requires i <= |s|
  {
    Unmarked(s[..i]) + s[i..]
  }

  /** The same, with `x` in place of the item there. */
  function Partly(s: seq<CatalogItem>, i: nat, x: seq<CatalogItem>): seq<CatalogItem>
    requires i < |s|
  {
    Unmarked(s[..i]) + (x + s[i + 1..])
  }

  lemma SweptNone(s: seq<CatalogItem>)
    ensures Swept(s, 0) == s
  {
    assert s[..0] == [] && s[0..] == s;
  }

  lemma SweptNext(s: seq<CatalogItem>, i: nat)
    requires i < |s|
    ensures Swept(s, i) == Partly(s, i, [s[i]])
    ensures Swept(s, i + 1) == Partly(s, i, Plain(s[i]))
  {
    UnmarkedNext(s, i);
    var before, rest := Unmarked(s[..i]), s[i + 1..];
    assert (before + Plain(s[i])) + rest == before + (Plain(s[i]) + rest);
  }

  lemma SweptAll(s: seq<CatalogItem>)
    ensures Swept(s, |Listed(s)|) == Cleared(s)
  {
    assert s[..|Listed(s)|] == Listed(s) && s[|Listed(s)|..] == Unlisted(s);
  }

  lemma PartlyTrimmed(s: seq<CatalogItem>, i: nat, x: seq<CatalogItem>)
    requires i < |s| && s[i].marked && (x == [] || x == [s[i].(granting := false)])
    ensures Trimmed(s, Partly(s, i, x))
  {
    PartlyKeepsUnmarked(s, i, x);
    forall y | y in Partly(s, i, x) ensures CameFrom(y, s) {
      PartlyCameFrom(s, i, x, y);
    }
  }

  lemma PartlyKeepsUnmarked(s: seq<CatalogItem>, i: nat, x: seq<CatalogItem>)
    requires i < |s| && s[i].marked && (x == [] || x == [s[i].(granting := false)])
    ensures Unmarked(Partly(s, i, x)) == Unmarked(s)
  {
    var before, rest := s[..i], s[i + 1..];
    MarkedVanishes(s[i]);
    MarkedVanishes(s[i].(granting := false));
    WithoutMarked(before, [s[i]], rest);
    WithoutMarked(Unmarked(before), x, rest);
    UnmarkedTwice(before);
    SplitAround(s, i);
  }

  lemma SplitAround(s: seq<CatalogItem>, i: nat)
    requires i < |s|
    ensures s == s[..i] + ([s[i]] + s[i + 1..])
  {
  }

  lemma WithoutMarked(before: seq<CatalogItem>, x: seq<CatalogItem>, rest: seq<CatalogItem>)
    requires Unmarked(x) == []
    ensures Unmarked(before + (x + rest)) == Unmarked(before) + Unmarked(rest)
  {
    UnmarkedConcat(before, x + rest);
    UnmarkedConcat(x, rest);
    assert [] + Unmarked(rest) == Unmarked(rest);
  }

  lemma PartlyCameFrom(s: seq<CatalogItem>, i: nat, x: seq<CatalogItem>, y: CatalogItem)
    requires i < |s| && s[i].marked && (x == [] || x == [s[i].(granting := false)])
    requires y in Partly(s, i, x)
    ensures CameFrom(y, s)
  {
    UnmarkedHas(s[..i], y);
    if y !in s {
      assert y == s[i].(granting := false) && s[i].granting;
      assert y.(granting := true) == s[i];
    }
  }

  /** Nothing marked is left exactly if every marked item was on the listed page. */
  lemma ClearedIsClean(s: seq<CatalogItem>)
    ensures (forall x :: x in Cleared(s) ==> !x.marked) <==> forall i :: PAGE <= i < |s| ==> !s[i].marked
  {
    forall i | PAGE <= i < |s| ensures s[i] in Cleared(s) {
      assert s[i] == Unlisted(s)[i - PAGE];
    }
    forall x ensures x in Unmarked(Listed(s)) ==> !x.marked {
      UnmarkedHas(Listed(s), x);
    }
    forall x | x in Unlisted(s) ensures exists i :: PAGE <= i < |s| && s[i] == x {
      var k :| 0 <= k < |Unlisted(s)| && Unlisted(s)[k] == x;
      assert s[PAGE + k] == x;
    }
  }

  predicate UsedElsewhere(x: CatalogItem, generation: string) {
    exists g :: g in x.users && g != generation
  }

  /** The other generations keep every item they sell exactly if they sell no listed marked one. */
  lemma OthersKeepTheirItems(s: seq<CatalogItem>, generation: string)
    ensures (forall x :: UsedElsewhere(x, generation) ==> multiset(Cleared(s))[x] == multiset(s)[x])
            <==> (forall x :: x in Listed(s) && x.marked ==> !UsedElsewhere(x, generation))
  {
    assert s == Listed(s) + Unlisted(s);
    forall x: CatalogItem
      ensures multiset(Cleared(s))[x] == multiset(s)[x] - if x.marked then multiset(Listed(s))[x] else 0
    {
      UnmarkedCounts(Listed(s), x);
    }
  }

  lemma {:induction false} UnmarkedCounts(s: seq<CatalogItem>, x: CatalogItem)
    ensures multiset(Unmarked(s))[x] == if x.marked then 0 else multiset(s)[x]
  {
    if s != [] {
      assert s == s[..|s| - 1] + [s[|s| - 1]];
      UnmarkedCounts(s[..|s| - 1], x);
    }
  }

  /** A marked item that a hundred others precede survives a completed removal. */
  lemma LaterPagesAreNotSeen(others: seq<CatalogItem>, item: CatalogItem)
    requires |others| == PAGE && item.marked && forall x :: x in others ==> !x.marked
    ensures Cleared(others + [item]) == others + [item]
  {
    assert Listed(others + [item]) == others && Unlisted(others + [item]) == [item];
    UnmarkedIsAll(others);
  }

  lemma {:induction false} UnmarkedIsAll(s: seq<CatalogItem>)
    requires forall i :: 0 <= i < |s| ==> !s[i].marked
    ensures Unmarked(s) == s
  {
    if s != [] {
      var front, x := s[..|s| - 1], s[|s| - 1];
      UnmarkedIsAll(front);
      assert s == front + [x];
    }
  }

  datatype Storage = Storage(local: map<Target, set<Bucket>>, buckets: set<Bucket>)

  /** The provider accounts, and the local teardown state that survives a run. */
  class Providers {
    const generation: string
    const targets: seq<Target>
    /** The billing webhooks this generation has saved. */
    const saved: map<Target, Webhook>

    var buckets: set<Bucket>
    var stacks: set<Stack>
    var resources: map<Resource, Guard>
    var environments: set<Environment>
    var prefix: Option<string>
    var targetList: bool
    var addresses: set<Address>
    var shelves: Shelves
    /** The URL of every webhook in the billing account of a target, by its id. */
    var hooks: map<(Target, string), string>
    var local: map<Target, set<Bucket>>

    var activeWorkflow: bool
    /** The products with active subscriptions. */
    var subscriptions: set<(Target, string)>
    /** Provider mutations left before the interruption; None is an uninterrupted run. */
    var patience: Option<nat>
    /** Deleted buckets that successive storage listings still report. */
    var echoes: seq<set<Bucket>>
    /** This generation was the selected one when its removal first began. */
    ghost const selected: bool

    constructor (generation: string, targets: seq<Target>, buckets: set<Bucket>, stacks: set<Stack>,
                 resources: map<Resource, Guard>, environments: set<Environment>, prefix: Option<string>,
                 targetList: bool, addresses: set<Address>, shelves: Shelves,
                 saved: map<Target, Webhook>, hooks: map<(Target, string), string>)
      requires forall r :: r in resources ==> r.stack in stacks
      requires forall s :: s in stacks ==> Bucket(s.generation, s.target, State) in buckets
      ensures Ordered() && this.generation == generation && this.targets == targets && this.saved == saved
      ensures this.hooks == hooks && this.shelves == shelves && this.prefix == prefix && local == map[]
      ensures !activeWorkflow && subscriptions == {} && patience == None && echoes == []
    {
      this.generation, this.targets, this.saved, this.hooks := generation, targets, saved, hooks;
      this.buckets, this.stacks, this.resources := buckets, stacks, resources;
      this.environments, this.prefix, this.targetList := environments, prefix, targetList;
      this.addresses, this.shelves, local := addresses, shelves, map[];
      activeWorkflow, subscriptions, patience, echoes := false, {}, None, [];
      selected := prefix == Some(generation);
    }

    /** The saved webhook, as it was saved. */
    predicate OwnHook(key: (Target, string), url: string) {
      key.0 in targets && key.0 in saved && saved[key.0] == Webhook(key.1, url)
    }

    /** Deleted already, or still at the saved URL. */
    predicate HookMatches(target: Target)
      reads `hooks
    {
      target in saved && (target, saved[target].id) in hooks ==> hooks[(target, saved[target].id)] == saved[target].url
    }

    predicate AllHooksMatch()
      reads `hooks
    {
      forall t :: t in targets && t != Identity ==> HookMatches(t)
    }

    predicate HookGone(target: Target)
      reads `hooks
    {
      target in saved ==> (target, saved[target].id) !in hooks
    }

    /** Only the platform targets have a billing account. */
    predicate Billed(target: Target) {
      target in targets && target != Identity
    }

    /** Only marked items of a removed target go, and of these one may lose its benefits first. */
    predicate Kept(before: Shelves, after: Shelves) {
      before.Keys == after.Keys &&
      forall key :: key in before ==>
        if Billed(key.0) then Trimmed(before[key], after[key]) else after[key] == before[key]
    }

    twostate predicate CatalogKept()
      reads `shelves
    {
      Kept(old(shelves), shelves)
    }

    /** Every listed marked item of a removed target is gone, and nothing else. */
    function AllCleared(shelves: Shelves): Shelves {
      map key | key in shelves :: if Billed(key.0) then Cleared(shelves[key]) else shelves[key]
    }

    /** A listed marked product of a removed target has an active subscription. */
    predicate Subscribed()
      reads `shelves, `subscriptions
    {
      exists t, x :: Billed(t) && x in Listed(Shelf(shelves, t, Product)) && x.marked && (t, x.id) in subscriptions
    }

    predicate NoTargetTwice() {
      forall i, k :: 0 <= i < k < |targets| ==> targets[i] != targets[k]
    }

    predicate OwnStack(s: Stack) {
      s.generation == generation && s.target in targets
    }

    /** A webhook that points elsewhere is foreign, so it can only be gone if it did not. */
    twostate lemma GoneMatchedBefore()
      requires ForeignUnchanged() && forall t :: Billed(t) ==> HookGone(t)
      ensures old(AllHooksMatch())
    {
      forall t | t in targets && t != Identity ensures old(HookMatches(t)) {
        assert HookGone(t);
      }
    }

    /** The facts every run relies on and no interruption may break: no resource without its stack, no
        stack without its state bucket, and the selection only gone after what it selects. */
    ghost predicate Ordered()
      reads this
    {
      && (forall r :: r in resources && OwnStack(r.stack) ==> r.stack in stacks)
      && (forall s :: s in stacks && OwnStack(s) ==> Bucket(generation, s.target, State) in buckets)
      && (selected && prefix != Some(generation) ==> EnvironmentsGone() && !targetList)
    }

    ghost predicate EnvironmentsGone()
      reads this
    {
      forall e :: e in environments ==> !(e.generation == generation && e.target in targets)
    }

    /** Nothing outside this generation and its targets changes.  The billing catalogue, which belongs to no
        generation, is dealt with apart. */
    twostate predicate ForeignUnchanged()
      reads this
    {
      && (forall b :: b in old(buckets) && !(b.generation == generation && b.target in targets) ==> b in buckets)
      && (forall s :: s in old(stacks) && !OwnStack(s) ==> s in stacks)
      && (forall r :: r in old(resources) && !OwnStack(r.stack) ==> r in resources && resources[r] == old(resources)[r])
      && (forall e :: e in old(environments) && !(e.generation == generation && e.target in targets) ==>
            e in environments)
      && (forall a :: a in old(addresses) && a.generation != generation ==> a in addresses)
      && (forall key :: key in old(hooks) && !OwnHook(key, old(hooks)[key]) ==>
            key in hooks && hooks[key] == old(hooks)[key])
    }

    /** Nothing foreign changes, nothing is created, and the invariant survives. */
    twostate predicate Steady()
      reads this
    {
      && Ordered() && ForeignUnchanged()
      && buckets <= old(buckets) && stacks <= old(stacks) && resources.Keys <= old(resources).Keys
      && environments <= old(environments) && addresses <= old(addresses)
      && (forall key :: key in hooks ==> key in old(hooks) && hooks[key] == old(hooks)[key])
      && (old(patience).None? <==> patience.None?) && (old(echoes) == [] ==> echoes == [])
    }

    /** The shared selection is only ever cleared by the generation it selects. */
    twostate predicate SelectionIsOurs()
      reads this
    {
      && (prefix == old(prefix) || (old(prefix) == Some(generation) && prefix == None))
      && (targetList == old(targetList) || (old(prefix) == Some(generation) && !targetList))
    }

    /** One provider mutation is about to be sent. */
    method Send() returns (sent: bool)
      modifies `patience
      ensures old(patience).None? ==> sent
      ensures old(patience).None? <==> patience.None?
    {
      if patience.None? {
        return true;
      }
      sent := patience.value > 0;
      if sent {
        patience := Some(patience.value - 1);
      }
    }

    /** The signed existence check: it may still report a deleted bucket, never miss a present one. */
    method ExistingKinds(target: Target) returns (kinds: set<Kind>)
      modifies `echoes
      ensures forall k :: Bucket(generation, target, k) in buckets ==> k in kinds
      ensures old(echoes) == [] ==> echoes == [] && forall k :: k in kinds ==> Bucket(generation, target, k) in buckets
    {
      var reported := if echoes == [] then {} else echoes[0];
      echoes := if echoes == [] then [] else echoes[1..];
      kinds := set k: Kind | Bucket(generation, target, k) in buckets || Bucket(generation, target, k) in reported;
    }

    // ----- Infrastructure ---------------------------------------------------------------

    method Unlock(stack: Stack) returns (o: Outcome)
      requires Ordered() && OwnStack(stack)
      modifies `patience, `resources
      ensures Steady() && o != Refused
      ensures old(patience).None? ==> o == Completed
      ensures o == Completed ==> forall r :: r in resources && r.stack == stack ==> !resources[r].locked
    {
      var todo := set r | r in resources && r.stack == stack && resources[r].locked;
      while todo != {}
        invariant Steady()
        invariant forall r :: r in todo ==> r in resources && r.stack == stack
        invariant forall r :: r in resources && r.stack == stack && resources[r].locked ==> r in todo
        decreases todo
      {
        var sent := Send();
        if !sent {
          return Interrupted;
        }
        var r :| r in todo;
        resources := resources[r := resources[r].(locked := false)];
        todo := todo - {r};
      }
      return Completed;
    }

    method Unprotect(stack: Stack) returns (o: Outcome)
      requires Ordered() && OwnStack(stack)
      modifies `patience, `resources
      ensures Steady() && o != Refused
      ensures old(patience).None? ==> o == Completed
      ensures o == Completed ==> resources.Keys == old(resources).Keys
                                 && forall r :: r in resources && r.stack == stack ==>
                                     resources[r] == Guard(old(resources)[r].locked, false)
    {
      var sent := Send();
      if !sent {
        return Interrupted;
      }
      resources := map r | r in resources :: if r.stack == stack then resources[r].(protect := false) else resources[r];
      return Completed;
    }

    method DestroyResources(stack: Stack) returns (o: Outcome)
      requires Ordered() && OwnStack(stack)
      modifies `patience, `resources
      ensures Steady() && o != Refused
      ensures o == Completed ==> forall r :: r in resources ==> r.stack != stack
      ensures old(patience).None? && (forall r :: r in old(resources) && r.stack == stack ==>
                old(resources)[r] == Guard(false, false))
              ==> o == Completed
    {
      var todo := set r | r in resources && r.stack == stack;
      while todo != {}
        invariant todo <= resources.Keys && Steady()
        invariant forall r :: r in todo ==> r.stack == stack
        invariant forall r :: r in resources && r.stack == stack ==> r in todo && resources[r] == old(resources)[r]
        decreases todo
      {
        var sent := Send();
        var r :| r in todo;
        if !sent || resources[r].locked || resources[r].protect {
          return Interrupted;
        }
        resources := resources - {r};
        todo := todo - {r};
      }
      return Completed;
    }

    /** Skipped when the state bucket is absent: by the invariant its stack cannot exist either. */
    method DestroyPlatform(target: Target) returns (o: Outcome)
      requires Ordered() && target in targets
      modifies `patience, `echoes, `resources, `stacks
      ensures Steady() && o != Refused
      ensures o == Completed ==> Stack(generation, target) !in stacks
      ensures old(patience).None? && old(echoes) == [] ==> o == Completed
    {
      var stack := Stack(generation, target);
      var kinds := ExistingKinds(target);
      if State !in kinds {
        return Completed;
      }
      if Bucket(generation, target, State) !in buckets {
        return Interrupted;
      }
      if stack !in stacks {
        return Completed;
      }
      o := Unlock(stack);
      if o != Completed { return; }
      o := Unprotect(stack);
      if o != Completed { return; }
      o := DestroyResources(stack);
      if o != Completed { return; }
      var sent := Send();
      if !sent {
        return Interrupted;
      }
      stacks := stacks - {stack};
    }

    // ----- Provider integrations -----------------------------------------------------------

    method RemoveIdentityDns() returns (o: Outcome)
      requires Ordered()
      modifies `patience, `addresses
      ensures Steady() && o != Refused
      ensures o == Completed ==> forall a :: a in addresses ==> a.generation != generation
      ensures old(patience).None? ==> o == Completed
    {
      var todo := set a | a in addresses && a.generation == generation;
      while todo != {}
        invariant todo <= addresses && Steady()
        invariant forall a :: a in addresses && a.generation == generation ==> a in todo
        invariant forall a :: a in todo ==> a.generation == generation
        decreases todo
      {
        var sent := Send();
        if !sent {
          return Interrupted;
        }
        var a :| a in todo;
        addresses, todo := addresses - {a}, todo - {a};
      }
      return Completed;
    }

    /** What the steps on the billing account leave alone. */
    twostate predicate BillingSteady()
      reads this
    {
      && (forall key :: key in hooks ==> key in old(hooks) && hooks[key] == old(hooks)[key])
      && (forall key :: key in old(hooks) && !OwnHook(key, old(hooks)[key]) ==> key in hooks)
      && (old(patience).None? <==> patience.None?)
    }

    /** Only the shelf with this key changes. */
    twostate predicate OnlyShelf(key: (Target, CatalogKind))
      reads `shelves
    {
      shelves.Keys == old(shelves).Keys && forall o :: o in shelves && o != key ==> shelves[o] == old(shelves)[o]
    }

    /** Drops the benefits of each listed marked product and archives it; the other kinds go in one step. */
    method SweepShelf(key: (Target, CatalogKind)) returns (o: Outcome)
      modifies `patience, `shelves
      ensures o != Refused && (old(patience).None? <==> patience.None?) && (old(patience).None? ==> o == Completed)
      ensures OnlyShelf(key) && (key in shelves ==> Removed(old(shelves)[key], shelves[key], o == Completed))
    {
      if key !in shelves {
        return Completed;
      }
      var s := shelves[key];
      var page := Listed(s);
      SweptNone(s);
      for i := 0 to |page|
        invariant old(patience).None? <==> patience.None?
        invariant OnlyShelf(key) && key in shelves && shelves[key] == Swept(s, i) && Trimmed(s, shelves[key])
      {
        SweptNext(s, i);
        if page[i].marked {
          PartlyTrimmed(s, i, [s[i].(granting := false)]);
          PartlyTrimmed(s, i, []);
          o := TakeItem(key, Partly(s, i, [s[i].(granting := false)]), Partly(s, i, []));
          if o != Completed { return; }
        }
      }
      SweptAll(s);
      return Completed;
    }

    /** A product loses its benefits before it is archived. */
    method TakeItem(key: (Target, CatalogKind), bare: seq<CatalogItem>, gone: seq<CatalogItem>) returns (o: Outcome)
      requires key in shelves
      modifies `patience, `shelves
      ensures o != Refused && (old(patience).None? <==> patience.None?) && (old(patience).None? ==> o == Completed)
      ensures OnlyShelf(key)
      ensures shelves[key] == old(shelves)[key] || shelves[key] == bare || o == Completed
      ensures o == Completed ==> shelves[key] == gone
    {
      if key.1 == Product {
        var sent := Send();
        if !sent {
          return Interrupted;
        }
        shelves := shelves[key := bare];
      }
      var sent := Send();
      if !sent {
        return Interrupted;
      }
      shelves := shelves[key := gone];
      return Completed;
    }

    /** Only the account of this target changes. */
    twostate predicate OnlyAccountOf(target: Target)
      reads `shelves
    {
      shelves.Keys == old(shelves).Keys && forall o :: o in shelves && o.0 != target ==> shelves[o] == old(shelves)[o]
    }

    method SweepShelves(target: Target) returns (o: Outcome)
      modifies `patience, `shelves
      ensures o != Refused && (old(patience).None? <==> patience.None?) && (old(patience).None? ==> o == Completed)
      ensures OnlyAccountOf(target)
      ensures forall key :: key in shelves && key.0 == target ==>
                Removed(old(shelves)[key], shelves[key], o == Completed)
    {
      ghost var before := shelves;
      ThreeKinds(target);
      NothingRemoved(before);
      o := SweepShelf((target, Product));
      if o == Completed {
        AlsoInterrupted(before, shelves);
        o := SweepLesserShelves(target);
      }
    }

    method SweepLesserShelves(target: Target) returns (o: Outcome)
      modifies `patience, `shelves
      ensures o != Refused && (old(patience).None? <==> patience.None?) && (old(patience).None? ==> o == Completed)
      ensures OnlyAccountOf(target)
      ensures forall key :: key in shelves && key.0 == target ==>
                if key.1 == Product then shelves[key] == old(shelves)[key]
                else Removed(old(shelves)[key], shelves[key], o == Completed)
    {
      ghost var before := shelves;
      ThreeKinds(target);
      NothingRemoved(before);
      o := SweepShelf((target, Benefit));
      if o == Completed {
        AlsoInterrupted(before, shelves);
        o := SweepShelf((target, Meter));
      }
    }

    lemma ThreeKinds(target: Target)
      ensures forall key: (Target, CatalogKind) :: key.0 == target ==>
                key == (target, Product) || key == (target, Benefit) || key == (target, Meter)
    {
      forall key: (Target, CatalogKind) | key.0 == target
        ensures key == (target, Product) || key == (target, Benefit) || key == (target, Meter)
      {
        match key.1 { case Product => case Benefit => case Meter => }
      }
    }

    lemma NothingRemoved(shelves: Shelves)
      ensures forall key :: key in shelves ==> Removed(shelves[key], shelves[key], false)
    {
    }

    lemma AlsoInterrupted(before: Shelves, after: Shelves)
      ensures forall key :: key in before && key in after && Removed(before[key], after[key], true) ==>
                Removed(before[key], after[key], false)
    {
    }

    /** Refuses exactly when the saved webhook now has another URL; by then the catalogue is cleared. */
    method RemovePolar(target: Target) returns (o: Outcome)
      requires Ordered() && target in targets && target != Identity
      modifies `patience, `shelves, `hooks
      ensures BillingSteady() && OnlyAccountOf(target)
      ensures forall key :: key in shelves && key.0 == target ==>
                Removed(old(shelves)[key], shelves[key], o != Interrupted)
      ensures o == Completed ==> HookGone(target)
      ensures o == Refused ==> !old(HookMatches(target))
      ensures old(patience).None? ==> o == if old(HookMatches(target)) then Completed else Refused
    {
      ghost var before := shelves;
      o := SweepShelves(target);
      if o != Completed { return; }
      AlsoInterrupted(before, shelves);
      o := RemoveWebhook(target);
    }

    method RemoveWebhook(target: Target) returns (o: Outcome)
      requires Ordered() && target in targets
      modifies `patience, `hooks
      ensures BillingSteady()
      ensures o == Completed ==> HookGone(target)
      ensures o == Refused ==> !old(HookMatches(target))
      ensures old(patience).None? ==> o == if old(HookMatches(target)) then Completed else Refused
    {
      if target in saved && (target, saved[target].id) in hooks {
        var key := (target, saved[target].id);
        if hooks[key] != saved[target].url {
          return Refused;
        }
        var sent := Send();
        if !sent {
          return Interrupted;
        }
        hooks := hooks - {key};
      }
      return Completed;
    }

    method DeleteEnvironments() returns (o: Outcome)
      requires Ordered()
      modifies `patience, `environments
      ensures Steady() && o != Refused
      ensures o == Completed ==> EnvironmentsGone()
      ensures old(patience).None? ==> o == Completed
    {
      for k := 0 to |targets|
        invariant Steady()
        invariant forall e :: e in environments && e.generation == generation ==> e.target !in targets[..k]
      {
        for operations := 0 to 2
          invariant Steady()
          invariant forall e :: e in environments && e.generation == generation ==>
                      e.target !in targets[..k] && !(e.target == targets[k] && operations > 0 && !e.operations)
                      && !(e.target == targets[k] && operations > 1 && e.operations)
        {
          var e := Environment(generation, targets[k], operations == 1);
          if e in environments {
            var sent := Send();
            if !sent {
              return Interrupted;
            }
            environments := environments - {e};
          }
        }
        assert targets[..k + 1] == targets[..k] + [targets[k]];
      }
      assert targets[..|targets|] == targets;
      return Completed;
    }

    /** The active prefix is the commit marker of the repository cleanup and goes last. */
    method RemoveGitHub() returns (o: Outcome)
      requires Ordered()
      modifies `patience, `environments, `prefix, `targetList
      ensures Steady() && SelectionIsOurs()
      ensures o == Refused <==> old(prefix).Some? && old(prefix) != Some(generation)
      ensures o == Completed ==>
                EnvironmentsGone() && prefix == None && (old(prefix) == Some(generation) ==> !targetList)
      ensures old(patience).None? ==> o != Interrupted
    {
      if prefix.Some? && prefix != Some(generation) {
        return Refused;
      }
      o := DeleteEnvironments();
      if o != Completed { return; }
      if prefix == Some(generation) {
        if targetList {
          var sent := Send();
          if !sent {
            return Interrupted;
          }
          targetList := false;
        }
        var sent := Send();
        if !sent {
          return Interrupted;
        }
        prefix := None;
      }
      return Completed;
    }

    // ----- Storage ----------------------------------------------------------------------------

    predicate OwnBuckets(target: Target, bs: set<Bucket>) {
      forall b :: b in bs ==> b.generation == generation && b.target == target
    }

    /** The local teardown state of a target matters while the target still has a bucket. */
    ghost predicate Fits(target: Target)
      reads `local, `buckets
    {
      FitsIn(Storage(local, buckets), target)
    }

    ghost predicate FitsIn(s: Storage, target: Target) {
      (exists k :: Bucket(generation, target, k) in s.buckets) && target in s.local ==>
        OwnBuckets(target, s.local[target])
    }

    ghost predicate AllFit()
      reads `local, `buckets
    {
      forall t :: t in targets ==> Fits(t)
    }

    /** Importing a bucket that the provider no longer has fails. */
    method AdoptOne(target: Target, kind: Kind) returns (o: Outcome)
      requires Ordered() && target in targets && target in local && OwnBuckets(target, local[target])
      modifies `patience, `local
      ensures Steady() && o != Refused
      ensures local == if o != Completed then old(local)
                       else old(local)[target := old(local)[target] + {Bucket(generation, target, kind)}]
      ensures old(patience).None? && Bucket(generation, target, kind) in buckets ==> o == Completed
    {
      var sent := Send();
      if !sent || Bucket(generation, target, kind) !in buckets {
        return Interrupted;
      }
      local := local[target := local[target] + {Bucket(generation, target, kind)}];
      return Completed;
    }

    method Adopt(target: Target, adopt: seq<Kind>) returns (o: Outcome)
      requires Ordered() && target in targets && target in local && OwnBuckets(target, local[target])
      modifies `patience, `local
      ensures Steady() && o != Refused
      ensures target in local && OwnBuckets(target, local[target]) && old(local)[target] <= local[target]
      ensures local.Keys == old(local).Keys
      ensures forall t :: t != target && t in local ==> t in old(local) && local[t] == old(local)[t]
      ensures o == Completed ==> forall k :: k in adopt ==> Bucket(generation, target, k) in local[target]
      ensures old(patience).None? && (forall k :: k in adopt ==> Bucket(generation, target, k) in buckets) ==>
                o == Completed
    {
      for i := 0 to |adopt|
        invariant Steady()
        invariant target in local && OwnBuckets(target, local[target]) && old(local)[target] <= local[target]
        invariant local.Keys == old(local).Keys
        invariant forall t :: t != target && t in local ==> t in old(local) && local[t] == old(local)[t]
        invariant forall m :: 0 <= m < i ==> Bucket(generation, target, adopt[m]) in local[target]
      {
        o := AdoptOne(target, adopt[i]);
        if o != Completed { return; }
      }
      return Completed;
    }

    method DeleteBuckets(target: Target, remove: seq<Kind>) returns (o: Outcome)
      requires Ordered() && target in targets && target in local && OwnBuckets(target, local[target])
      requires Stack(generation, target) !in stacks
      modifies `patience, `local, `buckets
      ensures Steady() && o != Refused
      ensures forall b :: b in old(buckets) && b !in buckets ==>
                b.generation == generation && b.target == target && b in old(local)[target]
      ensures target in local && OwnBuckets(target, local[target])
      ensures local.Keys == old(local).Keys
      ensures forall t :: t != target && t in local ==> t in old(local) && local[t] == old(local)[t]
      ensures o == Completed ==> forall k :: k in remove ==> Bucket(generation, target, k) !in buckets
      ensures old(patience).None?
              && (forall k :: k in remove ==> Bucket(generation, target, k) in old(local)[target])
              ==> o == Completed
    {
      for i := 0 to |remove|
        invariant Steady()
        invariant local == old(local)
        invariant forall b :: b in old(buckets) && b !in buckets ==>
                    b.generation == generation && b.target == target && b in local[target]
        invariant forall m :: 0 <= m < i ==> Bucket(generation, target, remove[m]) !in buckets
      {
        var sent := Send();
        if !sent || Bucket(generation, target, remove[i]) !in local[target] {
          return Interrupted;
        }
        buckets := buckets - {Bucket(generation, target, remove[i])};
      }
      local := local[target := local[target] - (set k | k in remove :: Bucket(generation, target, k))];
      return Completed;
    }

    /** At most five listings; only a listing without the buckets ends it well. */
    method VerifyBucketsAbsent(target: Target) returns (absent: bool)
      modifies `echoes
      ensures absent ==> forall k :: Bucket(generation, target, k) !in buckets
      ensures old(echoes) == [] ==> echoes == [] && (absent <==> forall k :: Bucket(generation, target, k) !in buckets)
    {
      for attempt := 1 to 6
        invariant old(echoes) == [] ==> echoes == []
        invariant old(echoes) == [] && attempt > 1 ==> exists k :: Bucket(generation, target, k) in buckets
      {
        var remaining := ExistingKinds(target);
        if remaining == {} {
          return true;
        }
        if echoes == [] && old(echoes) == [] {
          var k :| k in remaining;
        }
      }
      return false;
    }

    /** Takes ownership of the existing buckets in the local stack, then deletes them. */
    method EmptyStorage(target: Target, existing: set<Kind>) returns (o: Outcome)
      requires Ordered() && target in targets && Stack(generation, target) !in stacks
      requires target in local && OwnBuckets(target, local[target])
      modifies `patience, `local, `buckets
      ensures Steady() && target in local && OwnBuckets(target, local[target])
      ensures o == Completed ==> forall k :: k in existing ==> Bucket(generation, target, k) !in buckets
      ensures local.Keys == old(local).Keys
      ensures forall t :: t != target && t in local ==> t in old(local) && local[t] == old(local)[t]
      ensures forall b: Bucket :: b.target != target ==> (b in buckets <==> b in old(buckets))
      ensures old(patience).None? && (forall k :: k in existing ==> Bucket(generation, target, k) in old(buckets)) ==>
                o == Completed
    {
      var tracked := set k: Kind | Bucket(generation, target, k) in local[target];
      var plan := StorageTeardownPlan(existing, tracked);
      PlanEstablishesOwnership(existing, tracked);
      o := Adopt(target, plan.adopt);
      if o != Completed { return; }
      if exists k :: k in plan.remove && Bucket(generation, target, k) !in local[target] {
        return Refused;
      }
      o := DeleteBuckets(target, plan.remove);
    }

    /** Forgets the local teardown stack. */
    method ForgetLocal(target: Target) returns (o: Outcome)
      requires Ordered()
      modifies `patience, `local
      ensures Steady() && o != Refused
      ensures local == (if o == Completed then old(local) - {target} else old(local))
      ensures old(patience).None? ==> o == Completed
    {
      if target in local {
        var sent := Send();
        if !sent {
          return Interrupted;
        }
        local := local - {target};
      }
      return Completed;
    }

    /** Creates the local teardown stack unless an earlier run has left one. */
    method SelectLocal(target: Target) returns (o: Outcome)
      requires Ordered()
      modifies `patience, `local
      ensures Steady() && o != Refused
      ensures local == if o == Completed && target !in old(local) then old(local)[target := {}] else old(local)
      ensures o == Completed ==> target in local
      ensures old(patience).None? ==> o == Completed
    {
      if target !in local {
        var sent := Send();
        if !sent {
          return Interrupted;
        }
        local := local[target := {}];
      }
      return Completed;
    }

    /** What is done to the storage of one target concerns no other. */
    ghost predicate OnlyStorage(target: Target, before: Storage, after: Storage) {
      && (forall t :: t != target ==> (t in after.local <==> t in before.local))
      && (forall t :: t != target && t in after.local ==> after.local[t] == before.local[t])
      && (forall b: Bucket :: b.target != target ==> (b in after.buckets <==> b in before.buckets))
    }

    method RemoveStorage(target: Target) returns (o: Outcome)
      requires Ordered() && target in targets && Stack(generation, target) !in stacks
      modifies `patience, `echoes, `local, `buckets
      ensures Steady() && OnlyStorage(target, old(Storage(local, buckets)), Storage(local, buckets))
      ensures o == Completed ==> target !in local && forall k :: Bucket(generation, target, k) !in buckets
      ensures old(Fits(target)) ==> Fits(target)
      ensures o == Completed ==> old(Fits(target))
      ensures old(patience).None? && old(echoes) == [] && old(Fits(target)) ==> o == Completed
    {
      var existing := ExistingKinds(target);
      if existing == {} {
        o := ForgetLocal(target);
        return;
      }
      o := SelectLocal(target);
      if o != Completed { return; }
      if !OwnBuckets(target, local[target]) {
        return Refused;
      }
      o := EmptyStorage(target, existing);
      if o != Completed { return; }
      var absent := VerifyBucketsAbsent(target);
      if !absent {
        return Interrupted;
      }
      o := ForgetLocal(target);
    }

    // ----- The whole run -------------------------------------------------------------------------

    /** What a completed run leaves: of this generation nothing, the billing catalogue apart. */
    ghost predicate NothingLeft()
      reads this
    {
      && (forall b :: b in buckets && b.target in targets ==> b.generation != generation)
      && (forall s :: s in stacks ==> !OwnStack(s))
      && (forall r :: r in resources ==> !OwnStack(r.stack))
      && EnvironmentsGone()
      && (Identity in targets ==> forall a :: a in addresses ==> a.generation != generation)
      && (forall t :: Billed(t) ==> HookGone(t))
      && prefix == None && (selected ==> !targetList)
    }

    /** No other generation is selected, no platform workflow runs, nobody is subscribed to a listed product, no
        saved webhook has been pointed elsewhere, and the local teardown state of a target that still has a
        bucket holds only this generation's. */
    ghost predicate Clear()
      reads `prefix, `activeWorkflow, `subscriptions, `shelves, `hooks, `local, `buckets
    {
      (prefix == None || prefix == Some(generation)) && !activeWorkflow && !Subscribed() && AllHooksMatch() && AllFit()
    }

    /** Clear, and nobody is subscribed to a product that a later listing could show either. */
    ghost predicate ClearForGood()
      reads `prefix, `activeWorkflow, `subscriptions, `shelves, `hooks, `local, `buckets
    {
      Clear() && Unsubscribed(shelves, subscriptions)
    }

    method FindSubscription() returns (active: bool)
      ensures active <==> Subscribed()
    {
      for k := 0 to |targets|
        invariant forall m, x ::
                    && 0 <= m < k && targets[m] != Identity
                    && x in Listed(Shelf(shelves, targets[m], Product)) && x.marked ==>
                      (targets[m], x.id) !in subscriptions
      {
        if targets[k] != Identity {
          var page := Listed(Shelf(shelves, targets[k], Product));
          for i := 0 to |page|
            invariant forall m :: 0 <= m < i && page[m].marked ==> (targets[k], page[m].id) !in subscriptions
          {
            if page[i].marked && (targets[k], page[i].id) in subscriptions {
              assert Billed(targets[k]) && page[i] in page;
              return true;
            }
          }
        }
      }
      return false;
    }

    /** What refuses a run before it does anything. */
    predicate Barred()
      reads `prefix, `activeWorkflow, `subscriptions, `shelves
    {
      (prefix.Some? && prefix != Some(generation)) || activeWorkflow || Subscribed()
    }

    /** Nothing that a run can change has changed. */
    twostate predicate Untouched()
      reads this
    {
      && resources == old(resources) && stacks == old(stacks) && buckets == old(buckets) && local == old(local)
      && shelves == old(shelves) && hooks == old(hooks) && addresses == old(addresses)
      && environments == old(environments) && prefix == old(prefix) && targetList == old(targetList)
      && patience == old(patience) && echoes == old(echoes)
    }

    /** Each part is begun only after the ones before it: infrastructure, integrations, GitHub, storage. */
    twostate predicate InOrder()
      reads this
    {
      && ((exists s :: s in stacks && OwnStack(s)) ==>
            shelves == old(shelves) && hooks == old(hooks) && addresses == old(addresses))
      && ((exists t :: Billed(t) && !HookGone(t)) ==>
            environments == old(environments) && prefix == old(prefix) && targetList == old(targetList))
      && (!EnvironmentsGone() || prefix != None ==> local == old(local) && buckets == old(buckets))
    }

    /** One run.  However it ends, the invariant holds, nothing foreign has changed and the parts were taken in
        order; barred, it is refused and has changed nothing at all.  Uninterrupted, it completes if and only if
        the guards are clear; completed, it leaves nothing of this generation and has taken exactly the listed
        marked items from the billing catalogue. */
    method Run() returns (o: Outcome)
      requires Ordered() && NoTargetTwice()
      modifies `patience, `echoes, `resources, `stacks, `addresses, `shelves, `hooks, `environments, `prefix,
          `targetList, `local, `buckets
      ensures CatalogKept() && InOrder()
      ensures Steady() && SelectionIsOurs()
      ensures old(Barred()) ==> o == Refused && Untouched()
      ensures o == Completed ==> NothingLeft() && shelves == AllCleared(old(shelves)) && old(Clear())
      ensures old(ClearForGood()) ==> ClearForGood()
      ensures old(patience).None? && old(echoes) == [] && old(Clear()) ==> o == Completed
    {
      if (prefix.Some? && prefix != Some(generation)) || activeWorkflow {
        return Refused;
      }
      var active := FindSubscription();
      if active {
        return Refused;
      }
      o := Teardown();
      if Unsubscribed(old(shelves), subscriptions) {
        NoNewSubscriptions(old(shelves), shelves, subscriptions);
      }
    }

    method Teardown() returns (o: Outcome)
      requires Ordered() && NoTargetTwice() && (prefix == None || prefix == Some(generation))
      modifies `patience, `echoes, `resources, `stacks, `addresses, `shelves, `hooks, `environments, `prefix,
          `targetList, `local, `buckets
      ensures CatalogKept() && (o == Completed ==> shelves == AllCleared(old(shelves)))
      ensures Steady() && SelectionIsOurs() && InOrder()
      ensures o == Completed ==> NothingLeft() && old(AllHooksMatch()) && old(AllFit())
      ensures (old(AllHooksMatch()) ==> AllHooksMatch()) && (old(AllFit()) ==> AllFit())
      ensures old(patience).None? && old(echoes) == [] && old(AllHooksMatch()) && old(AllFit()) ==> o == Completed
    {
      o := RemoveAccounts();
      if o != Completed { return; }
      GoneMatchedBefore();
      o := RemoveAllStorage();
    }

    ghost predicate Unsubscribed(shelves: Shelves, subscriptions: set<(Target, string)>) {
      forall t, x :: Billed(t) && x in Shelf(shelves, t, Product) && x.marked ==> (t, x.id) !in subscriptions
    }

    lemma NoNewSubscriptions(before: Shelves, after: Shelves, subscriptions: set<(Target, string)>)
      requires Kept(before, after) && Unsubscribed(before, subscriptions)
      ensures Unsubscribed(after, subscriptions)
    {
      forall t, x | Billed(t) && x in Shelf(after, t, Product) && x.marked ensures (t, x.id) !in subscriptions {
        assert Trimmed(before[(t, Product)], after[(t, Product)]);
        assert x in Shelf(before, t, Product) || x.(granting := true) in Shelf(before, t, Product);
      }
    }

    /** Any number of runs, each cut short at any mutation and misled by any stale listings. */
    method RunInterrupted(interruptions: seq<(nat, seq<set<Bucket>>)>)
      requires Ordered() && NoTargetTwice()
      modifies this
      ensures Ordered() && ForeignUnchanged() && CatalogKept() && SelectionIsOurs()
      ensures old(ClearForGood()) ==> ClearForGood()
    {
      for k := 0 to |interruptions|
        invariant Ordered() && ForeignUnchanged() && CatalogKept() && SelectionIsOurs()
        invariant old(ClearForGood()) ==> ClearForGood()
      {
        ghost var before := shelves;
        InterruptedRun(interruptions[k].0, interruptions[k].1);
        KeptTransitively(old(shelves), before, shelves);
      }
    }

    method InterruptedRun(mutations: nat, stale: seq<set<Bucket>>)
      requires Ordered() && NoTargetTwice()
      modifies this
      ensures Ordered() && ForeignUnchanged() && CatalogKept() && SelectionIsOurs()
      ensures old(ClearForGood()) ==> ClearForGood()
    {
      patience, echoes := Some(mutations), stale;
      var _ := Run();
    }

    /** The same, and then a run that is not: what the skips rely on holds throughout and nothing foreign ever
        changes; the last run completes if and only if the guards are clear when it begins, as they are if they
        were clear for good; and then nothing of this generation is left, nor any marked item listed by then. */
    method RunUntilDone(interruptions: seq<(nat, seq<set<Bucket>>)>)
      returns (o: Outcome, ghost clear: bool, ghost listed: Shelves)
      requires Ordered() && NoTargetTwice()
      modifies this
      ensures Ordered() && ForeignUnchanged() && CatalogKept() && SelectionIsOurs()
      ensures (o == Completed <==> clear) && (old(ClearForGood()) ==> clear)
      ensures Kept(old(shelves), listed) && (o == Completed ==> NothingLeft() && shelves == AllCleared(listed))
    {
      RunInterrupted(interruptions);
      listed, clear := shelves, Clear();
      o := UninterruptedRun();
      KeptTransitively(old(shelves), listed, shelves);
    }

    method UninterruptedRun() returns (o: Outcome)
      requires Ordered() && NoTargetTwice()
      modifies this
      ensures Ordered() && ForeignUnchanged() && CatalogKept() && SelectionIsOurs()
      ensures o == Completed <==> old(Clear())
      ensures o == Completed ==> NothingLeft() && shelves == AllCleared(old(shelves))
    {
      ghost var clear := Clear();
      patience, echoes := None, [];
      assert Clear() == clear;
      o := Run();
    }

    lemma KeptTransitively(a: Shelves, b: Shelves, c: Shelves)
      requires Kept(a, b) && Kept(b, c)
      ensures Kept(a, c)
    {
      forall key | key in a && Billed(key.0) ensures Trimmed(a[key], c[key]) {
        TrimmedTransitively(a[key], b[key], c[key]);
      }
    }

    /** Everything but the storage, which holds what an interrupted run needs to go on. */
    method RemoveAccounts() returns (o: Outcome)
      requires Ordered() && NoTargetTwice() && (prefix.None? || prefix == Some(generation))
      modifies `patience, `echoes, `resources, `stacks, `addresses, `shelves, `hooks, `environments, `prefix,
          `targetList
      ensures CatalogKept()
      ensures Steady() && SelectionIsOurs()
      ensures (exists s :: s in stacks && OwnStack(s)) ==>
                shelves == old(shelves) && hooks == old(hooks) && addresses == old(addresses)
      ensures (exists t :: Billed(t) && !HookGone(t)) ==>
                environments == old(environments) && prefix == old(prefix) && targetList == old(targetList)
      ensures o == Completed ==>
        && (forall s :: s in stacks ==> !OwnStack(s))
        && (Identity in targets ==> forall a :: a in addresses ==> a.generation != generation)
        && shelves == AllCleared(old(shelves)) && (forall t :: Billed(t) ==> HookGone(t))
        && EnvironmentsGone() && prefix == None && (old(prefix) == Some(generation) ==> !targetList)
      ensures o == Refused ==> !old(AllHooksMatch())
      ensures old(patience).None? && old(echoes) == [] && old(AllHooksMatch()) ==> o == Completed
    {
      o := RemoveInfrastructure();
      if o != Completed { return; }
      o := RemoveIntegrations();
      if o != Completed { return; }
      o := RemoveGitHub();
    }

    method RemoveInfrastructure() returns (o: Outcome)
      requires Ordered()
      modifies `patience, `echoes, `resources, `stacks
      ensures Steady() && o != Refused
      ensures o == Completed ==> forall s :: s in stacks ==> !OwnStack(s)
      ensures old(patience).None? && old(echoes) == [] ==> o == Completed
    {
      for k := 0 to |targets|
        invariant Steady()
        invariant forall s :: s in stacks && s.generation == generation ==> s.target !in targets[..k]
      {
        o := DestroyPlatform(targets[k]);
        if o != Completed { return; }
        assert targets[..k + 1] == targets[..k] + [targets[k]];
      }
      assert targets[..|targets|] == targets;
      o := Completed;
    }

    method RemoveIntegrations() returns (o: Outcome)
      requires Ordered() && NoTargetTwice()
      modifies `patience, `addresses, `shelves, `hooks
      ensures CatalogKept()
      ensures Steady()
      ensures o == Completed ==> (Identity in targets ==> forall a :: a in addresses ==> a.generation != generation)
                                 && shelves == AllCleared(old(shelves)) && (forall t :: Billed(t) ==> HookGone(t))
      ensures o == Refused ==> !old(AllHooksMatch())
      ensures old(patience).None? && old(echoes) == [] && old(AllHooksMatch()) ==> o == Completed
    {
      if Identity in targets {
        o := RemoveIdentityDns();
        if o != Completed { return; }
      }
      o := RemoveAllPolar();
    }

    method RemoveAllPolar() returns (o: Outcome)
      requires Ordered() && NoTargetTwice()
      modifies `patience, `shelves, `hooks
      ensures BillingSteady() && CatalogKept()
      ensures o == Completed ==> shelves == AllCleared(old(shelves)) && forall t :: Billed(t) ==> HookGone(t)
      ensures o == Refused ==> !old(AllHooksMatch())
      ensures old(patience).None? && old(AllHooksMatch()) ==> o == Completed
    {
      ghost var before, met := shelves, {};
      for k := 0 to |targets|
        invariant BillingSteady() && (old(AllHooksMatch()) ==> AllHooksMatch())
        invariant forall m :: 0 <= m < |targets| ==> (targets[m] in met <==> m < k && targets[m] != Identity)
        invariant forall t :: t in met ==> Billed(t) && HookGone(t)
        invariant ClearedIn(met, before, shelves)
      {
        if targets[k] != Identity {
          ghost var last := shelves;
          o := RemovePolar(targets[k]);
          if o != Completed {
            OneMoreRemoved(met, before, last, shelves, targets[k]);
            return;
          }
          OneMoreCleared(met, before, last, shelves, targets[k]);
          met := met + {targets[k]};
        }
      }
      forall t | Billed(t) ensures t in met {
        var m :| 0 <= m < |targets| && targets[m] == t;
      }
      AllAreMet(met, before, shelves);
      o := Completed;
    }

    /** Exactly the accounts of these targets have been cleared. */
    predicate ClearedIn(met: set<Target>, before: Shelves, after: Shelves) {
      before.Keys == after.Keys &&
      forall key :: key in before ==> if key.0 in met then Removed(before[key], after[key], true)
                                      else after[key] == before[key]
    }

    lemma OneMoreCleared(met: set<Target>, before: Shelves, last: Shelves, after: Shelves, target: Target)
      requires ClearedIn(met, before, last) && target !in met && last.Keys == after.Keys
      requires forall key :: key in after && key.0 != target ==> after[key] == last[key]
      requires forall key :: key in after && key.0 == target ==> Removed(last[key], after[key], true)
      ensures ClearedIn(met + {target}, before, after)
    {
    }

    lemma OneMoreRemoved(met: set<Target>, before: Shelves, last: Shelves, after: Shelves, target: Target)
      requires ClearedIn(met, before, last) && target !in met && last.Keys == after.Keys && Billed(target)
      requires forall t :: t in met ==> Billed(t)
      requires forall key :: key in after && key.0 != target ==> after[key] == last[key]
      requires forall key :: key in after && key.0 == target ==>
                 Removed(last[key], after[key], false) || Removed(last[key], after[key], true)
      ensures Kept(before, after)
    {
    }

    lemma AllAreMet(met: set<Target>, before: Shelves, after: Shelves)
      requires ClearedIn(met, before, after) && forall t :: t in met <==> Billed(t)
      ensures after == AllCleared(before) && Kept(before, after)
    {
    }

    method RemoveAllStorage() returns (o: Outcome)
      requires Ordered() && NoTargetTwice() && forall s :: s in stacks ==> !OwnStack(s)
      modifies `patience, `echoes, `local, `buckets
      ensures Steady()
      ensures o == Completed ==> forall b :: b in buckets && b.target in targets ==> b.generation != generation
      ensures old(AllFit()) ==> AllFit()
      ensures o == Completed ==> old(AllFit())
      ensures old(patience).None? && old(echoes) == [] && old(AllFit()) ==> o == Completed
    {
      ghost var first, met := Storage(local, buckets), {};
      for k := 0 to |targets|
        invariant Steady()
        invariant forall m :: 0 <= m < |targets| ==> (targets[m] in met <==> m < k)
        invariant EmptiedIn(met, first, Storage(local, buckets))
      {
        ghost var last := Storage(local, buckets);
        assert FitsIn(last, targets[k]) <==> FitsIn(first, targets[k]);
        o := RemoveStorage(targets[k]);
        if o != Completed {
          StillFits(met, first, last, Storage(local, buckets), targets[k]);
          return;
        }
        OneMoreEmptied(met, first, last, Storage(local, buckets), targets[k]);
        met := met + {targets[k]};
      }
      o := Completed;
    }

    /** Exactly the storage of these targets has been removed. */
    ghost predicate EmptiedIn(met: set<Target>, before: Storage, after: Storage) {
      && (forall t :: t in met ==> t !in after.local && FitsIn(before, t))
      && (forall b :: b in after.buckets && b.generation == generation ==> b.target !in met)
      && (forall t :: t !in met ==> (t in after.local <==> t in before.local))
      && (forall t :: t !in met && t in after.local ==> after.local[t] == before.local[t])
      && (forall b: Bucket :: b.target !in met ==> (b in after.buckets <==> b in before.buckets))
    }

    lemma OneMoreEmptied(met: set<Target>, before: Storage, last: Storage, after: Storage, target: Target)
      requires EmptiedIn(met, before, last) && target !in met && OnlyStorage(target, last, after)
      requires target !in after.local && FitsIn(before, target)
      requires forall k :: Bucket(generation, target, k) !in after.buckets
      ensures EmptiedIn(met + {target}, before, after)
    {
    }

    lemma StillFits(met: set<Target>, before: Storage, last: Storage, after: Storage, target: Target)
      requires EmptiedIn(met, before, last) && target !in met && OnlyStorage(target, last, after)
      requires FitsIn(last, target) ==> FitsIn(after, target)
      ensures forall t :: FitsIn(before, t) ==> FitsIn(after, t)
    {
    }
  }

  const SHARED := CatalogItem("aven-name", true, true, {"old", "new"})

  /** Two generations that sell from one account; neither the older one's removal nor any guard minds. */
  method SharedProductIsRemoved() returns (p: Providers, o: Outcome, ghost before: seq<CatalogItem>)
    ensures fresh(p) && p.generation == "old" && o == Completed
    ensures before == [SHARED] && UsedElsewhere(SHARED, "old") && Shelf(p.shelves, Next, Product) == []
  {
    var shelves := map[(Next, Product) := [SHARED]];
    p := new Providers("old", [Next], {}, {}, map[], {}, None, false, {}, shelves, map[], map[]);
    before := Shelf(p.shelves, Next, Product);
    assert "new" in SHARED.users && "new" != "old";
    SharedIsCleared();
    o := p.Run();
  }

  lemma SharedIsCleared()
    ensures Cleared([SHARED]) == []
  {
    assert Listed([SHARED]) == [SHARED] && Unlisted([SHARED]) == [];
    MarkedVanishes(SHARED);
  }
}
