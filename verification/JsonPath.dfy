/** Answers read and set by path in a mutable draft (valueAt, setValueAt in
    scripts/lib/deployment-bootstrap-guided.ts), and the rejected credential rotation of
    scripts/deployment-bootstrap-guided.ts.  Objects live in a store and are referred to by position,
    so that replacing, detaching and sharing are visible. */
module JsonPath {
  import opened Common

  type Path = seq<string>

  /** null and the other scalars behave alike here; arrays are never entered. */
  datatype Json = Undefined | Scalar(text: string) | Array(id: nat) | Object(ref: nat)

  type Store = seq<map<string, Json>>

  const ROOT := Object(0)

  /** One property read, with the test that valueAt makes first. */
  function Step(s: Store, v: Json, key: string): Json {
    if v.Object? && v.ref < |s| && key in s[v.ref] then s[v.ref][key] else Undefined
  }

  function Lookup(s: Store, v: Json, path: Path): Json {
    if path == [] then v else Step(s, Lookup(s, v, path[..|path| - 1]), path[|path| - 1])
  }

  predicate Refers(s: Store, i: nat, key: string, ref: nat) {
    Step(s, Object(i), key) == Object(ref)
  }

  /** No aliasing: every object has at most one holder, and the root has none. */
  ghost predicate Tree(s: Store) {
    && |s| > 0
    && (forall i: nat, key, ref: nat :: Refers(s, i, key, ref) ==> 0 < ref < |s|)
    && (forall i: nat, key, j: nat, key', ref: nat :: Refers(s, i, key, ref) && Refers(s, j, key', ref) ==>
          i == j && key == key')
  }

  /** A value that may be stored without creating an alias. */
  ghost predicate Free(s: Store, v: Json) {
    v.Object? ==> 0 < v.ref < |s| && forall i: nat, key :: !Refers(s, i, key, v.ref)
  }

  function Assign(s: Store, at: nat, key: string, v: Json): Store
    requires at < |s|
  {
    s[at := s[at][key := v]]
  }

  /** The object at `at` gets a fresh empty object under `key`. */
  function Link(s: Store, at: nat, key: string): Store
    requires at < |s|
  {
    Assign(s + [map[]], at, key, Object(|s|))
  }

  ghost function Put(s: Store, at: nat, path: Path, v: Json): Store
    requires Tree(s) && at < |s| && path != []
    decreases |path|
  {
    if |path| == 1 then Assign(s, at, path[0], v)
    else
      var next := Step(s, Object(at), path[0]);
      if next.Object? then assert Refers(s, at, path[0], next.ref); Put(s, next.ref, path[1..], v)
      else LinkKeepsTree(s, at, path[0]); Put(Link(s, at, path[0]), |s|, path[1..], v)
  }

  // ----- The draft -------------------------------------------------------------------------

  class Draft {
    var store: Store

    ghost predicate Valid() reads this { Tree(store) }

    constructor ()
      ensures Valid() && store == [map[]]
    {
      store := [map[]];
    }

    method ValueAt(path: Path) returns (v: Json)
      ensures v == Lookup(store, ROOT, path)
    {
      var current := ROOT;
      for i := 0 to |path|
        invariant current == Lookup(store, ROOT, path[..i])
      {
        assert path[..i + 1][..i] == path[..i];
        if !current.Object? {
          UndefinedStays(store, ROOT, path, i + 1);
          return Undefined;
        }
        current := Step(store, current, path[i]);
      }
      assert path[..|path|] == path;
      return current;
    }

    method SetValueAt(path: Path, value: Json) returns (r: Result<(), string>)
      requires Valid() && Free(store, value)
      modifies this
      ensures Valid()
      ensures if path == [] then r.Err? && store == old(store)
              else r.Ok? && store == Put(old(store), 0, path, value)
    {
      if path == [] {
        return Err("empty");
      }
      var current: nat := 0;
      for i := 0 to |path| - 1
        invariant Tree(store) && current < |store| && Free(store, value)
        invariant Put(store, current, path[i..], value) == Put(old(store), 0, path, value)
      {
        assert path[i..][1..] == path[i + 1..];
        var next := Step(store, Object(current), path[i]);
        if !next.Object? {
          LinkKeepsTree(store, current, path[i]);
          LinkKeepsFree(store, current, path[i], value);
          next := Object(|store|);
          store := Link(store, current, path[i]);
        } else {
          assert Refers(store, current, path[i], next.ref);
        }
        current := next.ref;
      }
      AssignKeepsTree(store, current, path[|path| - 1], value);
      store := Assign(store, current, path[|path| - 1], value);
      return Ok(());
    }

    /** One credential reviewed, alone or with a companion: the candidates are stored for the check to see,
        and put back when it fails. */
    method RotateCredential(p: Path, q: Option<Path>, candidate: string, companion: string, verified: bool)
      requires Valid() && p != [] && (q.Some? ==> Incomparable(p, q.value))
      modifies this
      ensures Valid()
      ensures verified ==>
        && Lookup(store, ROOT, p) == Scalar(candidate)
        && (q.Some? ==> Lookup(store, ROOT, q.value) == Scalar(companion))
        && forall r :: Incomparable(p, r) && (q.Some? ==> Incomparable(q.value, r)) ==>
             Lookup(store, ROOT, r) == Lookup(old(store), ROOT, r)
      ensures !verified ==>
        forall r :: Lookup(store, ROOT, r) == Lookup(old(store), ROOT, r) <==>
                      (r < p || (q.Some? && r < q.value) ==> Lookup(old(store), ROOT, r).Object?)
    {
      if q.Some? {
        RotatePair(p, q.value, candidate, companion, verified);
      } else {
        RotateSingle(p, candidate, verified);
      }
    }

    method RotateSingle(p: Path, candidate: string, verified: bool)
      requires Valid() && p != []
      modifies this
      ensures Valid()
      ensures verified ==>
        && Lookup(store, ROOT, p) == Scalar(candidate)
        && forall r :: Incomparable(p, r) ==> Lookup(store, ROOT, r) == Lookup(old(store), ROOT, r)
      ensures !verified ==>
        forall r :: Lookup(store, ROOT, r) == Lookup(old(store), ROOT, r) <==>
                      (r < p ==> Lookup(old(store), ROOT, r).Object?)
    {
      var existing := ValueAt(p);
      var _ := SetValueAt(p, Scalar(candidate));
      ghost var s1 := store;
      if verified {
        forall r | r == p || Incomparable(p, r)
          ensures Lookup(store, ROOT, r) == if r == p then Scalar(candidate) else Lookup(old(store), ROOT, r)
        {
          AcceptedSingleReplaces(old(store), s1, p, candidate, r);
        }
      } else {
        SingleIsRestorable(old(store), s1, p, candidate);
        var _ := SetValueAt(p, existing);
        forall r ensures Lookup(store, ROOT, r) == Lookup(old(store), ROOT, r) <==>
                           (r < p ==> Lookup(old(store), ROOT, r).Object?)
        {
          RejectedSingleRestores(old(store), s1, store, p, candidate, r);
        }
      }
    }

    method RotatePair(p: Path, q: Path, candidate: string, companion: string, verified: bool)
      requires Valid() && Incomparable(p, q)
      modifies this
      ensures Valid()
      ensures verified ==>
        && Lookup(store, ROOT, p) == Scalar(candidate) && Lookup(store, ROOT, q) == Scalar(companion)
        && forall r :: Incomparable(p, r) && Incomparable(q, r) ==>
             Lookup(store, ROOT, r) == Lookup(old(store), ROOT, r)
      ensures !verified ==>
        forall r :: Lookup(store, ROOT, r) == Lookup(old(store), ROOT, r) <==>
                      (r < p || r < q ==> Lookup(old(store), ROOT, r).Object?)
    {
      var existing := ValueAt(p);
      var companionExisting := ValueAt(q);
      var _ := SetValueAt(p, Scalar(candidate));
      ghost var s1 := store;
      var _ := SetValueAt(q, Scalar(companion));
      ghost var s2 := store;
      if verified {
        forall r | r == p || (Incomparable(p, r) && Incomparable(q, r))
          ensures Lookup(store, ROOT, q) == Scalar(companion)
          ensures Lookup(store, ROOT, r) == if r == p then Scalar(candidate) else Lookup(old(store), ROOT, r)
        {
          AcceptedRotationReplacesBoth(old(store), s1, s2, p, q, candidate, companion, r);
        }
      } else {
        RestorableFirst(old(store), s1, s2, p, q, candidate, companion);
        var _ := SetValueAt(p, existing);
        ghost var s3 := store;
        RestoringIsSafe(old(store), s1, s2, s3, p, q, candidate, companion);
        var _ := SetValueAt(q, companionExisting);
        forall r ensures Lookup(store, ROOT, r) == Lookup(old(store), ROOT, r) <==>
                           (r < p || r < q ==> Lookup(old(store), ROOT, r).Object?)
        {
          RejectedRotationRestores(old(store), s1, s2, s3, store, p, q, candidate, companion, r);
        }
      }
    }
  }

  lemma {:induction false} UndefinedStays(s: Store, v: Json, path: Path, i: nat)
    requires i <= |path| && Lookup(s, v, path[..i]) == Undefined
    ensures Lookup(s, v, path) == Undefined
    decreases |path| - i
  {
    if i == |path| {
      assert path[..i] == path;
    } else {
      assert path[..i + 1][..i] == path[..i];
      UndefinedStays(s, v, path, i + 1);
    }
  }

  // ----- Trees stay trees ---------------------------------------------------------------------

  lemma AssignReads(s: Store, at: nat, key: string, v: Json, i: nat, key': string)
    requires at < |s|
    ensures Step(Assign(s, at, key, v), Object(i), key') ==
            if i == at && key' == key then v else Step(s, Object(i), key')
  {
  }

  lemma ExtendReads(s: Store, i: nat, key: string)
    ensures Step(s + [map[]], Object(i), key) == Step(s, Object(i), key)
  {
  }

  lemma AssignKeepsTree(s: Store, at: nat, key: string, v: Json)
    requires Tree(s) && at < |s| && Free(s, v)
    ensures Tree(Assign(s, at, key, v))
  {
    var s' := Assign(s, at, key, v);
    forall i: nat, key', ref: nat | Refers(s', i, key', ref)
      ensures 0 < ref < |s'| && (if i == at && key' == key then v == Object(ref) else Refers(s, i, key', ref))
    {
      AssignReads(s, at, key, v, i, key');
      assert (i == at && key' == key) || Refers(s, i, key', ref);
    }
  }

  lemma LinkKeepsTree(s: Store, at: nat, key: string)
    requires Tree(s) && at < |s|
    ensures Tree(Link(s, at, key)) && |Link(s, at, key)| == |s| + 1
  {
    var grown := s + [map[]];
    forall i: nat, key', ref: nat ensures Refers(grown, i, key', ref) == Refers(s, i, key', ref) {
      ExtendReads(s, i, key');
    }
    AssignKeepsTree(grown, at, key, Object(|s|));
  }

  lemma AssignKeepsFree(s: Store, at: nat, key: string, v: Json, w: Json)
    requires at < |s| && Free(s, w) && (w.Object? ==> v != w)
    ensures Free(Assign(s, at, key, v), w)
  {
    if w.Object? {
      forall i: nat, key' ensures !Refers(Assign(s, at, key, v), i, key', w.ref) {
        AssignReads(s, at, key, v, i, key');
        assert !Refers(s, i, key', w.ref);
      }
    }
  }

  lemma LinkKeepsFree(s: Store, at: nat, key: string, w: Json)
    requires at < |s| && Free(s, w)
    ensures Free(Link(s, at, key), w)
  {
    GrowthKeepsFree(s, w);
    AssignKeepsFree(s + [map[]], at, key, Object(|s|), w);
  }

  // ----- Paths in a tree ------------------------------------------------------------------------

  lemma {:induction false} LookupConcat(s: Store, v: Json, p: Path, t: Path)
    ensures Lookup(s, v, p + t) == Lookup(s, Lookup(s, v, p), t)
    decreases |t|
  {
    if t == [] {
      assert p + t == p;
    } else {
      assert (p + t)[..|p + t| - 1] == p + t[..|t| - 1];
      LookupConcat(s, v, p, t[..|t| - 1]);
    }
  }

  lemma RootIsUnheld(s: Store, i: nat, key: string)
    requires Tree(s)
    ensures !Refers(s, i, key, 0)
  {
  }

  /** Only the root path reaches the root. */
  lemma OnlyRootIsRoot(s: Store, p: Path)
    requires Tree(s) && Lookup(s, ROOT, p) == ROOT
    ensures p == []
  {
    if p != [] {
      var above := Lookup(s, ROOT, p[..|p| - 1]);
      assert above.Object?;
      RootIsUnheld(s, above.ref, p[|p| - 1]);
    }
  }

  /** Without aliasing, different paths never reach the same object. */
  lemma {:induction false} PathsAreUnique(s: Store, p: Path, r: Path)
    requires Tree(s) && Lookup(s, ROOT, p).Object? && Lookup(s, ROOT, p) == Lookup(s, ROOT, r)
    ensures p == r
    decreases |p|
  {
    if p == [] {
      OnlyRootIsRoot(s, r);
    } else if r == [] {
      OnlyRootIsRoot(s, p);
    } else {
      var m := Lookup(s, ROOT, p);
      var p', r' := p[..|p| - 1], r[..|r| - 1];
      assert Refers(s, Lookup(s, ROOT, p').ref, p[|p| - 1], m.ref);
      assert Refers(s, Lookup(s, ROOT, r').ref, r[|r| - 1], m.ref);
      PathsAreUnique(s, p', r');
      assert p == p' + [p[|p| - 1]] && r == r' + [r[|r| - 1]];
    }
  }

  /** What hangs below an unheld object is out of the root's reach. */
  lemma {:induction false} DetachedIsApart(s: Store, v: Json, t: Path, p: Path)
    requires Tree(s) && Free(s, v) && Lookup(s, ROOT, p).Object?
    ensures Lookup(s, v, t) != Lookup(s, ROOT, p)
    decreases |t|
  {
    var m := Lookup(s, ROOT, p);
    if Lookup(s, v, t) == m {
      if p != [] {
        assert Refers(s, Lookup(s, ROOT, p[..|p| - 1]).ref, p[|p| - 1], m.ref);
      }
      if t != [] {
        assert Refers(s, Lookup(s, v, t[..|t| - 1]).ref, t[|t| - 1], m.ref);
        DetachedIsApart(s, v, t[..|t| - 1], p[..|p| - 1]);
      }
    }
  }

  // ----- One assignment ------------------------------------------------------------------------

  /** Walking t from v never reads `key` of the object `at`. */
  predicate Avoids(s: Store, v: Json, t: Path, at: nat, key: string) {
    forall j :: 0 <= j < |t| && Lookup(s, v, t[..j]) == Object(at) ==> t[j] != key
  }

  lemma {:induction false} AssignElsewhere(s: Store, v: Json, t: Path, at: nat, key: string, x: Json)
    requires at < |s| && Avoids(s, v, t, at, key)
    ensures Lookup(Assign(s, at, key, x), v, t) == Lookup(s, v, t)
    decreases |t|
  {
    if t != [] {
      var t' := t[..|t| - 1];
      forall j | 0 <= j < |t'| && Lookup(s, v, t'[..j]) == Object(at) ensures t'[j] != key {
        assert t'[..j] == t[..j];
      }
      AssignElsewhere(s, v, t', at, key, x);
      var above := Lookup(s, v, t');
      if above.Object? {
        AssignReads(s, at, key, x, above.ref, t[|t| - 1]);
      }
    }
  }

  lemma {:induction false} ExtendLookup(s: Store, v: Json, t: Path)
    ensures Lookup(s + [map[]], v, t) == Lookup(s, v, t)
    decreases |t|
  {
    if t != [] {
      ExtendLookup(s, v, t[..|t| - 1]);
      var above := Lookup(s, v, t[..|t| - 1]);
      if above.Object? {
        ExtendReads(s, above.ref, t[|t| - 1]);
      }
    }
  }

  /** Where a path leads after `key` of the object reached by p is assigned: elsewhere as before, below it
      into the new value. */
  lemma AssignLaw(s: Store, p: Path, key: string, x: Json, r: Path)
    requires Tree(s) && Free(s, x) && Lookup(s, ROOT, p).Object? && Lookup(s, ROOT, p).ref < |s|
    ensures var s' := Assign(s, Lookup(s, ROOT, p).ref, key, x);
            Lookup(s', ROOT, r) == if p + [key] <= r then Lookup(s, x, r[|p| + 1..]) else Lookup(s, ROOT, r)
  {
    var at := Lookup(s, ROOT, p).ref;
    var s' := Assign(s, at, key, x);
    if p + [key] <= r {
      var t := r[|p| + 1..];
      assert r == (p + [key]) + t;
      LookupConcat(s', ROOT, p + [key], t);
      AvoidsFromRoot(s, p, key, p);
      AssignElsewhere(s, ROOT, p, at, key, x);
      assert (p + [key])[..|p|] == p;
      AssignReads(s, at, key, x, at, key);
      assert Lookup(s', ROOT, p + [key]) == x;
      DetachedSurvivesAssign(s, p, key, x, x, t);
    } else {
      AvoidsFromRoot(s, p, key, r);
      AssignElsewhere(s, ROOT, r, at, key, x);
    }
  }

  lemma AvoidsFromRoot(s: Store, p: Path, key: string, r: Path)
    requires Tree(s) && Lookup(s, ROOT, p).Object? && !(p + [key] <= r)
    ensures Avoids(s, ROOT, r, Lookup(s, ROOT, p).ref, key)
  {
    forall j | 0 <= j < |r| && Lookup(s, ROOT, r[..j]) == Lookup(s, ROOT, p) ensures r[j] != key {
      assert r[..j + 1] == r[..j] + [r[j]];
      PathsAreUnique(s, r[..j], p);
    }
  }

  /** Linking a fresh empty object in changes no path except those through the new link. */
  lemma LinkLaw(s: Store, p: Path, key: string, r: Path)
    requires Tree(s) && Lookup(s, ROOT, p).Object? && Lookup(s, ROOT, p).ref < |s|
    ensures var s' := Link(s, Lookup(s, ROOT, p).ref, key);
            Lookup(s', ROOT, r) == if !(p + [key] <= r) then Lookup(s, ROOT, r)
                                   else if r == p + [key] then Object(|s|) else Undefined
  {
    var grown, made := s + [map[]], Object(|s|);
    FreshIsFree(s);
    ExtendLookup(s, ROOT, p);
    ExtendLookup(s, ROOT, r);
    AssignLaw(grown, p, key, made, r);
    if p + [key] <= r {
      EmptyLeadsNowhere(grown, made, r[|p| + 1..]);
    }
  }

  lemma FreshIsFree(s: Store)
    requires Tree(s)
    ensures Tree(s + [map[]]) && Free(s + [map[]], Object(|s|))
  {
    forall i: nat, key, ref: nat ensures Refers(s + [map[]], i, key, ref) == Refers(s, i, key, ref) {
      ExtendReads(s, i, key);
    }
  }

  lemma {:induction false} EmptyLeadsNowhere(s: Store, v: Json, t: Path)
    requires v.Object? && v.ref < |s| && s[v.ref] == map[]
    ensures Lookup(s, v, t) == if t == [] then v else Undefined
    decreases |t|
  {
    if t != [] {
      EmptyLeadsNowhere(s, v, t[..|t| - 1]);
    }
  }

  // ----- Main results --------------------------------------------------------------------------

  predicate Incomparable(p: Path, r: Path) {
    !(p <= r) && !(r <= p)
  }

  /** Every path, read after a value was set at `path`: below it the new value, beside it what it read
      before (even where a scalar or an array on the way was replaced), above it an object. */
  ghost predicate SetAt(s: Store, s': Store, path: Path, v: Json, r: Path) {
    if path <= r then Lookup(s', ROOT, r) == Lookup(s, v, r[|path|..])
    else if r <= path then
      Lookup(s', ROOT, r).Object? && (Lookup(s, ROOT, r).Object? ==> Lookup(s', ROOT, r) == Lookup(s, ROOT, r))
    else Lookup(s', ROOT, r) == Lookup(s, ROOT, r)
  }

  lemma {:induction false} ObjectsAbove(s: Store, p: Path, r: Path)
    requires Lookup(s, ROOT, p).Object? && r <= p
    ensures Lookup(s, ROOT, r).Object?
    decreases |p|
  {
    if r != p {
      assert r <= p[..|p| - 1];
      ObjectsAbove(s, p[..|p| - 1], r);
    }
  }

  lemma {:induction false} NothingBelow(s: Store, p: Path, r: Path)
    requires !Lookup(s, ROOT, p).Object? && p <= r && p != r
    ensures Lookup(s, ROOT, r) == Undefined
    decreases |r|
  {
    var r' := r[..|r| - 1];
    assert p <= r';
    if p != r' {
      NothingBelow(s, p, r');
    }
  }

  /** Linking and setting elsewhere leave what hangs below an unheld object alone. */
  lemma DetachedSurvivesLink(s: Store, p: Path, at: nat, key: string, v: Json, t: Path)
    requires Tree(s) && Free(s, v) && at < |s| && Lookup(s, ROOT, p) == Object(at)
    ensures Lookup(Link(s, at, key), v, t) == Lookup(s, v, t)
  {
    var grown := s + [map[]];
    FreshIsFree(s);
    ExtendLookup(s, ROOT, p);
    ExtendLookup(s, v, t);
    GrowthKeepsFree(s, v);
    DetachedSurvivesAssign(grown, p, key, Object(|s|), v, t);
  }

  lemma GrowthKeepsFree(s: Store, v: Json)
    requires Free(s, v)
    ensures Free(s + [map[]], v)
  {
    if v.Object? {
      forall i: nat, key ensures !Refers(s + [map[]], i, key, v.ref) {
        ExtendReads(s, i, key);
        assert !Refers(s, i, key, v.ref);
      }
    }
  }

  lemma DetachedSurvivesAssign(s: Store, p: Path, key: string, x: Json, v: Json, t: Path)
    requires Tree(s) && Free(s, v) && Lookup(s, ROOT, p).Object? && Lookup(s, ROOT, p).ref < |s|
    ensures Lookup(Assign(s, Lookup(s, ROOT, p).ref, key, x), v, t) == Lookup(s, v, t)
  {
    forall j | 0 <= j < |t| ensures Lookup(s, v, t[..j]) != Lookup(s, ROOT, p) {
      DetachedIsApart(s, v, t[..j], p);
    }
    AssignElsewhere(s, v, t, Lookup(s, ROOT, p).ref, key, x);
  }

  lemma {:induction false} PutLaw(s: Store, above: Path, at: nat, rest: Path, v: Json, r: Path)
    requires Tree(s) && Free(s, v) && at < |s| && rest != [] && Lookup(s, ROOT, above) == Object(at)
    ensures Tree(Put(s, at, rest, v))
    ensures SetAt(s, Put(s, at, rest, v), above + rest, v, r)
    decreases |rest|
  {
    var key := rest[0];
    var here := above + [key];
    if r <= above {
      ObjectsAbove(s, above, r);
    }
    if |rest| == 1 {
      assert above + rest == here;
      AssignKeepsTree(s, at, key, v);
      AssignLaw(s, above, key, v, r);
    } else {
      assert above + rest == here + rest[1..];
      assert here[..|above|] == above;
      var next := Step(s, Object(at), key);
      assert Lookup(s, ROOT, here) == next;
      if next.Object? {
        assert Refers(s, at, key, next.ref);
        PutLaw(s, here, next.ref, rest[1..], v, r);
      } else {
        LinkKeepsTree(s, at, key);
        LinkKeepsFree(s, at, key, v);
        LinkLaw(s, above, key, here);
        LinkLaw(s, above, key, r);
        if here <= r && here != r {
          NothingBelow(s, here, r);
        }
        if above + rest <= r {
          DetachedSurvivesLink(s, above, at, key, v, r[|above + rest|..]);
        }
        PutLaw(Link(s, at, key), here, |s|, rest[1..], v, r);
      }
    }
  }

  // ----- Setting and restoring -----------------------------------------------------------------

  lemma {:induction false} PutKeepsFree(s: Store, at: nat, rest: Path, v: Json, w: Json)
    requires Tree(s) && at < |s| && rest != [] && Free(s, w) && (w.Object? ==> v != w)
    ensures Free(Put(s, at, rest, v), w)
    decreases |rest|
  {
    if |rest| == 1 {
      AssignKeepsFree(s, at, rest[0], v, w);
    } else {
      var next := Step(s, Object(at), rest[0]);
      if next.Object? {
        assert Refers(s, at, rest[0], next.ref);
        PutKeepsFree(s, next.ref, rest[1..], v, w);
      } else {
        LinkKeepsTree(s, at, rest[0]);
        LinkKeepsFree(s, at, rest[0], w);
        PutKeepsFree(Link(s, at, rest[0]), |s|, rest[1..], v, w);
      }
    }
  }

  lemma {:induction false} DetachedSurvivesPut(s: Store, above: Path, at: nat, rest: Path, v: Json, w: Json, t: Path)
    requires Tree(s) && Free(s, w) && at < |s| && rest != [] && Lookup(s, ROOT, above) == Object(at)
    ensures Lookup(Put(s, at, rest, v), w, t) == Lookup(s, w, t)
    decreases |rest|
  {
    var key := rest[0];
    var here := above + [key];
    if |rest| == 1 {
      DetachedSurvivesAssign(s, above, key, v, w, t);
    } else {
      assert here[..|above|] == above;
      var next := Step(s, Object(at), key);
      if next.Object? {
        assert Refers(s, at, key, next.ref);
        DetachedSurvivesPut(s, here, next.ref, rest[1..], v, w, t);
      } else {
        LinkKeepsTree(s, at, key);
        LinkKeepsFree(s, at, key, w);
        LinkLaw(s, above, key, here);
        DetachedSurvivesLink(s, above, at, key, w, t);
        DetachedSurvivesPut(Link(s, at, key), here, |s|, rest[1..], v, w, t);
      }
    }
  }

  /** Overwriting a value with a scalar sets the old value free, and leaves everything below it alone. */
  lemma {:induction false} OverwrittenIsFree(s: Store, above: Path, at: nat, rest: Path, text: string, t: Path)
    requires Tree(s) && at < |s| && rest != [] && Lookup(s, ROOT, above) == Object(at)
    ensures var w := Lookup(s, ROOT, above + rest); var s' := Put(s, at, rest, Scalar(text));
            Tree(s') && Free(s', w) && Lookup(s', w, t) == Lookup(s, w, t)
    decreases |rest|
  {
    var v := Scalar(text);
    var key := rest[0];
    var here := above + [key];
    assert here[..|above|] == above;
    PutLaw(s, above, at, rest, v, []);
    if |rest| == 1 {
      assert above + rest == here;
      OverwrittenAtIsFree(s, above, at, key, text, t);
    } else {
      assert above + rest == here + rest[1..];
      var next := Step(s, Object(at), key);
      if next.Object? {
        assert Refers(s, at, key, next.ref);
        OverwrittenIsFree(s, here, next.ref, rest[1..], text, t);
      } else {
        NothingBelow(s, here, above + rest);
        UndefinedLeadsNowhere(s, Undefined, t);
        UndefinedLeadsNowhere(Put(s, at, rest, v), Undefined, t);
      }
    }
  }

  lemma {:induction false} UndefinedLeadsNowhere(s: Store, v: Json, t: Path)
    requires !v.Object?
    ensures Lookup(s, v, t) == if t == [] then v else Undefined
    decreases |t|
  {
    if t != [] {
      UndefinedLeadsNowhere(s, v, t[..|t| - 1]);
    }
  }

  lemma OverwrittenAtIsFree(s: Store, above: Path, at: nat, key: string, text: string, t: Path)
    requires Tree(s) && at < |s| && Lookup(s, ROOT, above) == Object(at)
    ensures var w := Step(s, Object(at), key); var s' := Assign(s, at, key, Scalar(text));
            Tree(s') && Free(s', w) && Lookup(s', w, t) == Lookup(s, w, t)
  {
    var w := Step(s, Object(at), key);
    var s' := Assign(s, at, key, Scalar(text));
    AssignKeepsTree(s, at, key, Scalar(text));
    if w.Object? {
      assert Refers(s, at, key, w.ref);
      forall i: nat, key' ensures !Refers(s', i, key', w.ref) {
        AssignReads(s, at, key, Scalar(text), i, key');
        assert Refers(s, i, key', w.ref) ==> i == at && key' == key;
      }
      AssignLaw(s, above, key, Scalar(text), above);
      DetachedSurvivesAssign(s', above, key, w, w, t);
      assert s[at][key := Scalar(text)][key := w] == s[at];
      assert Assign(s', at, key, w) == s;
    } else {
      UndefinedLeadsNowhere(s, w, t);
      UndefinedLeadsNowhere(s', w, t);
    }
  }

  // ----- A rejected rotation -------------------------------------------------------------------

  /** One call of setValueAt. */
  ghost predicate Sets(s: Store, path: Path, v: Json, s': Store) {
    Tree(s) && path != [] && s' == Put(s, 0, path, v)
  }

  lemma AcceptedSingleReplaces(s: Store, s1: Store, p: Path, a: string, r: Path)
    requires Sets(s, p, Scalar(a), s1)
    ensures Lookup(s1, ROOT, p) == Scalar(a)
    ensures Incomparable(p, r) ==> Lookup(s1, ROOT, r) == Lookup(s, ROOT, r)
  {
    assert [] + p == p;
    PutLaw(s, [], 0, p, Scalar(a), p);
    PutLaw(s, [], 0, p, Scalar(a), r);
  }

  lemma SingleIsRestorable(s: Store, s1: Store, p: Path, a: string)
    requires Sets(s, p, Scalar(a), s1)
    ensures Free(s1, Lookup(s, ROOT, p))
  {
    assert [] + p == p;
    OverwrittenIsFree(s, [], 0, p, a, []);
  }

  /** A credential is replaced, verification fails and it is put back: a path reads what it read before exactly
      if it is not strictly above the field or read an object before; a scalar, an array or nothing on the way
      to the field has become an object for good. */
  lemma RejectedSingleRestores(s: Store, s1: Store, s2: Store, p: Path, a: string, r: Path)
    requires Sets(s, p, Scalar(a), s1) && Sets(s1, p, Lookup(s, ROOT, p), s2)
    ensures Lookup(s2, ROOT, r) == Lookup(s, ROOT, r) <==> (r < p ==> Lookup(s, ROOT, r).Object?)
  {
    var x := Lookup(s, ROOT, p);
    assert [] + p == p;
    SingleIsRestorable(s, s1, p, a);
    PutLaw(s1, [], 0, p, x, r);
    if p <= r {
      assert r == p + r[|p|..];
      OverwrittenIsFree(s, [], 0, p, a, r[|p|..]);
      LookupConcat(s, ROOT, p, r[|p|..]);
    } else {
      PutLaw(s, [], 0, p, Scalar(a), r);
    }
  }

  /** After an accepted replacement the two fields read the candidates and all paths beside them what they
      read before. */
  lemma AcceptedRotationReplacesBoth(s: Store, s1: Store, s2: Store, p: Path, q: Path, a: string, b: string, r: Path)
    requires Incomparable(p, q) && Sets(s, p, Scalar(a), s1) && Sets(s1, q, Scalar(b), s2)
    ensures Lookup(s2, ROOT, p) == Scalar(a) && Lookup(s2, ROOT, q) == Scalar(b)
    ensures Incomparable(p, r) && Incomparable(q, r) ==> Lookup(s2, ROOT, r) == Lookup(s, ROOT, r)
  {
    assert [] + p == p && [] + q == q;
    PutLaw(s, [], 0, p, Scalar(a), p);
    PutLaw(s, [], 0, p, Scalar(a), r);
    PutLaw(s1, [], 0, q, Scalar(b), p);
    PutLaw(s1, [], 0, q, Scalar(b), q);
    PutLaw(s1, [], 0, q, Scalar(b), r);
  }

  /** The two old values may be put back without creating an alias. */
  lemma RestorableFirst(s: Store, s1: Store, s2: Store, p: Path, q: Path, a: string, b: string)
    requires Incomparable(p, q) && Sets(s, p, Scalar(a), s1) && Sets(s1, q, Scalar(b), s2)
    ensures Free(s2, Lookup(s, ROOT, p))
  {
    OverwrittenIsFree(s, [], 0, p, a, []);
    assert [] + p == p;
    PutKeepsFree(s1, 0, q, Scalar(b), Lookup(s, ROOT, p));
  }

  lemma RestoringIsSafe(s: Store, s1: Store, s2: Store, s3: Store, p: Path, q: Path, a: string, b: string)
    requires Incomparable(p, q) && Sets(s, p, Scalar(a), s1) && Sets(s1, q, Scalar(b), s2)
    requires Sets(s2, p, Lookup(s, ROOT, p), s3)
    ensures Free(s3, Lookup(s, ROOT, q))
  {
    var x, y := Lookup(s, ROOT, p), Lookup(s, ROOT, q);
    assert [] + p == p && [] + q == q;
    PutLaw(s, [], 0, p, Scalar(a), q);
    OverwrittenIsFree(s1, [], 0, q, b, []);
    if y.Object? && x == y {
      PathsAreUnique(s, p, q);
    }
    PutKeepsFree(s2, 0, p, x, y);
  }

  /** The same for a credential and its companion, both replaced and both put back. */
  lemma RejectedRotationRestores(s: Store, s1: Store, s2: Store, s3: Store, s4: Store,
                                 p: Path, q: Path, a: string, b: string, r: Path)
    requires Incomparable(p, q) && Sets(s, p, Scalar(a), s1) && Sets(s1, q, Scalar(b), s2)
    requires Sets(s2, p, Lookup(s, ROOT, p), s3) && Sets(s3, q, Lookup(s, ROOT, q), s4)
    ensures Lookup(s4, ROOT, r) == Lookup(s, ROOT, r) <==> (r < p || r < q ==> Lookup(s, ROOT, r).Object?)
  {
    RestorableFirst(s, s1, s2, p, q, a, b);
    RestoringIsSafe(s, s1, s2, s3, p, q, a, b);
    if q <= r {
      assert r == q + r[|q|..];
      CompanionReads(s, s1, s2, s3, s4, p, q, a, b, r[|q|..]);
    } else if p <= r {
      assert r == p + r[|p|..];
      CredentialReads(s, s1, s2, s3, s4, p, q, a, b, r[|p|..]);
    } else {
      BesideAndAbove(s, s1, s2, p, q, a, b, r);
      RestoredBeside(s, s2, s3, s4, p, q, r);
    }
  }

  lemma RestoredBeside(s: Store, s2: Store, s3: Store, s4: Store, p: Path, q: Path, r: Path)
    requires Incomparable(p, q) && !(p <= r) && !(q <= r)
    requires Sets(s2, p, Lookup(s, ROOT, p), s3) && Sets(s3, q, Lookup(s, ROOT, q), s4)
    requires Free(s2, Lookup(s, ROOT, p)) && Free(s3, Lookup(s, ROOT, q))
    requires r < p || r < q ==> Lookup(s2, ROOT, r).Object?
    ensures Lookup(s4, ROOT, r) == Lookup(s2, ROOT, r)
  {
    assert [] + p == p && [] + q == q;
    PutLaw(s2, [], 0, p, Lookup(s, ROOT, p), r);
    PutLaw(s3, [], 0, q, Lookup(s, ROOT, q), r);
  }

  lemma CredentialReads(s: Store, s1: Store, s2: Store, s3: Store, s4: Store,
                        p: Path, q: Path, a: string, b: string, t: Path)
    requires Incomparable(p, q) && Sets(s, p, Scalar(a), s1) && Sets(s1, q, Scalar(b), s2)
    requires Sets(s2, p, Lookup(s, ROOT, p), s3) && Sets(s3, q, Lookup(s, ROOT, q), s4)
    requires Free(s2, Lookup(s, ROOT, p)) && Free(s3, Lookup(s, ROOT, q))
    ensures Lookup(s4, ROOT, p + t) == Lookup(s, ROOT, p + t)
  {
    assert [] + p == p && [] + q == q && (p + t)[|p|..] == t;
    RestoredReads(s, p, a, s1, s2, q, Scalar(b), t);
    PutLaw(s2, [], 0, p, Lookup(s, ROOT, p), p + t);
    PutLaw(s3, [], 0, q, Lookup(s, ROOT, q), p + t);
  }

  /** The two candidates leave a path that is not below a field alone, unless it is above one. */
  lemma BesideAndAbove(s: Store, s1: Store, s2: Store, p: Path, q: Path, a: string, b: string, r: Path)
    requires Incomparable(p, q) && Sets(s, p, Scalar(a), s1) && Sets(s1, q, Scalar(b), s2)
    requires !(p <= r) && !(q <= r)
    ensures Lookup(s2, ROOT, r) == Lookup(s, ROOT, r) <==> (r < p || r < q ==> Lookup(s, ROOT, r).Object?)
    ensures r < p || r < q ==> Lookup(s2, ROOT, r).Object?
  {
    assert [] + p == p && [] + q == q;
    PutLaw(s, [], 0, p, Scalar(a), r);
    PutLaw(s1, [], 0, q, Scalar(b), r);
  }

  lemma CompanionReads(s: Store, s1: Store, s2: Store, s3: Store, s4: Store,
                       p: Path, q: Path, a: string, b: string, t: Path)
    requires Incomparable(p, q) && Sets(s, p, Scalar(a), s1) && Sets(s1, q, Scalar(b), s2)
    requires Sets(s2, p, Lookup(s, ROOT, p), s3) && Sets(s3, q, Lookup(s, ROOT, q), s4)
    requires Free(s2, Lookup(s, ROOT, p)) && Free(s3, Lookup(s, ROOT, q))
    ensures Lookup(s4, ROOT, q + t) == Lookup(s, ROOT, q + t)
  {
    assert [] + p == p && [] + q == q && (q + t)[|q|..] == t;
    RestoredReads(s1, q, b, s2, s3, p, Lookup(s, ROOT, p), t);
    PutLaw(s3, [], 0, q, Lookup(s, ROOT, q), q + t);
    PutLaw(s, [], 0, p, Scalar(a), q);
    PutLaw(s, [], 0, p, Scalar(a), q + t);
  }

  /** A scalar above the field is lost in a rejected rotation. */
  lemma ScalarAboveIsLost(text: string, a: string)
    ensures var s, p := [map["a" := Scalar(text)]], ["a", "b"];
            && Tree(s) && var s1 := Put(s, 0, p, Scalar(a));
            && Tree(s1) && var s2 := Put(s1, 0, p, Lookup(s, ROOT, p));
               Lookup(s, ROOT, ["a"]) == Scalar(text) && Lookup(s2, ROOT, ["a"]) != Scalar(text)
  {
    var s, p := [map["a" := Scalar(text)]], ["a", "b"];
    assert Tree(s) by {
      assert forall i: nat, key, ref: nat :: !Refers(s, i, key, ref);
    }
    assert ["a"][..0] == [] && Lookup(s, ROOT, ["a"]) == Step(s, ROOT, "a") == Scalar(text);
    assert [] + p == p;
    PutLaw(s, [], 0, p, Scalar(a), p);
    var s1 := Put(s, 0, p, Scalar(a));
    assert ["a"] < p;
    RejectedSingleRestores(s, s1, Put(s1, 0, p, Lookup(s, ROOT, p)), p, a, ["a"]);
  }

  /** The value once at p, set free and passed over by another call, still leads where p led. */
  lemma RestoredReads(s: Store, p: Path, a: string, s1: Store, s2: Store, q: Path, b: Json, t: Path)
    requires Sets(s, p, Scalar(a), s1) && Sets(s1, q, b, s2)
    ensures Lookup(s2, Lookup(s, ROOT, p), t) == Lookup(s, ROOT, p + t)
  {
    assert [] + p == p;
    OverwrittenIsFree(s, [], 0, p, a, t);
    DetachedSurvivesPut(s1, [], 0, q, b, Lookup(s, ROOT, p), t);
    LookupConcat(s, ROOT, p, t);
  }
}
