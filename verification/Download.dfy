/** Resumable download of several files (app/src-tauri/src/assets.rs).

    A file is streamed into its `.part` neighbour and renamed when complete, so a
    run may be interrupted at any byte.  `running` is the byte count shown to the user. */
module Download {
  import opened Common

  type Bytes = seq<bv8>

  /** A path, split at its extension. */
  datatype Path = Path(stem: string, extension: string)

  function PartOf(p: Path): Path {
    p.(extension := "part")
  }

  datatype Item = Item(url: string, dest: Path)

  /** How the server and the process behave during one fetch.  `honours` servers answer a range
      request with the range, or refuse a range that starts at the end of the content; the others
      send everything.  Reads deliver `chunks` bytes each until they run out (an interruption), and
      only deliver nothing at the true end; `renames` is false when the process dies before the rename. */
  datatype Session = Session(reachable: bool, honours: bool, chunks: seq<nat>, renames: bool)

  const BUFFER := 262144
  const REPORT_EVERY := 8388608

  datatype Progress = Progress(received: nat, total: nat, done: bool)

  type Files = map<Path, Bytes>
  type Remote = map<string, Bytes>

  // ----- Byte accounting -----------------------------------------------------------

  function PartLength(files: Files, item: Item): nat {
    if PartOf(item.dest) in files then |files[PartOf(item.dest)]| else 0
  }

  /** The bytes in the part files of the first n items. */
  function PartBytes(files: Files, items: seq<Item>, n: nat): nat
    requires n <= |items|
  {
    if n == 0 then 0 else PartBytes(files, items, n - 1) + PartLength(files, items[n - 1])
  }

  function RemoteBytes(remote: Remote, items: seq<Item>, n: nat): nat
    requires n <= |items| && forall k :: 0 <= k < n ==> items[k].url in remote
  {
    if n == 0 then 0 else RemoteBytes(remote, items, n - 1) + |remote[items[n - 1].url]|
  }

  /** What is on disk of one item: the finished file, or else its part. */
  function Held(files: Files, item: Item): nat {
    if item.dest in files then |files[item.dest]| else PartLength(files, item)
  }

  /** Finished bytes plus bytes in the remaining parts, over the first n items. */
  function Counted(files: Files, items: seq<Item>, n: nat): nat
    requires n <= |items|
  {
    if n == 0 then 0 else Counted(files, items, n - 1) + Held(files, items[n - 1])
  }

  lemma {:induction false} NothingFinished(files: Files, items: seq<Item>, n: nat)
    requires n <= |items| && forall k :: 0 <= k < n ==> items[k].dest !in files
    ensures Counted(files, items, n) == PartBytes(files, items, n)
  {
    if n > 0 {
      NothingFinished(files, items, n - 1);
    }
  }

  lemma {:induction false} AllFinished(files: Files, items: seq<Item>, remote: Remote, n: nat)
    requires n <= |items|
    requires forall k :: 0 <= k < n ==>
               items[k].url in remote && items[k].dest in files && files[items[k].dest] == remote[items[k].url]
    ensures Counted(files, items, n) == RemoteBytes(remote, items, n)
  {
    if n > 0 {
      AllFinished(files, items, remote, n - 1);
    }
  }

  lemma {:induction false} CountIsHeld(files: Files, items: seq<Item>, k: nat, n: nat)
    requires k < n <= |items|
    ensures Counted(files, items, n) >= Held(files, items[k])
  {
    if k < n - 1 {
      CountIsHeld(files, items, k, n - 1);
    }
  }

  // ----- Part files ------------------------------------------------------------------

  /** Destinations and part files are all different paths. */
  predicate Separate(items: seq<Item>) {
    && (forall i, k :: 0 <= i < k < |items| ==>
          items[i].dest != items[k].dest && PartOf(items[i].dest) != PartOf(items[k].dest))
    && (forall i, k :: 0 <= i < |items| && 0 <= k < |items| ==> items[i].dest != PartOf(items[k].dest))
  }

  /** Replacing extensions keeps part files apart exactly when no two destinations share a stem. */
  lemma SeparateMeansDistinctStems(items: seq<Item>)
    ensures Separate(items) <==>
            && (forall i, k :: 0 <= i < k < |items| ==> items[i].dest.stem != items[k].dest.stem)
            && (forall i :: 0 <= i < |items| ==> items[i].dest.extension != "part")
  {
    if Separate(items) {
      forall i, k | 0 <= i < k < |items| ensures items[i].dest.stem != items[k].dest.stem {
        assert PartOf(items[i].dest) != PartOf(items[k].dest);
      }
      forall i | 0 <= i < |items| ensures items[i].dest.extension != "part" {
        assert items[i].dest != PartOf(items[i].dest);
      }
    }
  }

  predicate Prefix(a: Bytes, b: Bytes) {
    |a| <= |b| && a == b[..|a|]
  }

  /** What a resumed download leaves behind is the remote content exactly when the part was a prefix of it. */
  lemma ResumeIsCorrect(part: Bytes, content: Bytes)
    requires |part| <= |content|
    ensures part + content[|part|..] == content <==> Prefix(part, content)
  {
    if part + content[|part|..] == content {
      assert (part + content[|part|..])[..|part|] == part;
    }
  }

  /** Two destinations that share a stem share a part file: resuming counts its bytes twice. */
  lemma SharedPartIsCountedTwice(files: Files, a: Item, b: Item)
    requires a.dest.stem == b.dest.stem
    ensures PartBytes(files, [a, b], 2) == 2 * PartLength(files, a)
  {
    assert PartBytes(files, [a, b], 2) == PartBytes(files, [a, b], 1) + PartLength(files, b);
  }

  /** Every destination is absent or complete, and every part file is a prefix of the content. */
  predicate Sound(files: Files, items: seq<Item>, remote: Remote) {
    forall k :: 0 <= k < |items| ==> SoundItem(files, items[k], remote)
  }

  predicate SoundItem(files: Files, item: Item, remote: Remote) {
    && item.url in remote
    && (item.dest in files ==> files[item.dest] == remote[item.url])
    && (PartOf(item.dest) in files ==> Prefix(files[PartOf(item.dest)], remote[item.url]))
  }

  /** A complete part that was never renamed: the range behind it cannot be satisfied. */
  predicate Stuck(files: Files, item: Item, remote: Remote) {
    && item.url in remote && item.dest !in files
    && PartLength(files, item) > 0 && PartLength(files, item) >= |remote[item.url]|
  }

  predicate NoneStuck(files: Files, items: seq<Item>, remote: Remote) {
    forall k :: 0 <= k < |items| ==> !Stuck(files, items[k], remote)
  }

  // ----- What a fetch changes -----------------------------------------------------------

  /** The two paths of an item are as before. */
  predicate SameItem(before: Files, after: Files, item: Item) {
    && (item.dest in after <==> item.dest in before)
    && (item.dest in before ==> after[item.dest] == before[item.dest])
    && (PartOf(item.dest) in after <==> PartOf(item.dest) in before)
    && (PartOf(item.dest) in before ==> after[PartOf(item.dest)] == before[PartOf(item.dest)])
  }

  /** Only the paths of one item differ. */
  ghost predicate OnlyItemChanged(before: Files, after: Files, item: Item) {
    forall p :: p != item.dest && p != PartOf(item.dest) ==>
      (p in after <==> p in before) && (p in before ==> after[p] == before[p])
  }

  /** The destinations and part files of a list. */
  ghost function Paths(items: seq<Item>): set<Path> {
    (set i | i in items :: i.dest) + (set i | i in items :: PartOf(i.dest))
  }

  ghost predicate OnlyItemsChanged(before: Files, after: Files, items: seq<Item>) {
    forall p :: p !in Paths(items) ==> (p in after <==> p in before) && (p in before ==> after[p] == before[p])
  }

  lemma OneOfItemsChanged(start: Files, before: Files, after: Files, items: seq<Item>, k: nat)
    requires OnlyItemsChanged(start, before, items) && k < |items| && OnlyItemChanged(before, after, items[k])
    ensures OnlyItemsChanged(start, after, items)
  {
    assert items[k] in items;
  }

  /** Fetching one item leaves the others as they were. */
  lemma OthersUnchanged(before: Files, after: Files, items: seq<Item>, k: nat, i: nat)
    requires Separate(items) && k < |items| && i < |items| && i != k && OnlyItemChanged(before, after, items[k])
    ensures SameItem(before, after, items[i])
  {
    if i < k {
      assert items[i].dest != items[k].dest && PartOf(items[i].dest) != PartOf(items[k].dest);
    } else {
      assert items[k].dest != items[i].dest && PartOf(items[k].dest) != PartOf(items[i].dest);
    }
    assert items[i].dest != PartOf(items[k].dest) && items[k].dest != PartOf(items[i].dest);
  }

  /** So the count changes by what changes of the one item. */
  lemma {:induction false} CountFollows(before: Files, after: Files, items: seq<Item>, k: nat, n: nat)
    requires Separate(items) && k < |items| && n <= |items| && OnlyItemChanged(before, after, items[k])
    ensures Counted(after, items, n) + (if k < n then Held(before, items[k]) else 0)
         == Counted(before, items, n) + (if k < n then Held(after, items[k]) else 0)
  {
    if n > 0 {
      CountFollows(before, after, items, k, n - 1);
      if n - 1 != k {
        OthersUnchanged(before, after, items, k, n - 1);
      }
    }
  }

  // ----- The files to fetch ---------------------------------------------------------------

  function Missing(files: Files, items: seq<Item>): seq<Item> {
    if items == [] then []
    else (if items[0].dest in files then [] else [items[0]]) + Missing(files, items[1..])
  }

  /** The announced lengths of the items whose server tells. */
  function Announced(lengths: map<string, nat>, items: seq<Item>): nat {
    if items == [] then 0
    else (if items[0].url in lengths then lengths[items[0].url] else 0) + Announced(lengths, items[1..])
  }

  lemma {:induction false} MissingIsExact(files: Files, items: seq<Item>)
    ensures forall m :: m in Missing(files, items) <==> m in items && m.dest !in files
    ensures |Missing(files, items)| <= |items|
  {
    if items != [] {
      MissingIsExact(files, items[1..]);
      assert items == [items[0]] + items[1..];
    }
  }

  lemma {:induction false} MissingIsSeparate(files: Files, items: seq<Item>)
    requires Separate(items)
    ensures Separate(Missing(files, items))
  {
    if items != [] {
      forall k | 0 <= k < |items[1..]| ensures items[1..][k] == items[k + 1] { }
      MissingIsSeparate(files, items[1..]);
      MissingIsExact(files, items[1..]);
      var rest := Missing(files, items[1..]);
      forall k | 0 <= k < |rest|
        ensures items[0].dest != rest[k].dest && PartOf(items[0].dest) != PartOf(rest[k].dest)
                && items[0].dest != PartOf(rest[k].dest) && rest[k].dest != PartOf(items[0].dest)
      {
        assert rest[k] in items[1..];
        var m :| 0 <= m < |items[1..]| && items[1..][m] == rest[k];
        assert items[m + 1] == rest[k];
      }
      if items[0].dest !in files {
        SeparateCons(items[0], rest);
      }
    }
  }

  lemma SeparateCons(item: Item, rest: seq<Item>)
    requires Separate(rest) && item.dest != PartOf(item.dest)
    requires forall k :: 0 <= k < |rest| ==>
               && item.dest != rest[k].dest && PartOf(item.dest) != PartOf(rest[k].dest)
               && item.dest != PartOf(rest[k].dest) && rest[k].dest != PartOf(item.dest)
    ensures Separate([item] + rest)
  {
    var all := [item] + rest;
    forall k | 0 <= k < |all| ensures all[k] == if k == 0 then item else rest[k - 1] { }
  }

  function Larger(a: nat, b: nat): nat {
    if a > b then a else b
  }

  // ----- One session over the missing files -------------------------------------------------

  /** The server is reachable, delivers to the end and the process lives to rename. */
  predicate Delivers(s: Session, item: Item, remote: Remote) {
    s.reachable && s.renames && item.url in remote && |s.chunks| >= |remote[item.url]|
  }

  predicate Cooperative(sessions: seq<Session>, items: seq<Item>, remote: Remote) {
    |sessions| >= |items| && forall k :: 0 <= k < |items| ==> Delivers(sessions[k], items[k], remote)
  }

  /** A server that honours ranges is asked for a part that is stuck. */
  predicate Refused(s: Session, files: Files, item: Item, remote: Remote) {
    s.honours && Stuck(files, item, remote)
  }

  predicate NoneRefused(files: Files, items: seq<Item>, remote: Remote, sessions: seq<Session>)
    requires |sessions| >= |items|
  {
    forall k :: 0 <= k < |items| ==> !Refused(sessions[k], files, items[k], remote)
  }

  /** Why a list was left at file number k: something was lost, or the part is stuck; and only a process that
      dies before the rename leaves a part stuck. */
  ghost predicate Broke(s: Session, start: Files, files: Files, items: seq<Item>, k: nat, remote: Remote)
    requires k < |items|
  {
    && Sound(files, items, remote) && OnlyItemsChanged(start, files, items)
    && (Delivers(s, items[k], remote) ==> Refused(s, start, items[k], remote))
    && (s.renames && NoneStuck(start, items, remote) ==> NoneStuck(files, items, remote))
  }

  /** Where a session over a list stands: at file number k with the count so far, or broken off there. */
  ghost predicate Stands(start: Files, files: Files, items: seq<Item>, remote: Remote, sessions: seq<Session>,
                         k: nat, r: Result<nat, ()>)
    requires k <= |items| <= |sessions|
  {
    match r
    case Ok(received) =>
      && Midway(start, files, items, remote, k, received)
      && forall i :: 0 <= i < k ==> !Refused(sessions[i], start, items[i], remote)
    case Err(_) => k < |items| && Broke(sessions[k], start, files, items, k, remote)
  }

  predicate AllRename(sessions: seq<Session>) {
    forall k :: 0 <= k < |sessions| ==> sessions[k].renames
  }

  /** The first `k` files are in place, and the count is what is on disk. */
  ghost predicate Midway(start: Files, files: Files, items: seq<Item>, remote: Remote, k: nat, received: nat)
    requires k <= |items|
  {
    && Sound(files, items, remote) && OnlyItemsChanged(start, files, items)
    && received == Counted(files, items, |items|)
    && (forall i :: 0 <= i < k ==> items[i].dest in files)
    && (forall i :: k <= i < |items| ==> items[i].dest !in files && SameItem(start, files, items[i]))
  }

  /** What one fetch means for the whole list. */
  lemma AfterFetch(start: Files, before: Files, after: Files, items: seq<Item>, k: nat, remote: Remote, received: nat)
    requires Separate(items) && k < |items| && Midway(start, before, items, remote, k, received)
    requires OnlyItemChanged(before, after, items[k]) && SoundItem(after, items[k], remote)
    ensures Sound(after, items, remote) && OnlyItemsChanged(start, after, items)
    ensures forall i :: 0 <= i < |items| && i != k ==> SameItem(before, after, items[i])
    ensures Counted(after, items, |items|) + Held(before, items[k]) == received + Held(after, items[k])
  {
    OneOfItemsChanged(start, before, after, items, k);
    CountFollows(before, after, items, k, |items|);
    forall i | 0 <= i < |items| && i != k
      ensures SameItem(before, after, items[i]) && SoundItem(after, items[i], remote)
    {
      OthersUnchanged(before, after, items, k, i);
      assert SoundItem(before, items[i], remote);
    }
  }

  lemma NextInLine(start: Files, before: Files, after: Files, items: seq<Item>, k: nat, remote: Remote, received: nat,
                   value: nat)
    requires Separate(items) && k < |items| && Midway(start, before, items, remote, k, received)
    requires OnlyItemChanged(before, after, items[k]) && SoundItem(after, items[k], remote) && items[k].dest in after
    requires value == Counted(after, items, |items|)
    ensures Midway(start, after, items, remote, k + 1, value)
  {
    AfterFetch(start, before, after, items, k, remote, received);
    forall i | k < i < |items| ensures items[i].dest !in after && SameItem(start, after, items[i]) {
      assert SameItem(before, after, items[i]) && SameItem(start, before, items[i]);
    }
    forall i | 0 <= i < k ensures items[i].dest in after {
      assert SameItem(before, after, items[i]);
    }
  }

  /** Halfway through a list nothing is stuck that was not before. */
  lemma StuckFollows(start: Files, before: Files, after: Files, items: seq<Item>, k: nat, remote: Remote, received: nat)
    requires Separate(items) && k < |items| && Midway(start, before, items, remote, k, received)
    requires OnlyItemChanged(before, after, items[k])
    ensures NoneStuck(start, items, remote) && !Stuck(after, items[k], remote) ==> NoneStuck(after, items, remote)
    ensures Stuck(before, items[k], remote) <==> Stuck(start, items[k], remote)
  {
    forall i | 0 <= i < |items| && i != k ensures Stuck(after, items[i], remote) ==> Stuck(start, items[i], remote) {
      OthersUnchanged(before, after, items, k, i);
    }
  }

  /** An item that was already there is not among the missing ones, so nothing of it has changed. */
  lemma SoundAgain(start: Files, files: Files, items: seq<Item>, remote: Remote)
    requires Separate(items) && Sound(start, items, remote)
    requires Sound(files, Missing(start, items), remote) && OnlyItemsChanged(start, files, Missing(start, items))
    ensures Sound(files, items, remote)
    ensures forall k :: 0 <= k < |items| && items[k].dest in start ==> items[k].dest in files
  {
    MissingIsExact(start, items);
    forall i | 0 <= i < |items|
      ensures SoundItem(files, items[i], remote) && (items[i].dest in start ==> items[i].dest in files)
    {
      assert SoundItem(start, items[i], remote);
      if items[i].dest in start {
        PresentIsUntouched(start, files, items, i);
      } else {
        assert items[i] in Missing(start, items);
      }
    }
  }

  lemma PresentIsUntouched(start: Files, files: Files, items: seq<Item>, i: nat)
    requires Separate(items) && i < |items| && items[i].dest in start
    requires OnlyItemsChanged(start, files, Missing(start, items))
    ensures SameItem(start, files, items[i])
  {
    MissingIsExact(start, items);
    forall other | other in Missing(start, items)
      ensures items[i].dest != other.dest && PartOf(items[i].dest) != other.dest
              && items[i].dest != PartOf(other.dest) && PartOf(items[i].dest) != PartOf(other.dest)
    {
      var m :| 0 <= m < |items| && items[m] == other;
      assert m != i;
    }
  }

  /** The last report of a completed session: the size of everything fetched, or more if more was announced. */
  predicate Final(p: Progress, start: Files, items: seq<Item>, remote: Remote) {
    var missing := Missing(start, items);
    && (forall m :: m in missing ==> m.url in remote)
    && p.done && p.received == Larger(RemoteBytes(remote, missing, |missing|), p.total)
  }

  lemma MissingIsSound(files: Files, items: seq<Item>, remote: Remote)
    requires Sound(files, items, remote)
    ensures var missing := Missing(files, items);
            Sound(files, missing, remote) && forall k :: 0 <= k < |missing| ==> missing[k].dest !in files
  {
    var missing := Missing(files, items);
    MissingIsExact(files, items);
    forall k | 0 <= k < |missing| ensures missing[k].dest !in files && SoundItem(files, missing[k], remote) {
      assert missing[k] in missing;
      var m :| 0 <= m < |items| && items[m] == missing[k];
    }
  }

  lemma NothingMissing(files: Files, items: seq<Item>)
    ensures Missing(files, items) == [] <==> forall k :: 0 <= k < |items| ==> items[k].dest in files
  {
    var missing := Missing(files, items);
    MissingIsExact(files, items);
    if missing == [] {
      forall k | 0 <= k < |items| ensures items[k].dest in files {
        assert items[k] in items && items[k] !in missing;
      }
    } else {
      assert missing[0] in missing;
    }
  }

  /** At the start of a session the count is the bytes in the parts of the missing files. */
  lemma MissingIsReady(files: Files, items: seq<Item>, remote: Remote, sessions: seq<Session>)
    requires Separate(items) && Sound(files, items, remote) && |items| <= |sessions|
    ensures var missing := Missing(files, items); var received := PartBytes(files, missing, |missing|);
            && Separate(missing) && |missing| <= |items| && received == Counted(files, missing, |missing|)
            && Stands(files, files, missing, remote, sessions, 0, Ok(received))
  {
    var missing := Missing(files, items);
    MissingIsExact(files, items);
    MissingIsSeparate(files, items);
    MissingIsSound(files, items, remote);
    NothingFinished(files, missing, |missing|);
  }

  /** The end of a session over the missing files, as `Stands` tells it, seen from all files. */
  ghost predicate Ended(start: Files, files: Files, items: seq<Item>, remote: Remote, sessions: seq<Session>,
                        at: nat, r: Result<nat, ()>)
    requires |items| <= |sessions|
  {
    var missing := Missing(start, items);
    && Separate(items) && Sound(start, items, remote) && at <= |missing| <= |items| && (r.Ok? ==> at == |missing|)
    && Stands(start, files, missing, remote, sessions, at, r)
  }

  lemma EndIsSound(start: Files, files: Files, items: seq<Item>, remote: Remote, sessions: seq<Session>, at: nat,
                   r: Result<nat, ()>)
    requires |items| <= |sessions| && Ended(start, files, items, remote, sessions, at, r)
    ensures Sound(files, items, remote)
    ensures forall k :: 0 <= k < |items| && (r.Ok? || items[k].dest in start) ==> items[k].dest in files
  {
    SoundAgain(start, files, items, remote);
    if r.Ok? {
      forall k | 0 <= k < |items| && items[k].dest !in start ensures items[k].dest in files {
        MissingHolds(start, items, k);
      }
    }
  }

  lemma MissingHolds(files: Files, items: seq<Item>, k: nat)
    requires k < |items| && items[k].dest !in files
    ensures exists m :: 0 <= m < |Missing(files, items)| && Missing(files, items)[m] == items[k]
  {
    MissingIsExact(files, items);
    assert items[k] in items;
  }

  lemma EndIsCounted(start: Files, files: Files, items: seq<Item>, remote: Remote, sessions: seq<Session>,
                     at: nat, r: Result<nat, ()>, total: nat)
    requires |items| <= |sessions| && Ended(start, files, items, remote, sessions, at, r) && r.Ok?
    ensures Final(Progress(Larger(r.value, total), total, true), start, items, remote)
  {
    var missing := Missing(start, items);
    forall k | 0 <= k < |missing|
      ensures missing[k].url in remote && missing[k].dest in files && files[missing[k].dest] == remote[missing[k].url]
    {
      assert SoundItem(files, missing[k], remote);
    }
    AllFinished(files, missing, remote, |missing|);
  }

  lemma EndIsExact(start: Files, files: Files, items: seq<Item>, remote: Remote, sessions: seq<Session>, at: nat,
                   r: Result<nat, ()>)
    requires |items| <= |sessions| && Ended(start, files, items, remote, sessions, at, r)
    ensures var missing := Missing(start, items);
            && |missing| <= |sessions|
            && (Cooperative(sessions, missing, remote) ==> (r.Ok? <==> NoneRefused(start, missing, remote, sessions)))
  {
  }

  lemma EndIsUnstuck(start: Files, files: Files, items: seq<Item>, remote: Remote, sessions: seq<Session>, at: nat,
                     r: Result<nat, ()>)
    requires |items| <= |sessions| && Ended(start, files, items, remote, sessions, at, r)
    requires AllRename(sessions) && NoneStuck(start, items, remote)
    ensures NoneStuck(files, items, remote)
  {
    var missing := Missing(start, items);
    EndIsSound(start, files, items, remote, sessions, at, r);
    MissingIsUnstuck(start, items, remote);
    assert NoneStuck(files, missing, remote);
    forall k | 0 <= k < |items| ensures !Stuck(files, items[k], remote) {
      if items[k].dest !in start {
        MissingHolds(start, items, k);
      }
    }
  }

  lemma MissingIsUnstuck(files: Files, items: seq<Item>, remote: Remote)
    requires NoneStuck(files, items, remote)
    ensures NoneStuck(files, Missing(files, items), remote)
  {
    var missing := Missing(files, items);
    MissingIsExact(files, items);
    forall k | 0 <= k < |missing| ensures !Stuck(files, missing[k], remote) {
      assert missing[k] in missing;
      var m :| 0 <= m < |items| && items[m] == missing[k];
    }
  }

  /** A report made while the given files were on disk and the given list was being fetched. */
  predicate Accurate(p: Progress, files: Files, items: seq<Item>) {
    !p.done ==> p.received == Counted(files, items, |items|)
  }

  /** The file system below the cache directory, and the progress reported so far. */
  class Downloader {
    var files: Files
    var reports: seq<Progress>
    /** The files, and the list being fetched, at the time of each report. */
    ghost var snapshots: seq<Files>
    ghost var lists: seq<seq<Item>>

    constructor (files: Files)
      ensures this.files == files && reports == [] && Valid()
    {
      this.files, reports, snapshots, lists := files, [], [], [];
    }

    /** Until a list is done, every report equals the finished bytes plus the bytes in the remaining parts. */
    ghost predicate Valid()
      reads this
    {
      && |reports| == |snapshots| == |lists|
      && forall k :: 0 <= k < |reports| ==> Accurate(reports[k], snapshots[k], lists[k])
    }

    method Report(p: Progress, ghost items: seq<Item>)
      requires Valid() && Accurate(p, files, items)
      modifies `reports, `snapshots, `lists
      ensures Valid() && reports == old(reports) + [p]
    {
      reports, snapshots, lists := reports + [p], snapshots + [files], lists + [items];
    }

    method Append(part: Path, content: Bytes, position: nat, read: nat)
      requires position + read <= |content| && part in files && files[part] == content[..position]
      modifies `files
      ensures files == old(files)[part := content[..position + read]]
    {
      assert content[..position] + content[position..position + read] == content[..position + read];
      files := files[part := files[part] + content[position..position + read]];
    }

    /** Reads until the end of the content or of the connection, and appends to the part. */
    method Stream(item: Item, start: nat, total: nat, chunks: seq<nat>, content: Bytes,
                  ghost before: Files, ghost items: seq<Item>, ghost k: nat)
      returns (complete: bool, running: nat)
      requires Valid() && Separate(items) && k < |items| && items[k] == item
      requires item.dest != PartOf(item.dest) && item.dest !in files && OnlyItemChanged(before, files, item)
      requires PartOf(item.dest) in files && Prefix(files[PartOf(item.dest)], content)
      requires start == Counted(files, items, |items|)
      modifies this
      ensures Valid() && item.dest !in files && OnlyItemChanged(before, files, item)
      ensures PartOf(item.dest) in files && Prefix(files[PartOf(item.dest)], content)
      ensures running == Counted(files, items, |items|)
      ensures complete <==> |files[PartOf(item.dest)]| == |content|
      ensures |chunks| >= |content| ==> complete
    {
      var part := PartOf(item.dest);
      running := start;
      var since := 0;
      var position, turn := |files[part]|, 0;
      while position < |content|
        invariant Valid() && position <= |content| && part in files && files[part] == content[..position]
        invariant OnlyItemChanged(before, files, item) && item.dest !in files
        invariant running == Counted(files, items, |items|) && turn <= position && turn <= |chunks|
        decreases |content| - position
      {
        if turn >= |chunks| {
          return false, running;
        }
        var wanted := if chunks[turn] < 1 then 1 else if chunks[turn] > BUFFER then BUFFER else chunks[turn];
        var read := if wanted > |content| - position then |content| - position else wanted;
        ghost var earlier := files;
        Append(part, content, position, read);
        CountFollows(earlier, files, items, k, |items|);
        position, turn, running, since := position + read, turn + 1, running + read, since + read;
        if since >= REPORT_EVERY {
          since := 0;
          Report(Progress(running, total, false), items);
        }
      }
      complete := true;
    }

    /** Streams one file, number k of the list being fetched. */
    method Fetch(item: Item, already: nat, total: nat, s: Session, remote: Remote, ghost items: seq<Item>, ghost k: nat)
      returns (r: Result<nat, ()>)
      requires Valid() && Separate(items) && k < |items| && items[k] == item
      requires item.dest !in files && SoundItem(files, item, remote) && already == Counted(files, items, |items|)
      modifies this
      ensures Valid() && OnlyItemChanged(old(files), files, item) && SoundItem(files, item, remote)
      ensures if r.Ok? then item.dest in files && r.value == Counted(files, items, |items|) else item.dest !in files
      ensures s.honours && Stuck(old(files), item, remote) ==> r.Err? && files == old(files)
      ensures s.reachable && |s.chunks| >= |remote[item.url]| && !(s.honours && Stuck(old(files), item, remote)) ==>
                if s.renames then r.Ok?
                else r.Err? && PartOf(item.dest) in files && files[PartOf(item.dest)] == remote[item.url]
      ensures s.renames && !Stuck(old(files), item, remote) ==> !Stuck(files, item, remote)
    {
      var part, content := PartOf(item.dest), remote[item.url];
      assert items[k].dest != PartOf(items[k].dest);
      var resumeFrom := if part in files then |files[part]| else 0;
      if !s.reachable || (s.honours && resumeFrom > 0 && resumeFrom >= |content|) {
        return Err(());
      }
      var resumed := s.honours && resumeFrom > 0;
      if !resumed {
        files := files[part := []];
        CountFollows(old(files), files, items, k, |items|);
      }
      // Walking the count back never goes below zero: the part is included in it.
      CountIsHeld(old(files), items, k, |items|);
      var running := if resumed then already else already - resumeFrom;
      var complete;
      complete, running := Stream(item, running, total, s.chunks, content, old(files), items, k);
      if !complete || !s.renames {
        return Err(());
      }
      ghost var streamed := files;
      files := (files - {part})[item.dest := files[part]];
      CountFollows(streamed, files, items, k, |items|);
      return Ok(running);
    }

    /** One turn of the fetching loop. */
    method FetchNext(missing: seq<Item>, k: nat, received: nat, total: nat, sessions: seq<Session>, remote: Remote,
                     ghost start: Files)
      returns (r: Result<nat, ()>)
      requires Valid() && Separate(missing) && k < |missing| <= |sessions|
      requires Stands(start, files, missing, remote, sessions, k, Ok(received))
      modifies this
      ensures Valid() && Stands(start, files, missing, remote, sessions, if r.Ok? then k + 1 else k, r)
    {
      ghost var before := files;
      assert SoundItem(files, missing[k], remote);
      r := Fetch(missing[k], received, total, sessions[k], remote, missing, k);
      AfterFetch(start, before, files, missing, k, remote, received);
      StuckFollows(start, before, files, missing, k, remote, received);
      if r.Ok? {
        NextInLine(start, before, files, missing, k, remote, received, r.value);
      }
    }

    /** The fetching loop over files that are all missing; `at` is where it ended. */
    method FetchAll(missing: seq<Item>, already: nat, total: nat, sessions: seq<Session>, remote: Remote)
      returns (r: Result<nat, ()>, ghost at: nat)
      requires Valid() && Separate(missing) && |missing| <= |sessions|
      requires Stands(files, files, missing, remote, sessions, 0, Ok(already))
      modifies this
      ensures Valid() && at <= |missing| && (r.Ok? ==> at == |missing|)
      ensures Stands(old(files), files, missing, remote, sessions, at, r)
    {
      r, at := Ok(already), 0;
      for k := 0 to |missing|
        invariant Valid() && at == k && r.Ok?
        invariant Stands(old(files), files, missing, remote, sessions, k, r)
      {
        r := FetchNext(missing, k, r.value, total, sessions, remote, old(files));
        if r.Err? {
          return;
        }
        at := k + 1;
      }
    }

    /** Fetches every missing file in order, stopping at the first failure. */
    method EnsureFiles(items: seq<Item>, lengths: map<string, nat>, sessions: seq<Session>, remote: Remote)
      returns (r: Result<(), ()>)
      requires Valid() && Separate(items) && Sound(files, items, remote) && |items| <= |sessions|
      modifies this
      ensures Valid() && Sound(files, items, remote)
      ensures r.Ok? ==> forall k :: 0 <= k < |items| ==> items[k].dest in files
      ensures forall k :: 0 <= k < |items| && items[k].dest in old(files) ==> items[k].dest in files
      ensures r.Ok? && Missing(old(files), items) != [] ==>
                reports != [] && Final(reports[|reports| - 1], old(files), items, remote)
      ensures Cooperative(sessions, Missing(old(files), items), remote) ==>
                (r.Ok? <==> NoneRefused(old(files), Missing(old(files), items), remote, sessions))
      ensures AllRename(sessions) && NoneStuck(old(files), items, remote) ==> NoneStuck(files, items, remote)
    {
      var missing := Missing(files, items);
      MissingIsReady(files, items, remote, sessions);
      NothingMissing(files, items);
      if missing == [] {
        return Ok(());
      }
      var total := Announced(lengths, missing);
      var received := PartBytes(files, missing, |missing|);
      Report(Progress(received, total, false), missing);
      var fetched, at := FetchAll(missing, received, total, sessions, remote);
      EndIsSound(old(files), files, items, remote, sessions, at, fetched);
      EndIsExact(old(files), files, items, remote, sessions, at, fetched);
      if AllRename(sessions) && NoneStuck(old(files), items, remote) {
        EndIsUnstuck(old(files), files, items, remote, sessions, at, fetched);
      }
      if fetched.Err? {
        return Err(());
      }
      EndIsCounted(old(files), files, items, remote, sessions, at, fetched, total);
      Report(Progress(Larger(fetched.value, total), total, true), missing);
      return Ok(());
    }

    /** Any number of sessions, broken off anywhere: destinations stay absent or exact and parts stay prefixes,
        and nothing fetched is lost.  If no process died between the last byte and the rename, one session in
        which everybody delivers completes the list. */
    method EnsureRepeatedly(items: seq<Item>, lengths: map<string, nat>, visits: seq<seq<Session>>, last: seq<Session>,
                            remote: Remote)
      returns (r: Result<(), ()>)
      requires Valid() && Separate(items) && Sound(files, items, remote) && |items| <= |last|
      requires forall v :: 0 <= v < |visits| ==> |items| <= |visits[v]|
      modifies this
      ensures Valid() && Sound(files, items, remote)
      ensures forall k :: 0 <= k < |items| && items[k].dest in old(files) ==> items[k].dest in files
      ensures r.Ok? ==> forall k :: 0 <= k < |items| ==> items[k].dest in files
      ensures NoneStuck(old(files), items, remote) && DeliverAll(last, remote)
              && (forall v :: 0 <= v < |visits| ==> AllRename(visits[v]))
              ==> r.Ok?
    {
      for v := 0 to |visits|
        invariant Valid() && Sound(files, items, remote)
        invariant forall k :: 0 <= k < |items| && items[k].dest in old(files) ==> items[k].dest in files
        invariant NoneStuck(old(files), items, remote) && (forall w :: 0 <= w < v ==> AllRename(visits[w])) ==>
                    NoneStuck(files, items, remote)
      {
        var _ := EnsureFiles(items, lengths, visits[v], remote);
      }
      GenerousIsCooperative(files, items, last, remote);
      r := EnsureFiles(items, lengths, last, remote);
    }

    /** But a process that dies right before the rename leaves a part that no later session gets past, as long
        as the server honours ranges. */
    method DieBeforeTheRename(item: Item, s: Session, later: seq<Session>, remote: Remote)
      requires Valid() && Separate([item]) && item.dest !in files && PartOf(item.dest) !in files
      requires item.url in remote && |remote[item.url]| > 0
      requires s.reachable && !s.renames && |s.chunks| >= |remote[item.url]|
      requires forall k :: 0 <= k < |later| ==> later[k].honours
      modifies this
      ensures Stuck(files, item, remote) && files[PartOf(item.dest)] == remote[item.url]
    {
      var _ := Fetch(item, 0, 0, s, remote, [item], 0);
      for k := 0 to |later|
        invariant Valid() && Stuck(files, item, remote) && files[PartOf(item.dest)] == remote[item.url]
      {
        var r := Fetch(item, |files[PartOf(item.dest)]|, 0, later[k], remote, [item], 0);
        assert r.Err?;
      }
    }
  }

  /** Whatever is asked for, everybody delivers. */
  predicate DeliverAll(sessions: seq<Session>, remote: Remote) {
    forall k, url :: 0 <= k < |sessions| && url in remote ==>
      sessions[k].reachable && sessions[k].renames && |sessions[k].chunks| >= |remote[url]|
  }

  lemma GenerousIsCooperative(files: Files, items: seq<Item>, sessions: seq<Session>, remote: Remote)
    requires Sound(files, items, remote) && |items| <= |sessions|
    ensures |Missing(files, items)| <= |items|
    ensures DeliverAll(sessions, remote) && NoneStuck(files, items, remote) ==>
              && Cooperative(sessions, Missing(files, items), remote)
              && NoneRefused(files, Missing(files, items), remote, sessions)
  {
    MissingIsExact(files, items);
    MissingIsSound(files, items, remote);
    if NoneStuck(files, items, remote) {
      MissingIsUnstuck(files, items, remote);
    }
    forall k | 0 <= k < |Missing(files, items)| ensures Missing(files, items)[k].url in remote {
      assert SoundItem(files, Missing(files, items)[k], remote);
    }
  }
}
