/** The station rail of the guided setup: a window onto the tree of chapters,
    subchapters and stations (scripts/lib/deployment-bootstrap-tui.ts). */
module StationRail {
  import opened Common

  /** An empty subchapter stands for none. */
  datatype Station = Station(chapter: string, subchapter: string, item: string)

  datatype Row =
    | Chapter(text: string, current: bool)
    | Subchapter(text: string, current: bool)
    | Stop(index: nat, text: string, current: bool)
    | Ellipsis

  // ----- What a row stands beneath ------------------------------------------------------

  /** The nearest chapter heading at or above row `p`. */
  function ChapterAbove(rows: seq<Row>, p: nat): Option<string>
    requires p < |rows|
  {
    if rows[p].Chapter? then Some(rows[p].text) else if p == 0 then None else ChapterAbove(rows, p - 1)
  }

  /** The nearest subchapter heading at or above row `p` within its chapter; empty for none. */
  function SubchapterAbove(rows: seq<Row>, p: nat): string
    requires p < |rows|
  {
    if rows[p].Subchapter? then rows[p].text
    else if rows[p].Chapter? || p == 0 then ""
    else SubchapterAbove(rows, p - 1)
  }

  /** The subchapter a station falls under: its own, or the latest one named before it in its chapter. */
  function SubchapterOf(stations: seq<Station>, i: nat): string
    requires i < |stations|
  {
    if stations[i].subchapter != "" then stations[i].subchapter
    else if i == 0 || stations[i - 1].chapter != stations[i].chapter then ""
    else SubchapterOf(stations, i - 1)
  }

  /** A station row names a station and stands beneath that station's own headings; a heading is marked when
      the current station `here` bears it. */
  predicate HeadedAt(rows: seq<Row>, p: nat, stations: seq<Station>, here: Station)
    requires p < |rows|
  {
    match rows[p]
    case Stop(index, text, _) =>
      && 1 <= index <= |stations|
      && text == stations[index - 1].item
      && ChapterAbove(rows, p) == Some(stations[index - 1].chapter)
      && SubchapterAbove(rows, p) == SubchapterOf(stations, index - 1)
    case Chapter(text, current) => current <==> text == here.chapter
    case Subchapter(text, current) =>
      current <==> ChapterAbove(rows, p) == Some(here.chapter) && text == here.subchapter
    case Ellipsis => true
  }

  predicate Headed(rows: seq<Row>, stations: seq<Station>, here: Station) {
    forall p :: 0 <= p < |rows| ==> HeadedAt(rows, p, stations, here)
  }

  /** A heading is new where it stands, and leads to a station. */
  predicate TidyAt(rows: seq<Row>, p: nat)
    requires p < |rows|
  {
    match rows[p]
    case Chapter(text, _) =>
      && (p == 0 || ChapterAbove(rows, p - 1) != Some(text))
      && p + 1 < |rows| && (rows[p + 1].Subchapter? || rows[p + 1].Stop?)
    case Subchapter(text, _) =>
      && text != "" && p > 0 && SubchapterAbove(rows, p - 1) != text
      && p + 1 < |rows| && rows[p + 1].Stop?
    case Stop(_, _, _) => true
    case Ellipsis => false
  }

  predicate Tidy(rows: seq<Row>) {
    forall p :: 0 <= p < |rows| ==> TidyAt(rows, p)
  }

  predicate Increasing(rows: seq<Row>) {
    forall p, q :: 0 <= p < q < |rows| && rows[p].Stop? && rows[q].Stop? ==> rows[p].index < rows[q].index
  }

  /** Exactly the current station is marked. */
  predicate Marked(rows: seq<Row>, current: nat) {
    && (forall p :: 0 <= p < |rows| && rows[p].Stop? ==> (rows[p].current <==> rows[p].index == current))
    && exists p :: 0 <= p < |rows| && rows[p].Stop? && rows[p].index == current
  }

  // ----- The whole tree -------------------------------------------------------------------

  function HeadingsFor(stations: seq<Station>, i: nat, current: Station): seq<Row>
    requires i < |stations|
  {
    var s := stations[i];
    var opens := i == 0 || stations[i - 1].chapter != s.chapter;
    var previous := if opens then "" else SubchapterOf(stations, i - 1);
    (if opens then [Chapter(s.chapter, s.chapter == current.chapter)] else []) +
    (if s.subchapter != "" && s.subchapter != previous
     then [Subchapter(s.subchapter, s.chapter == current.chapter && s.subchapter == current.subchapter)] else [])
  }

  function Tree(stations: seq<Station>, n: nat, current: nat): seq<Row>
    requires n <= |stations| && 1 <= current <= |stations|
  {
    if n == 0 then []
    else Tree(stations, n - 1, current) + HeadingsFor(stations, n - 1, stations[current - 1])
         + [Stop(n, stations[n - 1].item, n == current)]
  }

  lemma {:induction false} AboveAppend(rows: seq<Row>, more: seq<Row>, p: nat)
    requires p < |rows|
    ensures ChapterAbove(rows + more, p) == ChapterAbove(rows, p)
    ensures SubchapterAbove(rows + more, p) == SubchapterAbove(rows, p)
  {
    if p > 0 {
      AboveAppend(rows, more, p - 1);
    }
  }

  /** Adding headed rows keeps everything headed. */
  lemma HeadedAppend(before: seq<Row>, headings: seq<Row>, last: Row, stations: seq<Station>, here: Station)
    requires Headed(before, stations, here)
    requires forall p :: |before| <= p <= |before| + |headings| ==>
               HeadedAt(before + headings + [last], p, stations, here)
    ensures Headed(before + headings + [last], stations, here)
  {
    var rows := before + headings + [last];
    assert rows == before + (headings + [last]);
    forall p | 0 <= p < |rows| ensures HeadedAt(rows, p, stations, here) {
      if p < |before| {
        AboveAppend(before, headings + [last], p);
        assert HeadedAt(before, p, stations, here) && rows[p] == before[p];
      }
    }
  }

  ghost predicate GoodTree(rows: seq<Row>, stations: seq<Station>, n: nat, current: nat)
    requires n <= |stations| && 1 <= current <= |stations|
  {
    && Headed(rows, stations, stations[current - 1]) && Increasing(rows) && Tidy(rows)
    && (forall p :: 0 <= p < |rows| && rows[p].Stop? ==>
          rows[p].index <= n && (rows[p].current <==> rows[p].index == current))
    && (current <= n ==> Marked(rows, current))
    && (n == 0 ==> rows == [])
    && (n > 0 ==> rows != [] && rows[0].Chapter? && rows[|rows| - 1] == Stop(n, stations[n - 1].item, n == current))
  }

  /** The tree of the first `n` stations; its last row is station `n`. */
  lemma {:induction false} TreeIsHeaded(stations: seq<Station>, n: nat, current: nat)
    requires n <= |stations| && 1 <= current <= |stations|
    ensures GoodTree(Tree(stations, n, current), stations, n, current)
  {
    if n > 0 {
      TreeIsHeaded(stations, n - 1, current);
      var before := Tree(stations, n - 1, current);
      var headings := HeadingsFor(stations, n - 1, stations[current - 1]);
      var last := Stop(n, stations[n - 1].item, n == current);
      LastIsHeaded(stations, n, current, before, headings, before + headings + [last]);
      HeadingsAreHeaded(stations, n, current, before, headings, before + headings + [last]);
      HeadedAppend(before, headings, last, stations, stations[current - 1]);
      StaysTidy(stations, n, current, before, headings, before + headings + [last]);
      GrownTreeIsGood(stations, n, current, before, headings, before + headings + [last]);
    }
  }

  lemma GrownTreeIsGood(stations: seq<Station>, n: nat, current: nat, before: seq<Row>, headings: seq<Row>,
                        rows: seq<Row>)
    requires 0 < n <= |stations| && 1 <= current <= |stations| && GoodTree(before, stations, n - 1, current)
    requires headings == HeadingsFor(stations, n - 1, stations[current - 1])
    requires rows == before + headings + [Stop(n, stations[n - 1].item, n == current)]
    requires Headed(rows, stations, stations[current - 1]) && Tidy(rows)
    ensures GoodTree(rows, stations, n, current)
  {
    forall p | 0 <= p < |rows|
      ensures rows[p] ==
              if p < |before| then before[p] else if p < |rows| - 1 then headings[p - |before|] else rows[|rows| - 1]
    {
    }
    if current < n {
      var p :| 0 <= p < |before| && before[p].Stop? && before[p].index == current;
      assert rows[p].index == current;
    } else if current == n {
      assert rows[|rows| - 1].index == current;
    }
  }

  lemma LastIsHeaded(stations: seq<Station>, n: nat, current: nat, before: seq<Row>, headings: seq<Row>, rows: seq<Row>)
    requires 0 < n <= |stations| && 1 <= current <= |stations| && GoodTree(before, stations, n - 1, current)
    requires headings == HeadingsFor(stations, n - 1, stations[current - 1])
    requires rows == before + headings + [Stop(n, stations[n - 1].item, n == current)]
    ensures ChapterAbove(rows, |rows| - 1) == Some(stations[n - 1].chapter)
    ensures SubchapterAbove(rows, |rows| - 1) == SubchapterOf(stations, n - 1)
  {
    var end := |rows| - 1;
    assert rows[end].Stop?;
    if n > 1 {
      var seam := |before| - 1;
      assert rows == before + (headings + [rows[end]]);
      AboveAppend(before, headings + [rows[end]], seam);
      assert HeadedAt(before, seam, stations, stations[current - 1]) && before[seam].index == n - 1;
      if headings == [] { assert end == seam + 1; }
      if |headings| == 1 && headings[0].Subchapter? { assert rows[end - 1] == headings[0] && end - 1 == seam + 1; }
    }
    if |headings| >= 1 && headings[|headings| - 1].Chapter? {
      assert rows[end - 1] == headings[|headings| - 1];
    }
    if |headings| == 2 {
      assert rows[end - 1] == headings[1] && rows[end - 2] == headings[0];
      assert ChapterAbove(rows, end - 1) == ChapterAbove(rows, end - 2);
    }
  }

  lemma HeadingsAreHeaded(stations: seq<Station>, n: nat, current: nat, before: seq<Row>, headings: seq<Row>,
                          rows: seq<Row>)
    requires 0 < n <= |stations| && 1 <= current <= |stations| && GoodTree(before, stations, n - 1, current)
    requires headings == HeadingsFor(stations, n - 1, stations[current - 1])
    requires rows == before + headings + [Stop(n, stations[n - 1].item, n == current)]
    ensures var here := stations[current - 1];
            forall p :: |before| <= p <= |before| + |headings| ==> HeadedAt(rows, p, stations, here)
  {
    var m, here := |before|, stations[current - 1];
    LastIsHeaded(stations, n, current, before, headings, rows);
    forall p | m <= p < m + |headings| ensures HeadedAt(rows, p, stations, here) {
      assert rows[p] == headings[p - m];
      if rows[p].Subchapter? {
        assert p == m + |headings| - 1 && rows[p + 1].Stop?;
        assert ChapterAbove(rows, p + 1) == ChapterAbove(rows, p);
      }
    }
  }

  lemma StaysTidy(stations: seq<Station>, n: nat, current: nat, before: seq<Row>, headings: seq<Row>, rows: seq<Row>)
    requires 0 < n <= |stations| && 1 <= current <= |stations| && GoodTree(before, stations, n - 1, current)
    requires headings == HeadingsFor(stations, n - 1, stations[current - 1])
    requires rows == before + headings + [Stop(n, stations[n - 1].item, n == current)]
    ensures Tidy(rows)
  {
    var m := |before|;
    assert rows == before + (headings + [rows[|rows| - 1]]);
    forall p | 0 <= p < |rows| ensures TidyAt(rows, p) {
      if p < m {
        assert rows[p] == before[p] && TidyAt(before, p);
        if 0 < p {
          AboveAppend(before, headings + [rows[|rows| - 1]], p - 1);
        }
      } else if p < m + |headings| {
        HeadingIsNew(stations, n, current, before, headings, rows, p);
      }
    }
  }

  lemma HeadingIsNew(stations: seq<Station>, n: nat, current: nat, before: seq<Row>, headings: seq<Row>,
                     rows: seq<Row>, p: nat)
    requires 0 < n <= |stations| && 1 <= current <= |stations| && GoodTree(before, stations, n - 1, current)
    requires headings == HeadingsFor(stations, n - 1, stations[current - 1])
    requires rows == before + headings + [Stop(n, stations[n - 1].item, n == current)]
    requires |before| <= p < |before| + |headings|
    ensures TidyAt(rows, p)
  {
    var m := |before|;
    forall q | m <= q < m + |headings| ensures rows[q] == headings[q - m] {
    }
    if n > 1 {
      assert rows == before + (headings + [rows[|rows| - 1]]);
      AboveAppend(before, headings + [rows[|rows| - 1]], m - 1);
      assert HeadedAt(before, m - 1, stations, stations[current - 1]) && before[m - 1].index == n - 1;
    }
  }

  // ----- Keeping headings when rows are left out ---------------------------------------------

  /** `picks` selects rows so that no heading that still governs a selected row is left out. */
  ghost predicate Faithful(rows: seq<Row>, picks: seq<nat>) {
    && picks != []
    && (forall k :: 0 <= k < |picks| ==> picks[k] < |rows|)
    && rows[picks[0]].Chapter?
    && (forall k :: 0 < k < |picks| ==> picks[k - 1] < picks[k])
    && (forall k, r :: 0 < k < |picks| && picks[k - 1] < r < picks[k] ==>
          !rows[r].Chapter? && (rows[r].Subchapter? ==> rows[picks[k]].Subchapter? || rows[picks[k]].Chapter?))
  }

  function Pick(rows: seq<Row>, picks: seq<nat>): seq<Row>
    requires forall k :: 0 <= k < |picks| ==> picks[k] < |rows|
  {
    seq(|picks|, k requires 0 <= k < |picks| => rows[picks[k]])
  }

  /** Rows without headings in between do not change what is above. */
  lemma {:induction false} SkipStops(rows: seq<Row>, low: nat, high: nat)
    requires low <= high < |rows|
    requires forall r :: low < r <= high ==> !rows[r].Chapter?
    ensures ChapterAbove(rows, high) == ChapterAbove(rows, low)
    ensures (forall r :: low < r <= high ==> !rows[r].Subchapter?) ==>
              SubchapterAbove(rows, high) == SubchapterAbove(rows, low)
  {
    if low < high {
      SkipStops(rows, low, high - 1);
    }
  }

  lemma {:induction false} PickKeepsHeadings(rows: seq<Row>, picks: seq<nat>, k: nat)
    requires Faithful(rows, picks) && k < |picks|
    ensures ChapterAbove(Pick(rows, picks), k) == ChapterAbove(rows, picks[k])
    ensures SubchapterAbove(Pick(rows, picks), k) == SubchapterAbove(rows, picks[k])
  {
    if k > 0 {
      PickKeepsHeadings(rows, picks, k - 1);
      SkipStops(rows, picks[k - 1], picks[k] - 1);
    }
  }

  lemma {:induction false} PicksIncrease(picks: seq<nat>, i: nat, k: nat)
    requires i < k < |picks| && forall m :: 0 < m < |picks| ==> picks[m - 1] < picks[m]
    ensures picks[i] < picks[k]
  {
    if i < k - 1 {
      PicksIncrease(picks, i, k - 1);
    }
  }

  lemma PickIsHeaded(rows: seq<Row>, picks: seq<nat>, stations: seq<Station>, here: Station)
    requires Faithful(rows, picks) && Headed(rows, stations, here) && Increasing(rows)
    ensures Headed(Pick(rows, picks), stations, here) && Increasing(Pick(rows, picks))
  {
    forall p | 0 <= p < |picks| ensures HeadedAt(Pick(rows, picks), p, stations, here) {
      PickKeepsHeadings(rows, picks, p);
      assert HeadedAt(rows, picks[p], stations, here);
    }
    forall p, q | 0 <= p < q < |picks| ensures picks[p] < picks[q] {
      PicksIncrease(picks, p, q);
    }
  }

  /** An ellipsis above or below changes nothing for the rows that begin with a chapter. */
  lemma {:induction false} AboveShift(body: seq<Row>, p: nat)
    requires p < |body| && body[0].Chapter?
    ensures ChapterAbove([Ellipsis] + body, p + 1) == ChapterAbove(body, p)
    ensures SubchapterAbove([Ellipsis] + body, p + 1) == SubchapterAbove(body, p)
  {
    if p > 0 {
      AboveShift(body, p - 1);
    }
  }

  lemma ToppedIsHeaded(body: seq<Row>, stations: seq<Station>, here: Station)
    requires body != [] && body[0].Chapter? && Headed(body, stations, here) && Increasing(body)
    ensures Headed([Ellipsis] + body, stations, here) && Increasing([Ellipsis] + body)
  {
    var rows := [Ellipsis] + body;
    forall p | 0 <= p < |rows| ensures HeadedAt(rows, p, stations, here) && (p > 0 ==> rows[p] == body[p - 1]) {
      if p > 0 {
        AboveShift(body, p - 1);
        assert HeadedAt(body, p - 1, stations, here);
      }
    }
  }

  lemma BottomedIsHeaded(body: seq<Row>, stations: seq<Station>, here: Station)
    requires Headed(body, stations, here) && Increasing(body)
    ensures Headed(body + [Ellipsis], stations, here) && Increasing(body + [Ellipsis])
  {
    var rows := body + [Ellipsis];
    forall p | 0 <= p < |rows| ensures HeadedAt(rows, p, stations, here) {
      if p < |body| {
        AboveAppend(body, [Ellipsis], p);
        assert HeadedAt(body, p, stations, here);
      }
    }
  }

  lemma FramedIsHeaded(body: seq<Row>, stations: seq<Station>, here: Station, top: bool, bottom: bool)
    requires body != [] && body[0].Chapter? && Headed(body, stations, here) && Increasing(body)
    ensures Headed(Framed(body, top, bottom), stations, here) && Increasing(Framed(body, top, bottom))
  {
    var upper := if top then [Ellipsis] + body else body;
    ToppedIsHeaded(body, stations, here);
    if bottom {
      BottomedIsHeaded(upper, stations, here);
    } else {
      assert upper + [] == upper;
    }
  }

  function Framed(body: seq<Row>, top: bool, bottom: bool): seq<Row> {
    (if top then [Ellipsis] + body else body) + (if bottom then [Ellipsis] else [])
  }

  // ----- The window ---------------------------------------------------------------------------

  datatype Problem = StationOutOfRange | TooFewRows

  /** The promise of the rail: bounded, containing the current station, in order, and truthful about headings. */
  ghost predicate GoodRail(rows: seq<Row>, stations: seq<Station>, current: nat, maxRows: nat)
    requires 1 <= current <= |stations|
  {
    |rows| <= maxRows && Headed(rows, stations, stations[current - 1]) && Increasing(rows) && Marked(rows, current)
  }

  predicate Shows(rows: seq<Row>, i: nat) {
    exists p :: 0 <= p < |rows| && rows[p].Stop? && rows[p].index == i
  }

  /** No station between two shown ones is left out. */
  predicate Consecutive(rows: seq<Row>) {
    forall p, q :: 0 <= p < q < |rows| && rows[p].Stop? && rows[q].Stop? ==>
      NoneMissing(rows, rows[p].index, rows[q].index)
  }

  predicate NoneMissing(rows: seq<Row>, low: nat, high: nat) {
    forall i :: low < i < high ==> Shows(rows, i)
  }

  /** No room is wasted: the rail is full, unless it shows the last station. */
  predicate Filled(rows: seq<Row>, last: nat, maxRows: nat) {
    rows != [] && if rows[|rows| - 1] == Ellipsis then |rows| == maxRows
                  else rows[|rows| - 1].Stop? && rows[|rows| - 1].index == last
  }

  lemma {:induction false} TreeShowsAll(stations: seq<Station>, n: nat, current: nat, i: nat)
    requires 1 <= i <= n <= |stations| && 1 <= current <= |stations|
    ensures Shows(Tree(stations, n, current), i)
  {
    var rows := Tree(stations, n, current);
    if i == n {
      assert rows[|rows| - 1].Stop? && rows[|rows| - 1].index == i;
    } else {
      TreeShowsAll(stations, n - 1, current, i);
      var before := Tree(stations, n - 1, current);
      var p :| 0 <= p < |before| && before[p].Stop? && before[p].index == i;
      assert rows[p] == before[p];
    }
  }

  lemma SliceIsConsecutive(rows: seq<Row>, start: nat, end: nat)
    requires Increasing(rows) && start <= end <= |rows| && Consecutive(rows)
    ensures Consecutive(rows[start..end])
  {
    var out := rows[start..end];
    forall p, q | 0 <= p < q < |out| && out[p].Stop? && out[q].Stop?
      ensures NoneMissing(out, out[p].index, out[q].index)
    {
      assert rows[start + p] == out[p] && rows[start + q] == out[q];
      forall i | out[p].index < i < out[q].index ensures Shows(out, i) {
        ShownBetween(rows, start + p, start + q, i, start, end);
      }
    }
  }

  lemma ShownBetween(rows: seq<Row>, p: nat, q: nat, i: nat, start: nat, end: nat)
    requires Increasing(rows) && Consecutive(rows) && start <= p < q < end <= |rows|
    requires rows[p].Stop? && rows[q].Stop? && rows[p].index < i < rows[q].index
    ensures Shows(rows[start..end], i)
  {
    assert NoneMissing(rows, rows[p].index, rows[q].index) && Shows(rows, i);
    var m :| 0 <= m < |rows| && rows[m].Stop? && rows[m].index == i;
    assert p < m < q;
    assert rows[start..end][m - start] == rows[m];
  }

  predicate NoStops(rows: seq<Row>) {
    forall k :: 0 <= k < |rows| ==> !rows[k].Stop?
  }

  lemma PaddedIsConsecutive(front: seq<Row>, body: seq<Row>, back: seq<Row>)
    requires NoStops(front) && NoStops(back) && Consecutive(body)
    ensures Consecutive(front + body + back)
  {
    var out, n := front + body + back, |front|;
    forall p, q | 0 <= p < q < |out| && out[p].Stop? && out[q].Stop?
      ensures NoneMissing(out, out[p].index, out[q].index)
    {
      assert n <= p < q < n + |body| && out[p] == body[p - n] && out[q] == body[q - n];
      assert NoneMissing(body, body[p - n].index, body[q - n].index);
      forall i | out[p].index < i < out[q].index ensures Shows(out, i) {
        assert Shows(body, i);
        var m :| 0 <= m < |body| && body[m].Stop? && body[m].index == i;
        assert out[n + m] == body[m];
      }
    }
  }

  lemma WindowIsConsecutive(rows: seq<Row>, headings: seq<Row>, start: nat, end: nat, top: bool, bottom: bool)
    requires Increasing(rows) && start <= end <= |rows| && NoStops(headings) && Consecutive(rows)
    ensures Consecutive(Framed(headings + rows[start..end], top, bottom))
  {
    var front := (if top then [Ellipsis] else []) + headings;
    var back := if bottom then [Ellipsis] else [];
    SliceIsConsecutive(rows, start, end);
    PaddedIsConsecutive(front, rows[start..end], back);
    assert Framed(headings + rows[start..end], top, bottom) == front + rows[start..end] + back;
  }

  method BuildTree(stations: seq<Station>, current: nat) returns (rows: seq<Row>)
    requires 1 <= current <= |stations|
    ensures rows == Tree(stations, |stations|, current)
  {
    var here := stations[current - 1];
    var previousChapter: Option<string>, previousSubchapter := None, "";
    rows := [];
    for i := 0 to |stations|
      invariant rows == Tree(stations, i, current)
      invariant previousChapter == if i == 0 then None else Some(stations[i - 1].chapter)
      invariant i > 0 ==> previousSubchapter == SubchapterOf(stations, i - 1)
    {
      var s := stations[i];
      ghost var before := rows;
      if previousChapter != Some(s.chapter) {
        rows := rows + [Chapter(s.chapter, s.chapter == here.chapter)];
        previousChapter, previousSubchapter := Some(s.chapter), "";
      }
      if s.subchapter != "" && s.subchapter != previousSubchapter {
        rows := rows + [Subchapter(s.subchapter, s.chapter == here.chapter && s.subchapter == here.subchapter)];
        previousSubchapter := s.subchapter;
      }
      assert rows == before + HeadingsFor(stations, i, here);
      rows := rows + [Stop(i + 1, s.item, i + 1 == current)];
    }
  }

  /** The row of the current station, and its nearest headings. */
  method FindContext(rows: seq<Row>, current: nat)
    returns (currentRow: nat, chapterRow: nat, subchapterRow: Option<nat>)
    requires Marked(rows, current) && rows[0].Chapter?
    ensures currentRow < |rows| && rows[currentRow].Stop? && rows[currentRow].current
    ensures chapterRow < currentRow && rows[chapterRow].Chapter?
    ensures forall r :: chapterRow < r <= currentRow ==> !rows[r].Chapter?
    ensures subchapterRow.Some? ==>
              chapterRow < subchapterRow.value < currentRow && rows[subchapterRow.value].Subchapter?
    ensures forall r :: (if subchapterRow.Some? then subchapterRow.value else chapterRow) < r <= currentRow ==>
              rows[r].Stop? || rows[r] == Ellipsis
  {
    currentRow := 0;
    ghost var marked :| 0 <= marked < |rows| && rows[marked].Stop? && rows[marked].index == current;
    while !(rows[currentRow].Stop? && rows[currentRow].current)
      invariant currentRow <= marked
      decreases |rows| - currentRow
    {
      currentRow := currentRow + 1;
    }
    chapterRow, subchapterRow := currentRow, None;
    while !rows[chapterRow].Chapter?
      invariant chapterRow <= currentRow
      invariant forall r :: chapterRow < r <= currentRow ==> !rows[r].Chapter?
      invariant subchapterRow.Some? ==>
                  chapterRow < subchapterRow.value < currentRow && rows[subchapterRow.value].Subchapter?
      invariant forall r :: (if subchapterRow.Some? then subchapterRow.value else chapterRow) < r <= currentRow ==>
                  rows[r].Stop? || rows[r] == Ellipsis
      decreases chapterRow
    {
      if subchapterRow.None? && rows[chapterRow].Subchapter? {
        subchapterRow := Some(chapterRow);
      }
      chapterRow := chapterRow - 1;
    }
  }

  /** The rows the window shows: the governing headings, then a run of consecutive rows. */
  function Picks(prefix: seq<nat>, start: nat, end: nat): seq<nat>
    requires start <= end
  {
    prefix + seq(end - start, k requires 0 <= k < end - start => start + k)
  }

  /** Headings that govern the current row, given in order, followed by a run that begins behind the
      last of them with nothing but stations in between. */
  ghost predicate Governs(rows: seq<Row>, prefix: seq<nat>, start: nat)
    requires start < |rows|
  {
    && |prefix| <= 2 && (forall k :: 0 <= k < |prefix| ==> prefix[k] < start)
    && (|prefix| == 2 ==> prefix[0] < prefix[1] && rows[prefix[1]].Subchapter?
                          && forall r :: prefix[0] < r < prefix[1] ==> !rows[r].Chapter?)
    && rows[if prefix == [] then start else prefix[0]].Chapter?
    && (prefix != [] ==> forall r :: prefix[|prefix| - 1] < r < start ==>
          !rows[r].Chapter? && (rows[r].Subchapter? ==> rows[start].Subchapter?))
  }

  lemma PickAt(prefix: seq<nat>, start: nat, end: nat, k: nat)
    requires start <= end && k < |prefix| + (end - start)
    ensures Picks(prefix, start, end)[k] == if k < |prefix| then prefix[k] else start + (k - |prefix|)
  {
  }

  lemma WindowIsFaithful(rows: seq<Row>, prefix: seq<nat>, start: nat, end: nat)
    requires start < end <= |rows| && Governs(rows, prefix, start)
    ensures Faithful(rows, Picks(prefix, start, end))
  {
    var picks := Picks(prefix, start, end);
    forall k | 0 <= k < |picks|
      ensures picks[k] == if k < |prefix| then prefix[k] else start + (k - |prefix|)
    {
      PickAt(prefix, start, end, k);
    }
  }

  lemma WindowRows(rows: seq<Row>, prefix: seq<nat>, start: nat, end: nat)
    requires start < end <= |rows| && forall k :: 0 <= k < |prefix| ==> prefix[k] < |rows|
    ensures forall k :: 0 <= k < |Picks(prefix, start, end)| ==> Picks(prefix, start, end)[k] < |rows|
    ensures Pick(rows, Picks(prefix, start, end)) == Pick(rows, prefix) + rows[start..end]
  {
    var picks := Picks(prefix, start, end);
    forall k | 0 <= k < |picks|
      ensures picks[k] == if k < |prefix| then prefix[k] else start + (k - |prefix|)
    {
      PickAt(prefix, start, end, k);
    }
  }

  /** The window around the current row, as a selection of rows. */
  lemma WindowIsGood(rows: seq<Row>, prefix: seq<nat>, start: nat, end: nat, currentRow: nat, stations: seq<Station>,
                     current: nat, top: bool, bottom: bool)
    requires 1 <= current <= |stations| && Headed(rows, stations, stations[current - 1])
    requires Increasing(rows) && start <= currentRow < end <= |rows|
    requires rows[currentRow].Stop? && rows[currentRow].index == current
    requires forall p :: 0 <= p < |rows| && rows[p].Stop? ==> (rows[p].current <==> rows[p].index == current)
    requires forall k :: 0 <= k < |prefix| ==> prefix[k] < |rows|
    requires Faithful(rows, Picks(prefix, start, end))
             && Pick(rows, Picks(prefix, start, end)) == Pick(rows, prefix) + rows[start..end]
    ensures var out := Framed(Pick(rows, prefix) + rows[start..end], top, bottom);
            Headed(out, stations, stations[current - 1]) && Increasing(out) && Marked(out, current)
  {
    var picks := Picks(prefix, start, end);
    var body := Pick(rows, picks);
    PickIsHeaded(rows, picks, stations, stations[current - 1]);
    FramedIsHeaded(body, stations, stations[current - 1], top, bottom);
    var out := Framed(body, top, bottom);
    var at := |prefix| + (currentRow - start);
    assert picks[at] == currentRow && body[at] == rows[currentRow];
    assert out[if top then at + 1 else at] == rows[currentRow];
    var shift := if top then 1 else 0;
    forall p | 0 <= p < |out| && out[p].Stop? ensures out[p].current <==> out[p].index == current {
      assert out[p] == body[p - shift] == rows[picks[p - shift]];
    }
  }

  method StationTreeRows(stations: seq<Station>, current: int, maxRows: int) returns (r: Result<seq<Row>, Problem>)
    ensures r.Err? <==> !(1 <= current <= |stations|) || maxRows < 5
    ensures r.Err? ==> r.error == if 1 <= current <= |stations| then TooFewRows else StationOutOfRange
    ensures r.Ok? ==> GoodRail(r.value, stations, current, maxRows)
    ensures r.Ok? && |Tree(stations, |stations|, current)| <= maxRows ==> r.value == Tree(stations, |stations|, current)
    ensures r.Ok? ==> Filled(r.value, |stations|, maxRows) && Consecutive(r.value)
  {
    if current < 1 || current > |stations| {
      return Err(StationOutOfRange);
    }
    if maxRows < 5 {
      return Err(TooFewRows);
    }
    var rows := BuildTree(stations, current);
    TreeIsHeaded(stations, |stations|, current);
    TreeIsConsecutive(stations, current);
    if |rows| <= maxRows {
      return Ok(rows);
    }
    var window := ShowWindow(rows, stations, current, maxRows);
    return Ok(window);
  }

  lemma TreeIsConsecutive(stations: seq<Station>, current: nat)
    requires 1 <= current <= |stations|
    ensures Consecutive(Tree(stations, |stations|, current))
  {
    var rows := Tree(stations, |stations|, current);
    TreeIsHeaded(stations, |stations|, current);
    forall i | 1 <= i <= |stations| ensures Shows(rows, i) {
      TreeShowsAll(stations, |stations|, current, i);
    }
    assert forall p :: 0 <= p < |rows| && rows[p].Stop? ==> rows[p].index <= |stations|;
  }

  /** The part of a tree that is shown when it does not fit. */
  method ShowWindow(rows: seq<Row>, stations: seq<Station>, current: nat, maxRows: nat) returns (out: seq<Row>)
    requires 5 <= maxRows < |rows| && 1 <= current <= |stations|
    requires GoodTree(rows, stations, |stations|, current)
    requires Consecutive(rows)
    ensures GoodRail(out, stations, current, maxRows) && Filled(out, |stations|, maxRows) && Consecutive(out)
  {
    var currentRow, chapterRow, subchapterRow := FindContext(rows, current);
    var contextStart := if subchapterRow.Some? then subchapterRow.value else chapterRow;
    var hasTop := contextStart > 0;
    var available := maxRows - (if hasTop then 1 else 0) - 1;
    var prefix, start, end := ChooseWindow(rows, currentRow, chapterRow, contextStart, available);
    var hasBottom := end - 1 < |rows| - 1;
    WindowIsFaithful(rows, prefix, start, end);
    WindowRows(rows, prefix, start, end);
    WindowIsGood(rows, prefix, start, end, currentRow, stations, current, hasTop, hasBottom);
    WindowIsConsecutive(rows, Pick(rows, prefix), start, end, hasTop, hasBottom);
    out := Framed(Pick(rows, prefix) + rows[start..end], hasTop, hasBottom);
    WindowIsFilled(rows, Pick(rows, prefix), start, end, hasTop, |stations|, maxRows);
  }

  lemma WindowIsFilled(rows: seq<Row>, headings: seq<Row>, start: nat, end: nat, top: bool, last: nat, maxRows: nat)
    requires start < end <= |rows| && rows[|rows| - 1].Stop? && rows[|rows| - 1].index == last
    requires |headings| + (end - start) == maxRows - (if top then 1 else 0) - 1 || end == |rows|
    ensures Filled(Framed(headings + rows[start..end], top, end < |rows|), last, maxRows)
  {
  }

  /** A run of this many rows that has half of them before the current one, or begins at the first possible row
      if that is nearer. */
  predicate Halfway(first: nat, start: nat, currentRow: nat, room: int) {
    if currentRow - first <= room / 2 then start == first else currentRow - start == room / 2
  }

  /** The headings to keep, and the run of rows to show behind them. */
  method ChooseWindow(rows: seq<Row>, currentRow: nat, chapterRow: nat, contextStart: nat, available: nat)
    returns (prefix: seq<nat>, start: nat, end: nat)
    requires available >= 3 && chapterRow <= contextStart < currentRow < |rows| && rows[chapterRow].Chapter?
    requires forall r :: chapterRow < r <= currentRow ==> !rows[r].Chapter?
    requires contextStart > chapterRow ==> rows[contextStart].Subchapter?
    requires forall r :: contextStart < r <= currentRow ==> !rows[r].Subchapter?
    ensures start <= currentRow < end <= |rows| && Governs(rows, prefix, start)
    ensures |prefix| + (end - start) == available || (end == |rows| && |prefix| + (end - start) <= available)
    ensures forall k :: 0 <= k < |prefix| ==> prefix[k] < |rows| && !rows[prefix[k]].Stop?
    ensures var context := if contextStart == chapterRow then [] else [chapterRow];
            if currentRow < contextStart + available - |context| then prefix == context && start == contextStart
            else prefix == context + [contextStart]
                 && Halfway(contextStart + 1, start, currentRow, available - |prefix|)
  {
    var contextPrefix := if contextStart == chapterRow then [] else [chapterRow];
    prefix, start := contextPrefix, contextStart;
    end := Least(contextStart + available - |contextPrefix|, |rows|);
    if currentRow >= end {
      // The current station is too far from its headings: keep them, and a run around the station.
      prefix := contextPrefix + [contextStart];
      var capacity := Greatest(1, available - |prefix|);
      start := Greatest(contextStart + 1, currentRow - capacity / 2);
      end := Least(start + capacity, |rows|);
    }
  }

  function Least(a: int, b: int): int { if a < b then a else b }

  function Greatest(a: int, b: int): int { if a > b then a else b }
}
