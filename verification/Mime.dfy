/** Splitting multipart mail (ARCHIVE/aven-mail/src/rfc822.js) and the printed form
    of section 5.1.1 of RFC 2046 that it undoes.  Header parsing is abstracted to a
    function from header text to the boundary of a multipart content type. */
module Mime {
  import opened Common

  const CRLF := "\r\n"

  /** `needle` occurs in `s` at position `i`. */
  predicate At(s: string, needle: string, i: nat) {
    i + |needle| <= |s| && s[i..i + |needle|] == needle
  }

  predicate FirstAt(s: string, needle: string, i: nat, k: nat) {
    i <= k <= |s| && At(s, needle, k) && forall j :: i <= j < k ==> !At(s, needle, j)
  }

  /** indexOf: the least position from `i` on at which the needle occurs. */
  function IndexOf(s: string, needle: string, i: nat): (r: Option<nat>)
    ensures r.Some? ==> i <= r.value && r.value + |needle| <= |s|
  {
    if exists k: nat :: k <= |s| && FirstAt(s, needle, i, k) then
      var k: nat :| k <= |s| && FirstAt(s, needle, i, k);
      Some(k)
    else None
  }

  lemma {:induction false} FirstExists(s: string, needle: string, i: nat, k: nat) returns (first: nat)
    requires i <= k && At(s, needle, k)
    ensures FirstAt(s, needle, i, first)
    decreases |s| - i
  {
    if At(s, needle, i) {
      first := i;
    } else {
      first := FirstExists(s, needle, i + 1, k);
    }
  }

  /** The least position from `i` on at which the needle occurs. */
  lemma IndexOfIsFirst(s: string, needle: string, i: nat)
    ensures var r := IndexOf(s, needle, i);
            if r.Some? then At(s, needle, r.value) && forall k :: i <= k < r.value ==> !At(s, needle, k)
            else forall k :: i <= k ==> !At(s, needle, k)
  {
    if k: nat :| i <= k && At(s, needle, k) {
      var first := FirstExists(s, needle, i, k);
    }
  }

  /** The next delimiter line: at `pos` itself, or after a line break from there on. */
  function MarkerAt(body: string, marker: string, pos: nat): (r: Option<nat>)
    ensures r.Some? ==> pos <= r.value && r.value + |marker| <= |body|
  {
    if At(body, marker, pos) then Some(pos)
    else
      var n := IndexOf(body, "\n" + marker, pos);
      if n.Some? then Some(n.value + 1) else None
  }

  /** The CRLF search of the source can only find what the LF search has already found. */
  lemma CrlfMarkerIsLfMarker(body: string, marker: string, pos: nat)
    ensures IndexOf(body, "\n" + marker, pos).None? ==> IndexOf(body, "\r\n" + marker, pos).None?
  {
    IndexOfIsFirst(body, "\n" + marker, pos);
    IndexOfIsFirst(body, "\r\n" + marker, pos);
    var rn := IndexOf(body, "\r\n" + marker, pos);
    if rn.Some? {
      var at := rn.value;
      assert body[at + 1..at + 2 + |marker|] == body[at..at + 2 + |marker|][1..];
      assert At(body, "\n" + marker, at + 1);
    }
  }

  function SkipLineBreak(body: string, i: nat): (j: nat)
    ensures i <= j <= i + 2 && (i <= |body| ==> j <= |body|)
  {
    var k := if i < |body| && body[i] == '\r' then i + 1 else i;
    if k < |body| && body[k] == '\n' then k + 1 else k
  }

  function TrimLineBreak(s: string): (r: string)
    ensures |r| <= |s|
  {
    if |s| >= 2 && s[|s| - 2..] == "\r\n" then s[..|s| - 2]
    else if |s| >= 1 && s[|s| - 1] == '\n' then s[..|s| - 1]
    else s
  }

  predicate Closes(body: string, i: nat) {
    i + 1 < |body| && body[i] == '-' && body[i + 1] == '-'
  }

  /** One turn of the loop: the trimmed text up to the next delimiter, and where that is. */
  datatype Turn = Stop | Slice(text: string, next: Option<nat>)

  function TurnAt(body: string, marker: string, i: nat): (t: Turn)
    ensures t.Slice? ==> |t.text| + |marker| <= |body| && (t.next.Some? ==> i + |marker| <= t.next.value <= |body|)
  {
    var ms := MarkerAt(body, marker, i);
    if ms.None? || Closes(body, ms.value + |marker|) then Stop
    else SliceFrom(body, marker, SkipLineBreak(body, ms.value + |marker|))
  }

  /** The text from `start` on. */
  function SliceFrom(body: string, marker: string, start: nat): (t: Turn)
    requires start <= |body|
    ensures t.Slice? && |t.text| <= |body| - start && (t.next.Some? ==> start <= t.next.value <= |body|)
  {
    var next := MarkerAt(body, marker, start);
    Slice(TrimLineBreak(Between(body, start, next)), next)
  }

  function Between(body: string, start: nat, next: Option<nat>): string
    requires start <= |body| && (next.Some? ==> start <= next.value <= |body|)
  {
    body[start..if next.Some? then next.value else |body|]
  }

  /** The parts found from position `i` on. */
  function SplitFrom(body: string, marker: string, i: nat): seq<string>
    requires |marker| > 0
    decreases |body| - i
  {
    if i >= |body| then []
    else
      match TurnAt(body, marker, i)
      case Stop => []
      case Slice(text, None) => NonEmpty(text)
      case Slice(text, Some(next)) => NonEmpty(text) + SplitFrom(body, marker, next)
  }

  function NonEmpty(text: string): seq<string> {
    if text == "" then [] else [text]
  }

  lemma {:induction false} PartsAreShorter(body: string, marker: string, i: nat)
    requires |marker| > 0
    ensures forall k :: 0 <= k < |SplitFrom(body, marker, i)| ==> 0 < |SplitFrom(body, marker, i)[k]| < |body|
    decreases |body| - i
  {
    if i < |body| {
      var t := TurnAt(body, marker, i);
      if t.Slice? && t.next.Some? {
        PartsAreShorter(body, marker, t.next.value);
      }
    }
  }

  lemma HeadAndTail<T>(s: seq<T>)
    requires s != []
    ensures s == [s[0]] + s[1..]
  {
  }

  lemma Associative<T>(a: seq<T>, b: seq<T>, c: seq<T>)
    ensures (a + b) + c == a + (b + c)
  {
  }

  method TakePart(body: string, marker: string, from: nat) returns (t: Turn)
    ensures t == TurnAt(body, marker, from)
  {
    var ms := FindMarker(body, marker, from);
    if ms.None? {
      return Stop;
    }
    if Closes(body, ms.value + |marker|) {
      return Stop;
    }
    var i := PassLineBreak(body, ms.value + |marker|);
    var next := FindMarker(body, marker, i);
    return Slice(TrimLineBreak(Between(body, i, next)), next);
  }

  method PassLineBreak(body: string, from: nat) returns (i: nat)
    ensures i == SkipLineBreak(body, from)
  {
    i := from;
    if i < |body| && body[i] == '\r' { i := i + 1; }
    if i < |body| && body[i] == '\n' { i := i + 1; }
  }

  /** The parts found before position i are the first of all. */
  predicate Collected(body: string, marker: string, parts: seq<string>, i: nat)
    requires |marker| > 0
  {
    SplitFrom(body, marker, 0) == parts + SplitFrom(body, marker, i)
  }

  lemma CollectOne(body: string, marker: string, parts: seq<string>, i: nat, t: Turn)
    requires |marker| > 0 && i < |body| && Collected(body, marker, parts, i) && t == TurnAt(body, marker, i)
    ensures if t.Stop? then SplitFrom(body, marker, 0) == parts
            else
              var more := if |t.text| > 0 then parts + [t.text] else parts;
              if t.next.None? then SplitFrom(body, marker, 0) == more else Collected(body, marker, more, t.next.value)
  {
    SplitOnce(body, marker, i, t);
    if t.Stop? {
      assert parts + [] == parts;
    } else if |t.text| > 0 && t.next.Some? {
      Associative(parts, [t.text], SplitFrom(body, marker, t.next.value));
    }
  }

  lemma SplitOnce(body: string, marker: string, i: nat, t: Turn)
    requires |marker| > 0 && i < |body| && t == TurnAt(body, marker, i)
    ensures SplitFrom(body, marker, i) ==
            if t.Stop? then []
            else if t.next.None? then (if |t.text| > 0 then [t.text] else [])
            else if |t.text| > 0 then [t.text] + SplitFrom(body, marker, t.next.value)
            else SplitFrom(body, marker, t.next.value)
  {
    if t.Slice? && t.next.Some? && |t.text| == 0 {
      assert NonEmpty(t.text) + SplitFrom(body, marker, t.next.value) == SplitFrom(body, marker, t.next.value);
    }
  }

  method SplitMultipartParts(body: string, boundary: string) returns (parts: seq<string>)
    ensures parts == SplitFrom(body, "--" + boundary, 0)
  {
    var marker := "--" + boundary;
    parts := [];
    var i := 0;
    while i < |body|
      invariant Collected(body, marker, parts, i)
      decreases |body| - i
    {
      var t := TakePart(body, marker, i);
      CollectOne(body, marker, parts, i, t);
      if t.Stop? {
        return;
      }
      if |t.text| > 0 {
        parts := parts + [t.text];
      }
      if t.next.None? {
        return;
      }
      i := t.next.value;
    }
    assert parts + [] == parts;
  }

  method FindMarker(body: string, marker: string, pos: nat) returns (at: Option<nat>)
    ensures at == MarkerAt(body, marker, pos)
  {
    if At(body, marker, pos) {
      return Some(pos);
    }
    var n := IndexOf(body, "\n" + marker, pos);
    if n.Some? {
      return Some(n.value + 1);
    }
    var rn := IndexOf(body, "\r\n" + marker, pos);
    if rn.Some? {
      CrlfMarkerIsLfMarker(body, marker, pos);
      assert false;
    }
    return None;
  }

  datatype Entity = Entity(headers: string, body: string)

  function SplitHeaders(part: string): (e: Entity)
    ensures |e.body| <= |part|
  {
    var crlf := IndexOf(part, "\r\n\r\n", 0);
    var lf := IndexOf(part, "\n\n", 0);
    if crlf.Some? then Entity(part[..crlf.value], part[crlf.value + 4..])
    else if lf.Some? then Entity(part[..lf.value], part[lf.value + 2..])
    else Entity(part, "")
  }

  /** The boundary of a header text, when it announces a multipart body with one. */
  type Boundaries = string -> Option<string>

  predicate IsMultipart(headers: string, boundaryOf: Boundaries) {
    boundaryOf(headers).Some? && boundaryOf(headers).value != ""
  }

  /** Terminates on every input: a part is shorter than the body it was found in. */
  function Flatten(e: Entity, boundaryOf: Boundaries): seq<Entity>
    decreases |e.body|, 1, 0
  {
    if IsMultipart(e.headers, boundaryOf) then
      PartsAreShorter(e.body, "--" + boundaryOf(e.headers).value, 0);
      FlattenAll(SplitFrom(e.body, "--" + boundaryOf(e.headers).value, 0), boundaryOf, |e.body|)
    else [e]
  }

  function FlattenAll(chunks: seq<string>, boundaryOf: Boundaries, bound: nat): seq<Entity>
    requires forall k :: 0 <= k < |chunks| ==> |chunks[k]| < bound
    decreases bound, 0, |chunks|
  {
    if chunks == [] then []
    else Flatten(SplitHeaders(chunks[0]), boundaryOf) + FlattenAll(chunks[1..], boundaryOf, bound)
  }

  lemma {:induction false} FlattenAllAppend(chunks: seq<string>, chunk: string, boundaryOf: Boundaries, bound: nat)
    requires |chunk| < bound && forall k :: 0 <= k < |chunks| ==> |chunks[k]| < bound
    ensures FlattenAll(chunks + [chunk], boundaryOf, bound) ==
            FlattenAll(chunks, boundaryOf, bound) + Flatten(SplitHeaders(chunk), boundaryOf)
    decreases |chunks|
  {
    if chunks == [] {
      assert [] + [chunk] == [chunk];
      assert FlattenAll([chunk][1..], boundaryOf, bound) == [];
    } else {
      assert (chunks + [chunk])[1..] == chunks[1..] + [chunk];
      FlattenAllAppend(chunks[1..], chunk, boundaryOf, bound);
    }
  }

  lemma FlattenOneMore(chunks: seq<string>, k: nat, boundaryOf: Boundaries, bound: nat)
    requires k < |chunks| && forall i :: 0 <= i < |chunks| ==> |chunks[i]| < bound
    ensures FlattenAll(chunks[..k + 1], boundaryOf, bound) ==
            FlattenAll(chunks[..k], boundaryOf, bound) + Flatten(SplitHeaders(chunks[k]), boundaryOf)
  {
    assert chunks[..k + 1] == chunks[..k] + [chunks[k]];
    FlattenAllAppend(chunks[..k], chunks[k], boundaryOf, bound);
  }

  method FlattenMimeParts(headerBlock: string, body: string, boundaryOf: Boundaries) returns (out: seq<Entity>)
    ensures out == Flatten(Entity(headerBlock, body), boundaryOf)
    decreases |body|
  {
    if !IsMultipart(headerBlock, boundaryOf) {
      return [Entity(headerBlock, body)];
    }
    out := [];
    var chunks := SplitMultipartParts(body, boundaryOf(headerBlock).value);
    PartsAreShorter(body, "--" + boundaryOf(headerBlock).value, 0);
    for k := 0 to |chunks|
      invariant out == FlattenAll(chunks[..k], boundaryOf, |body|)
    {
      var e := SplitHeaders(chunks[k]);
      var inner := FlattenMimeParts(e.headers, e.body, boundaryOf);
      FlattenOneMore(chunks, k, boundaryOf, |body|);
      out := out + inner;
    }
    assert chunks[..|chunks|] == chunks;
  }

  // ----- The printed form -----------------------------------------------------------

  datatype Mime =
    | Single(headers: string, body: string)
    | Multipart(headers: string, boundary: string, preamble: Option<string>, parts: seq<Mime>, epilogue: string)

  /** Mail whose lines end in CRLF, or all in LF. */
  predicate LineEnd(eol: string) {
    eol == CRLF || eol == "\n"
  }

  /** Every header field ends in a line break of its own and one more separates the body, so a part without
      header fields begins with that separator. */
  function Print(m: Mime, eol: string): string
    decreases m, 1
  {
    (if m.headers == "" then eol else m.headers + eol + eol) + PrintBody(m, eol)
  }

  function PrintBody(m: Mime, eol: string): string
    decreases m, 0
  {
    match m
    case Single(_, body) => body
    case Multipart(_, boundary, preamble, parts, epilogue) =>
      (if preamble.Some? then preamble.value + eol else "") +
      Delimited("--" + boundary, seq(|parts|, k requires 0 <= k < |parts| => Print(parts[k], eol)),
                "--" + epilogue, eol)
  }

  /** Each text on lines of its own after a delimiter line, then the last delimiter and its ending: the two
      dashes of a closing one and the epilogue, or a text that breaks off. */
  function Delimited(marker: string, texts: seq<string>, ending: string, eol: string): string {
    if texts == [] then marker + ending
    else marker + eol + texts[0] + eol + Delimited(marker, texts[1..], ending, eol)
  }

  /** No line of the text begins with the delimiter. */
  predicate NoMarker(text: string, marker: string) {
    !At(text, marker, 0) && IndexOf(text, "\n" + marker, 0).None?
  }

  predicate OneLine(s: string) {
    '\r' !in s && '\n' !in s
  }

  /** The blank line after the headers is the first one. */
  predicate HeadersEnd(headers: string, eol: string) {
    IndexOf(headers, eol + eol, 0).None? && !(|headers| >= |eol| && headers[|headers| - |eol|..] == eol)
  }

  /** A line break behind this text is not confused with one of its own characters. */
  predicate Breakable(text: string, eol: string) {
    eol == CRLF || '\r' !in text
  }

  /** What section 5.1.1 asks of a composer: an enclosing delimiter begins no line of a part.  A multipart
      entity has a header field that says so. */
  predicate WellFormed(m: Mime, boundaryOf: Boundaries, eol: string) {
    match m
    case Single(headers, _) => !IsMultipart(headers, boundaryOf)
    case Multipart(headers, boundary, preamble, parts, _) =>
      && headers != "" && boundaryOf(headers) == Some(boundary) && boundary != "" && OneLine(boundary)
      && (preamble.Some? ==> NoMarker(preamble.value, "--" + boundary))
      && forall k :: 0 <= k < |parts| ==>
           && HeadersEnd(parts[k].headers, eol) && NoMarker(Print(parts[k], eol), "--" + boundary)
           && Breakable(Print(parts[k], eol), eol) && WellFormed(parts[k], boundaryOf, eol)
  }

  function Leaves(m: Mime): seq<Entity> {
    match m
    case Single(headers, body) => [Entity(headers, body)]
    case Multipart(_, _, _, parts, _) => LeavesAll(parts)
  }

  function LeavesAll(parts: seq<Mime>): seq<Entity> {
    if parts == [] then [] else Leaves(parts[0]) + LeavesAll(parts[1..])
  }

  /** Every part inside a multipart entity, at any depth, has a header field. */
  predicate Headed(m: Mime) {
    match m
    case Single(_, _) => true
    case Multipart(_, _, _, parts, _) => AllHeaded(parts)
  }

  predicate AllHeaded(parts: seq<Mime>) {
    forall k :: 0 <= k < |parts| ==> parts[k].headers != "" && Headed(parts[k])
  }

  // ----- Splitting undoes printing ------------------------------------------------------

  lemma AtChars(s: string, needle: string, i: nat)
    ensures At(s, needle, i) ==> forall k :: 0 <= k < |needle| ==> s[i + k] == needle[k]
  {
    if At(s, needle, i) {
      forall k | 0 <= k < |needle| ensures s[i + k] == needle[k] {
        assert s[i..i + |needle|][k] == s[i + k];
      }
    }
  }

  lemma CharAt(s: string, needle: string, i: nat, p: nat)
    requires p < |needle|
    ensures At(s, needle, i) ==> s[i + p] == needle[p]
  {
    AtChars(s, needle, i);
  }

  lemma SliceOfSlice(s: string, a: nat, b: nat, c: nat, d: nat)
    requires a <= b <= |s| && c <= d <= b - a
    ensures s[a..b][c..d] == s[a + c..a + d]
  {
    forall k | 0 <= k < d - c ensures s[a..b][c..d][k] == s[a + c..a + d][k] {
    }
  }

  lemma AtInPart(s: string, part: string, needle: string, start: nat, o: nat)
    requires start + |part| <= |s| && s[start..start + |part|] == part && o + |needle| <= |part|
    ensures At(part, needle, o) <==> At(s, needle, start + o)
  {
    SliceOfSlice(s, start, start + |part|, o, o + |needle|);
  }

  lemma MarkerChars(marker: string, k: nat)
    requires OneLine(marker) && k <= |marker|
    ensures ("\n" + marker)[k] != '\r' && (k > 0 ==> ("\n" + marker)[k] != '\n')
    ensures k < |marker| ==> marker[k] != '\r' && marker[k] != '\n'
  {
    if k > 0 { assert marker[k - 1] in marker; }
    if k < |marker| { assert marker[k] in marker; }
  }

  /** A delimiter line cannot begin inside a text that has none and reach over its end. */
  lemma NoMarkerBefore(body: string, marker: string, start: nat, text: string, k: nat)
    requires OneLine(marker) && NoMarker(text, marker) && start <= k <= start + |text|
    requires start + |text| < |body| && body[start..start + |text|] == text
    requires body[start + |text|] == '\r' || (body[start + |text|] == '\n' && k < start + |text|)
    ensures !At(body, "\n" + marker, k)
  {
    IndexOfIsFirst(text, "\n" + marker, 0);
    var line, end := "\n" + marker, start + |text|;
    AtChars(body, line, k);
    if k + |line| <= end {
      AtInPart(body, text, line, start, k - start);
    } else {
      MarkerChars(marker, end - k);
    }
  }

  lemma FirstOccurrence(s: string, needle: string, i: nat, at: nat)
    requires i <= at && At(s, needle, at) && forall k :: i <= k < at ==> !At(s, needle, k)
    ensures IndexOf(s, needle, i) == Some(at)
  {
    IndexOfIsFirst(s, needle, i);
  }

  /** After a text without delimiter lines, the next delimiter is the one behind its line break. */
  lemma NextMarker(body: string, marker: string, start: nat, text: string, eol: string, next: nat)
    requires LineEnd(eol) && OneLine(marker) && |marker| > 0 && NoMarker(text, marker) && start + |text| <= |body|
    requires body[start..start + |text|] == text && At(body, eol, start + |text|)
             && At(body, marker, next) && next == start + |text| + |eol|
    ensures MarkerAt(body, marker, start) == Some(next)
  {
    var line, end := "\n" + marker, start + |text|;
    var at := end + |eol| - 1;
    BreakChars(body, eol, end);
    assert body[at..at + |line|] == [body[at]] + body[at + 1..at + 1 + |marker|];
    NotAtStart(body, marker, start, text);
    forall k | start <= k < at ensures !At(body, line, k) {
      NoMarkerBefore(body, marker, start, text, k);
    }
    FirstOccurrence(body, line, start, at);
  }

  lemma BreakChars(body: string, eol: string, end: nat)
    requires LineEnd(eol) && At(body, eol, end)
    ensures end + |eol| <= |body| && body[end + |eol| - 1] == '\n' && (eol == CRLF ==> body[end] == '\r')
  {
    AtChars(body, eol, end);
    assert eol[|eol| - 1] == '\n' && body[end + (|eol| - 1)] == eol[|eol| - 1];
    assert body[end + 0] == eol[0];
  }

  lemma NotAtStart(body: string, marker: string, start: nat, text: string)
    requires OneLine(marker) && |marker| > 0 && NoMarker(text, marker) && start + |text| < |body|
    requires body[start..start + |text|] == text && (body[start + |text|] == '\r' || body[start + |text|] == '\n')
    ensures !At(body, marker, start)
  {
    var end := start + |text|;
    AtChars(body, marker, start);
    if start + |marker| <= end {
      AtInPart(body, text, marker, start, 0);
    } else {
      MarkerChars(marker, end - start);
    }
  }

  lemma SuffixAt(body: string, i: nat, left: string, right: string)
    requires i <= |body| && body[i..] == left + right
    ensures i + |left| <= |body| && At(body, left, i) && body[i + |left|..] == right
  {
    assert body[i..i + |left|] == body[i..][..|left|];
    assert body[i + |left|..] == body[i..][|left|..];
  }

  lemma DelimitedBegins(marker: string, texts: seq<string>, ending: string, eol: string)
    ensures At(Delimited(marker, texts, ending, eol), marker, 0)
  {
    if texts != [] {
      assert Delimited(marker, texts, ending, eol) ==
             marker + (eol + texts[0] + eol + Delimited(marker, texts[1..], ending, eol));
    }
  }

  /** Where the pieces of one delimited text lie. */
  lemma Layout(body: string, marker: string, i: nat, text: string, rest: string, eol: string)
    requires i <= |body| && body[i..] == marker + eol + text + eol + rest && At(rest, marker, 0)
    ensures var j := i + |marker|; var end := j + |eol| + |text|;
            && end + |eol| <= |body| && At(body, marker, i) && At(body, eol, j) && body[j + |eol|..end] == text
            && At(body, eol, end) && body[end + |eol|..] == rest && At(body, marker, end + |eol|)
  {
    var j, n := i + |marker|, |eol|;
    var end := j + n + |text|;
    assert body[i..] == marker + (eol + (text + (eol + rest)));
    SuffixAt(body, i, marker, eol + (text + (eol + rest)));
    SuffixAt(body, j, eol, text + (eol + rest));
    SuffixAt(body, j + n, text, eol + rest);
    SuffixAt(body, end, eol, rest);
    assert body[end + n..end + n + |rest|] == body[end + n..];
    AtInPart(body, rest, marker, end + n, 0);
  }

  lemma LayoutAt(body: string, marker: string, i: nat, text: string, rest: string, start: nat, next: nat, eol: string)
    requires i <= |body| && body[i..] == marker + eol + text + eol + rest && At(rest, marker, 0)
    requires start == i + |marker| + |eol| && next == start + |text| + |eol|
    ensures next <= |body| && At(body, marker, i) && At(body, eol, i + |marker|) && body[start..start + |text|] == text
    ensures At(body, eol, start + |text|) && body[next..] == rest && At(body, marker, next)
  {
    Layout(body, marker, i, text, rest, eol);
  }

  /** What a turn does at a delimiter on a line of its own. */
  lemma TurnAtLine(body: string, marker: string, i: nat, start: nat, eol: string)
    requires LineEnd(eol) && At(body, marker, i) && At(body, eol, i + |marker|) && start == i + |marker| + |eol|
    ensures start <= |body| && TurnAt(body, marker, i) == SliceFrom(body, marker, start)
  {
    SkipOverBreak(body, i + |marker|, eol);
    TurnAtMarker(body, marker, i, i + |marker|, start);
  }

  lemma TurnAtMarker(body: string, marker: string, i: nat, j: nat, k: nat)
    requires At(body, marker, i) && j == i + |marker| && !Closes(body, j) && SkipLineBreak(body, j) == k
    ensures k <= |body| && TurnAt(body, marker, i) == SliceFrom(body, marker, k)
  {
    assert MarkerAt(body, marker, i) == Some(i);
  }

  lemma SkipOverBreak(body: string, j: nat, eol: string)
    requires LineEnd(eol) && At(body, eol, j)
    ensures SkipLineBreak(body, j) == j + |eol| && !Closes(body, j)
  {
    AtChars(body, eol, j);
    assert body[j + 0] == eol[0] && (eol == CRLF ==> body[j + 1] == eol[1]);
  }

  lemma TextIsTrimmed(body: string, start: nat, text: string, end: nat, next: nat, eol: string)
    requires LineEnd(eol) && Breakable(text, eol) && start <= end <= |body| && body[start..end] == text
    requires At(body, eol, end) && next == end + |eol|
    ensures TrimLineBreak(Between(body, start, Some(next))) == text
  {
    SliceInTwo(body, start, end, next);
    TrimWhole(body[start..next], text, eol);
  }

  lemma TrimWhole(s: string, text: string, eol: string)
    requires LineEnd(eol) && Breakable(text, eol) && s == text + eol
    ensures TrimLineBreak(s) == text
  {
    TrimTextLineBreak(text, eol);
  }

  lemma SliceInTwo(s: string, a: nat, b: nat, c: nat)
    requires a <= b <= c <= |s|
    ensures s[a..c] == s[a..b] + s[b..c]
  {
  }

  lemma TextIsSliced(body: string, marker: string, start: nat, text: string, next: nat, eol: string)
    requires LineEnd(eol) && Breakable(text, eol) && OneLine(marker) && |marker| > 0 && NoMarker(text, marker)
    requires start + |text| <= |body| && next == start + |text| + |eol|
    requires body[start..start + |text|] == text && At(body, eol, start + |text|) && At(body, marker, next)
    ensures SliceFrom(body, marker, start) == Slice(text, Some(next))
  {
    NextMarker(body, marker, start, text, eol, next);
    TextIsTrimmed(body, start, text, start + |text|, next, eol);
  }

  /** One delimited text, as the splitting loop sees it. */
  lemma OneDelimited(body: string, marker: string, i: nat, text: string, rest: string, next: nat, eol: string)
    requires LineEnd(eol) && Breakable(text, eol) && OneLine(marker) && |marker| > 0 && NoMarker(text, marker)
    requires i <= |body| && next == i + |marker| + |eol| + |text| + |eol|
    requires body[i..] == marker + eol + text + eol + rest && At(rest, marker, 0)
    ensures next <= |body| && body[next..] == rest && TextAt(body, marker, i, text, next)
  {
    var start := i + |marker| + |eol|;
    LayoutAt(body, marker, i, text, rest, start, next, eol);
    TextIsSliced(body, marker, start, text, next, eol);
    TextIsFound(body, marker, i, text, start, next, eol);
  }

  lemma TextIsFound(body: string, marker: string, i: nat, text: string, start: nat, next: nat, eol: string)
    requires LineEnd(eol) && start == i + |marker| + |eol| && next == start + |text| + |eol|
    requires At(body, marker, i) && At(body, eol, i + |marker|)
    requires SliceFrom(body, marker, start) == Slice(text, Some(next))
    ensures TextAt(body, marker, i, text, next)
  {
    TurnAtLine(body, marker, i, start, eol);
  }

  lemma ClosingTurn(body: string, marker: string, i: nat, epilogue: string)
    requires i <= |body| && body[i..] == marker + ("--" + epilogue)
    ensures TurnAt(body, marker, i) == Stop
  {
    SuffixAt(body, i, marker, "--" + epilogue);
    SuffixAt(body, i + |marker|, "--", epilogue);
    AtChars(body, "--", i + |marker|);
    assert body[i + |marker| + 0] == '-' && body[i + |marker| + 1] == '-';
  }

  /** A text that breaks off, with no delimiter behind it, as the splitting loop sees it. */
  lemma BrokenTurn(body: string, marker: string, i: nat, last: string, eol: string)
    requires LineEnd(eol) && i <= |body| && body[i..] == marker + (eol + last) && NoMarker(last, marker)
    ensures TurnAt(body, marker, i) == Slice(TrimLineBreak(last), None)
  {
    var start := i + |marker| + |eol|;
    SuffixAt(body, i, marker, eol + last);
    SuffixAt(body, i + |marker|, eol, last);
    TurnAtLine(body, marker, i, start, eol);
    LastSlice(body, marker, start, last);
  }

  lemma LastSlice(body: string, marker: string, start: nat, last: string)
    requires start <= |body| && body[start..] == last && NoMarker(last, marker)
    ensures SliceFrom(body, marker, start) == Slice(TrimLineBreak(last), None)
  {
    NoMarkerBehind(body, marker, start, last);
  }

  lemma AtInSuffix(body: string, start: nat, last: string, needle: string, k: nat)
    requires start <= |body| && body[start..] == last
    ensures At(body, needle, start + k) <==> At(last, needle, k)
  {
    if k + |needle| <= |last| {
      assert last[k..k + |needle|] == body[start + k..start + k + |needle|];
    }
  }

  lemma NoMarkerBehind(body: string, marker: string, start: nat, last: string)
    requires start <= |body| && body[start..] == last && NoMarker(last, marker)
    ensures MarkerAt(body, marker, start) == None
  {
    IndexOfIsFirst(last, "\n" + marker, 0);
    IndexOfIsFirst(body, "\n" + marker, start);
    AtInSuffix(body, start, last, marker, 0);
    var n := IndexOf(body, "\n" + marker, start);
    if n.Some? {
      AtInSuffix(body, start, last, "\n" + marker, n.value - start);
    }
  }

  lemma TrimTextLineBreak(text: string, eol: string)
    requires LineEnd(eol) && Breakable(text, eol)
    ensures TrimLineBreak(text + eol) == text
  {
    var s := text + eol;
    assert s[|s| - |eol|..] == eol && s[..|s| - |eol|] == text;
    if eol == "\n" && |s| >= 2 {
      assert s[|s| - 2..][0] == s[|s| - 2] == text[|text| - 1] && text[|text| - 1] in text;
    }
  }

  /** At i a delimiter, behind it a text, and the next delimiter behind its line break. */
  predicate TextAt(body: string, marker: string, i: nat, text: string, next: nat) {
    TurnAt(body, marker, i) == Slice(text, Some(next))
  }

  lemma FoundFirst(body: string, marker: string, i: nat, text: string, next: nat)
    requires |marker| > 0 && i < |body| && text != "" && TextAt(body, marker, i, text, next)
    ensures SplitFrom(body, marker, i) == [text] + SplitFrom(body, marker, next)
  {
    SplitOnce(body, marker, i, Slice(text, Some(next)));
  }

  /** From a delimiter on, splitting finds the delimited texts and comes to the last delimiter. */
  lemma {:induction false} SplitDelimited(body: string, marker: string, i: nat, texts: seq<string>, ending: string,
                                          eol: string) returns (at: nat)
    requires LineEnd(eol) && OneLine(marker) && |marker| > 0
    requires i <= |body| && body[i..] == Delimited(marker, texts, ending, eol)
    requires forall k :: 0 <= k < |texts| ==> texts[k] != "" && NoMarker(texts[k], marker) && Breakable(texts[k], eol)
    ensures at < |body| && body[at..] == marker + ending
    ensures SplitFrom(body, marker, i) == texts + SplitFrom(body, marker, at)
    decreases |texts|
  {
    if texts == [] {
      at := i;
      assert [] + SplitFrom(body, marker, i) == SplitFrom(body, marker, i);
    } else {
      var text, others := texts[0], texts[1..];
      var next := i + |marker| + |eol| + |text| + |eol|;
      DelimitedBegins(marker, others, ending, eol);
      OneDelimited(body, marker, i, text, Delimited(marker, others, ending, eol), next, eol);
      FoundFirst(body, marker, i, text, next);
      at := SplitDelimited(body, marker, next, others, ending, eol);
      Associative([text], others, SplitFrom(body, marker, at));
      HeadAndTail(texts);
    }
  }

  lemma MarkerAtMarker(body: string, marker: string, i: nat, first: nat)
    requires MarkerAt(body, marker, i) == Some(first)
    ensures MarkerAt(body, marker, first) == Some(first)
  {
    IndexOfIsFirst(body, "\n" + marker, i);
    if first != i {
      SliceOfSlice(body, first - 1, first + |marker|, 1, 1 + |marker|);
    }
  }

  /** Skipping to the first delimiter makes no difference to what is found. */
  lemma SplitFromFirst(body: string, marker: string, i: nat, first: nat)
    requires |marker| > 0 && MarkerAt(body, marker, i) == Some(first) && i < |body|
    ensures SplitFrom(body, marker, i) == SplitFrom(body, marker, first)
  {
    MarkerAtMarker(body, marker, i, first);
    SameMarkerSameTurn(body, marker, i, first);
    SameTurnSameSplit(body, marker, i, first);
  }

  lemma SameMarkerSameTurn(body: string, marker: string, i: nat, k: nat)
    ensures MarkerAt(body, marker, i) == MarkerAt(body, marker, k) ==>
              TurnAt(body, marker, i) == TurnAt(body, marker, k)
  {
  }

  lemma SameTurnSameSplit(body: string, marker: string, i: nat, k: nat)
    requires |marker| > 0 && i < |body| && k < |body| && TurnAt(body, marker, i) == TurnAt(body, marker, k)
    ensures SplitFrom(body, marker, i) == SplitFrom(body, marker, k)
  {
  }

  predicate Splittable(marker: string, preamble: Option<string>, texts: seq<string>, eol: string) {
    && LineEnd(eol) && OneLine(marker) && |marker| > 0 && (preamble.Some? ==> NoMarker(preamble.value, marker))
    && forall k :: 0 <= k < |texts| ==> texts[k] != "" && NoMarker(texts[k], marker) && Breakable(texts[k], eol)
  }

  /** The whole body of a multipart entity, with or without a preamble, in either kind of line break. */
  lemma SplitMultipart(marker: string, preamble: Option<string>, texts: seq<string>, epilogue: string, eol: string)
    requires Splittable(marker, preamble, texts, eol)
    ensures var before := if preamble.Some? then preamble.value + eol else "";
            SplitFrom(before + Delimited(marker, texts, "--" + epilogue, eol), marker, 0) == texts
  {
    var body, at := SplitBody(marker, preamble, texts, "--" + epilogue, eol);
    ClosingTurn(body, marker, at, epilogue);
    assert texts + [] == texts;
  }

  /** A body that breaks off before its closing delimiter: nothing of it is lost, but one last line break. */
  lemma SplitBrokenOff(marker: string, preamble: Option<string>, texts: seq<string>, last: string, eol: string)
    requires Splittable(marker, preamble, texts, eol) && NoMarker(last, marker)
    ensures var before := if preamble.Some? then preamble.value + eol else "";
            SplitFrom(before + Delimited(marker, texts, eol + last, eol), marker, 0) ==
            texts + NonEmpty(TrimLineBreak(last))
  {
    var body, at := SplitBody(marker, preamble, texts, eol + last, eol);
    BrokenTurn(body, marker, at, last, eol);
  }

  lemma SplitBody(marker: string, preamble: Option<string>, texts: seq<string>, ending: string, eol: string)
    returns (body: string, at: nat)
    requires Splittable(marker, preamble, texts, eol)
    ensures body == (if preamble.Some? then preamble.value + eol else "") + Delimited(marker, texts, ending, eol)
    ensures at < |body| && body[at..] == marker + ending
    ensures SplitFrom(body, marker, 0) == texts + SplitFrom(body, marker, at)
  {
    var tail := Delimited(marker, texts, ending, eol);
    if preamble.None? {
      body := tail;
      WholeSuffix(tail);
      at := SplitDelimited(tail, marker, 0, texts, ending, eol);
    } else {
      body, at := SplitBehindPreamble(marker, preamble.value, texts, ending, eol);
    }
  }

  lemma WholeSuffix(s: string)
    ensures "" + s == s && s[0..] == s
  {
  }

  lemma SplitBehindPreamble(marker: string, preamble: string, texts: seq<string>, ending: string, eol: string)
    returns (body: string, at: nat)
    requires Splittable(marker, Some(preamble), texts, eol)
    ensures body == preamble + eol + Delimited(marker, texts, ending, eol)
    ensures at < |body| && body[at..] == marker + ending
    ensures SplitFrom(body, marker, 0) == texts + SplitFrom(body, marker, at)
  {
    DelimitedBegins(marker, texts, ending, eol);
    var first;
    body, first := PreambleIsSkipped(preamble, marker, Delimited(marker, texts, ending, eol), eol);
    at := SplitDelimited(body, marker, first, texts, ending, eol);
  }

  lemma PreambleIsSkipped(preamble: string, marker: string, tail: string, eol: string)
    returns (body: string, first: nat)
    requires LineEnd(eol) && OneLine(marker) && |marker| > 0 && NoMarker(preamble, marker) && At(tail, marker, 0)
    ensures body == preamble + eol + tail && first <= |body| && body[first..] == tail
    ensures SplitFrom(body, marker, 0) == SplitFrom(body, marker, first)
  {
    body, first := preamble + eol + tail, |preamble| + |eol|;
    PreambleLayout(body, preamble, marker, tail, eol);
    NextMarker(body, marker, 0, preamble, eol, first);
    SplitFromFirst(body, marker, 0, first);
  }

  lemma PreambleLayout(body: string, preamble: string, marker: string, tail: string, eol: string)
    requires body == preamble + eol + tail && At(tail, marker, 0)
    ensures var first := |preamble| + |eol|;
            && first <= |body| && body[0..|preamble|] == preamble && At(body, eol, |preamble|) && body[first..] == tail
            && At(body, marker, first)
  {
    var first := |preamble| + |eol|;
    assert body[0..] == body == preamble + (eol + tail);
    SuffixAt(body, 0, preamble, eol + tail);
    SuffixAt(body, |preamble|, eol, tail);
    assert body[first..first + |tail|] == tail;
    AtInPart(body, tail, marker, first, 0);
  }

  lemma HeadersAreFound(headers: string, body: string, eol: string)
    requires LineEnd(eol) && HeadersEnd(headers, eol) && Breakable(headers + eol + eol + body, eol)
    ensures SplitHeaders(headers + eol + eol + body) == Entity(headers, body)
  {
    var part := headers + eol + eol + body;
    var blank := eol + eol;
    assert part == headers + (blank + body);
    assert part[0..] == part;
    SuffixAt(part, 0, headers, blank + body);
    SuffixAt(part, |headers|, blank, body);
    BlankIsFirst(part, headers, eol);
    FirstOccurrence(part, blank, 0, |headers|);
    if eol == CRLF {
      assert blank == "\r\n\r\n";
    } else {
      assert blank == "\n\n";
      NoCrlf(part);
    }
    assert part[|headers| + |blank|..] == body;
  }

  lemma NoCrlf(part: string)
    requires '\r' !in part
    ensures IndexOf(part, "\r\n\r\n", 0).None?
  {
    IndexOfIsFirst(part, "\r\n\r\n", 0);
    forall k: nat ensures !At(part, "\r\n\r\n", k) {
      CharAt(part, "\r\n\r\n", k, 0);
    }
  }

  /** The blank line after the headers is the first one. */
  lemma BlankIsFirst(part: string, headers: string, eol: string)
    requires LineEnd(eol) && HeadersEnd(headers, eol) && At(part, headers, 0) && At(part, eol + eol, |headers|)
    ensures forall k :: 0 <= k < |headers| ==> !At(part, eol + eol, k)
  {
    var blank := eol + eol;
    IndexOfIsFirst(headers, blank, 0);
    forall k | 0 <= k < |headers| ensures !At(part, blank, k) {
      if k + |blank| <= |headers| {
        AtInPart(part, headers, blank, 0, k);
      } else {
        BlanksOverlap(part, k, |headers|, eol);
        assert headers == part[..|headers|];
      }
    }
  }

  /** Two blank lines overlap in a line break only. */
  lemma BlanksOverlap(part: string, k: nat, end: nat, eol: string)
    requires LineEnd(eol) && k < end < k + |eol + eol| && At(part, eol + eol, end)
    ensures At(part, eol + eol, k) ==> end == k + |eol| && part[..end][end - |eol|..] == eol
  {
    BlankChars(part, k, eol);
    BlankChars(part, end, eol);
    if At(part, eol + eol, k) {
      assert end == k + |eol|;
      assert part[..end][end - |eol|..] == part[k..k + |eol|] == (eol + eol)[..|eol|];
    }
  }

  lemma BlankChars(part: string, k: nat, eol: string)
    requires LineEnd(eol)
    ensures At(part, eol + eol, k) && eol == CRLF ==>
      part[k] == '\r' && part[k + 1] == '\n' && part[k + 2] == '\r' && part[k + 3] == '\n'
    ensures At(part, eol + eol, k) ==> part[k..k + |eol|] == eol
  {
    var blank := eol + eol;
    AtChars(part, blank, k);
    assert At(part, blank, k) ==> part[k + 0] == blank[0];
    if At(part, blank, k) {
      SliceOfSlice(part, k, k + |blank|, 0, |eol|);
      assert blank[0..|eol|] == eol;
    }
  }

  // ----- Parts without header fields ------------------------------------------------------

  /** A measure of what flattening may lose: body characters, and empty header blocks. */
  function Heft(e: Entity): nat {
    |e.body| + if e.headers == "" then 1 else 0
  }

  function Weight(leaves: seq<Entity>): nat {
    if leaves == [] then 0 else Heft(leaves[0]) + Weight(leaves[1..])
  }

  function Total(texts: seq<string>): nat {
    if texts == [] then 0 else |texts[0]| + Total(texts[1..])
  }

  lemma {:induction false} WeightConcat(a: seq<Entity>, b: seq<Entity>)
    ensures Weight(a + b) == Weight(a) + Weight(b)
  {
    if a == [] {
      assert a + b == b;
    } else {
      assert (a + b)[1..] == a[1..] + b;
      WeightConcat(a[1..], b);
    }
  }

  lemma TurnIsWithin(body: string, marker: string, i: nat)
    requires i <= |body|
    ensures var t := TurnAt(body, marker, i);
            t.Slice? ==> |t.text| + i <= if t.next.Some? then t.next.value else |body|
  {
  }

  lemma {:induction false} PartsAreDisjoint(body: string, marker: string, i: nat)
    requires |marker| > 0 && i <= |body|
    ensures Total(SplitFrom(body, marker, i)) <= |body| - i
    decreases |body| - i
  {
    if i < |body| {
      var t := TurnAt(body, marker, i);
      SplitOnce(body, marker, i, t);
      TurnIsWithin(body, marker, i);
      if t.Slice? && t.next.Some? {
        PartsAreDisjoint(body, marker, t.next.value);
        assert ([t.text] + SplitFrom(body, marker, t.next.value))[1..] == SplitFrom(body, marker, t.next.value);
      }
    }
  }

  lemma ChunkHeft(chunk: string)
    requires chunk != ""
    ensures Heft(SplitHeaders(chunk)) <= |chunk|
  {
  }

  /** What is found in a part that begins with its blank line weighs less than what was printed. */
  lemma HeadlessHeft(body: string, eol: string)
    requires LineEnd(eol)
    ensures Heft(SplitHeaders(eol + body)) < Heft(Entity("", body))
  {
    var part := eol + body;
    assert part[0] == eol[0];
    IndexOfIsFirst(part, "\n\n", 0);
    CharAt(part, "\n\n", 0, 0);
    IndexOfIsFirst(part, "\r\n\r\n", 0);
    CharAt(part, "\r\n\r\n", 0, 0);
  }

  /** Flattening never yields more than there was. */
  lemma {:induction false} FlattenWeight(e: Entity, boundaryOf: Boundaries)
    ensures Weight(Flatten(e, boundaryOf)) <= Heft(e)
    decreases |e.body|, 1, 0
  {
    if IsMultipart(e.headers, boundaryOf) {
      var marker := "--" + boundaryOf(e.headers).value;
      PartsAreShorter(e.body, marker, 0);
      PartsAreDisjoint(e.body, marker, 0);
      FlattenAllWeight(SplitFrom(e.body, marker, 0), boundaryOf, |e.body|);
    } else {
      assert [e][1..] == [];
    }
  }

  lemma {:induction false} FlattenAllWeight(chunks: seq<string>, boundaryOf: Boundaries, bound: nat)
    requires forall k :: 0 <= k < |chunks| ==> 0 < |chunks[k]| < bound
    ensures Weight(FlattenAll(chunks, boundaryOf, bound)) <= Total(chunks)
    decreases bound, 0, |chunks|
  {
    if chunks != [] {
      var e := SplitHeaders(chunks[0]);
      ChunkHeft(chunks[0]);
      FlattenWeight(e, boundaryOf);
      FlattenAllWeight(chunks[1..], boundaryOf, bound);
      WeightConcat(Flatten(e, boundaryOf), FlattenAll(chunks[1..], boundaryOf, bound));
    }
  }

  // ----- The round trip -------------------------------------------------------------------

  /** What flattening finds in a printed tree: its leaves if every part has a header field, and something
      lighter otherwise. */
  ghost predicate Recovered(found: seq<Entity>, leaves: seq<Entity>, headed: bool) {
    if headed then found == leaves else Weight(found) < Weight(leaves)
  }

  lemma {:induction false} FlattenOfPrint(m: Mime, boundaryOf: Boundaries, eol: string)
    requires LineEnd(eol) && WellFormed(m, boundaryOf, eol)
    ensures Recovered(Flatten(Entity(m.headers, PrintBody(m, eol)), boundaryOf), Leaves(m), Headed(m))
    decreases m, 0
  {
    if m.Multipart? {
      var texts := seq(|m.parts|, k requires 0 <= k < |m.parts| => Print(m.parts[k], eol));
      var marker, body := "--" + m.boundary, PrintBody(m, eol);
      assert forall k :: 0 <= k < |texts| ==> texts[k] != "";
      SplitMultipart(marker, m.preamble, texts, m.epilogue, eol);
      assert SplitFrom(body, marker, 0) == texts;
      PartsAreShorter(body, marker, 0);
      assert Flatten(Entity(m.headers, body), boundaryOf) == FlattenAll(texts, boundaryOf, |body|);
      FlattenOfPrints(m.parts, texts, boundaryOf, |body|, eol);
    }
  }

  lemma {:induction false} FlattenOfPrints(parts: seq<Mime>, texts: seq<string>, boundaryOf: Boundaries, bound: nat,
                                           eol: string)
    requires LineEnd(eol) && |texts| == |parts|
    requires forall k :: 0 <= k < |parts| ==> texts[k] == Print(parts[k], eol) && |texts[k]| < bound
    requires forall k :: 0 <= k < |parts| ==> HeadersEnd(parts[k].headers, eol) && Breakable(texts[k], eol)
                                              && WellFormed(parts[k], boundaryOf, eol)
    ensures Recovered(FlattenAll(texts, boundaryOf, bound), LeavesAll(parts), AllHeaded(parts))
    decreases parts, 2
  {
    if parts != [] {
      var first := FlattenOfPart(parts[0], boundaryOf, eol);
      var rest := FlattenAll(texts[1..], boundaryOf, bound);
      FlattenOfPrints(parts[1..], texts[1..], boundaryOf, bound, eol);
      RecoveredConcat(first, Leaves(parts[0]), parts[0].headers != "" && Headed(parts[0]),
                      rest, LeavesAll(parts[1..]), AllHeaded(parts[1..]));
      HeadedFirstAndRest(parts);
    }
  }

  lemma HeadedFirstAndRest(parts: seq<Mime>)
    requires parts != []
    ensures AllHeaded(parts) <==> parts[0].headers != "" && Headed(parts[0]) && AllHeaded(parts[1..])
  {
    assert forall k :: 0 <= k < |parts| - 1 ==> parts[1..][k] == parts[k + 1];
  }

  lemma {:induction false} FlattenOfPart(part: Mime, boundaryOf: Boundaries, eol: string) returns (found: seq<Entity>)
    requires LineEnd(eol) && HeadersEnd(part.headers, eol) && Breakable(Print(part, eol), eol)
    requires WellFormed(part, boundaryOf, eol)
    ensures found == Flatten(SplitHeaders(Print(part, eol)), boundaryOf)
    ensures Recovered(found, Leaves(part), part.headers != "" && Headed(part))
    decreases part, 1
  {
    found := Flatten(SplitHeaders(Print(part, eol)), boundaryOf);
    if part.headers == "" {
      HeadlessHeft(PrintBody(part, eol), eol);
      FlattenWeight(SplitHeaders(Print(part, eol)), boundaryOf);
      assert Leaves(part)[1..] == [];
    } else {
      HeadersAreFound(part.headers, PrintBody(part, eol), eol);
      FlattenOfPrint(part, boundaryOf, eol);
    }
  }

  lemma RecoveredConcat(a: seq<Entity>, la: seq<Entity>, ha: bool, b: seq<Entity>, lb: seq<Entity>, hb: bool)
    requires Recovered(a, la, ha) && Recovered(b, lb, hb)
    ensures Recovered(a + b, la + lb, ha && hb)
  {
    WeightConcat(a, b);
    WeightConcat(la, lb);
  }

  /** Main result: flattening the printed form of a well-formed tree, in either kind of line break, gives its
      leaves in order if and only if every part inside it has a header field. */
  lemma FlattenUndoesPrint(m: Mime, boundaryOf: Boundaries, eol: string)
    requires LineEnd(eol) && WellFormed(m, boundaryOf, eol)
    ensures Flatten(Entity(m.headers, PrintBody(m, eol)), boundaryOf) == Leaves(m) <==> Headed(m)
  {
    FlattenOfPrint(m, boundaryOf, eol);
  }

  /** One printed part is taken apart again if and only if it has a header field; without one its blank line
      is taken for header text. */
  lemma PartIsReadBack(part: Mime, eol: string)
    requires LineEnd(eol) && HeadersEnd(part.headers, eol) && Breakable(Print(part, eol), eol)
    ensures SplitHeaders(Print(part, eol)) == Entity(part.headers, PrintBody(part, eol)) <==> part.headers != ""
  {
    HeadlessHeft(PrintBody(part, eol), eol);
    if part.headers != "" {
      HeadersAreFound(part.headers, PrintBody(part, eol), eol);
    }
  }

  /** A multipart entity around one such part. */
  function Headless(body: string): Mime {
    Multipart("H", "b", None, [Single("", body)], "")
  }

  /** For instance, a one-line text in a part without header fields becomes header text, and the body is lost. */
  lemma HeadlessTextIsLost(body: string, boundaryOf: Boundaries)
    requires OneLine(body) && boundaryOf("H") == Some("b") && !IsMultipart("", boundaryOf)
    requires !IsMultipart(CRLF + body, boundaryOf) && !("--b" <= body)
    ensures WellFormed(Headless(body), boundaryOf, CRLF) && Leaves(Headless(body)) == [Entity("", body)]
    ensures Flatten(Entity("H", PrintBody(Headless(body), CRLF)), boundaryOf) == [Entity(CRLF + body, "")]
  {
    HeadlessIsWellFormed(body, boundaryOf);
    HeadlessPrints(body);
    HeadlessText(body);
    DelimitedTextFlattens(CRLF + body, boundaryOf);
  }

  lemma HeadlessIsWellFormed(body: string, boundaryOf: Boundaries)
    requires OneLine(body) && boundaryOf("H") == Some("b") && !IsMultipart("", boundaryOf) && !("--b" <= body)
    ensures WellFormed(Headless(body), boundaryOf, CRLF) && Leaves(Headless(body)) == [Entity("", body)]
  {
    var m := Headless(body);
    HeadlessText(body);
    assert "--" + "b" == "--b" && Print(m.parts[0], CRLF) == CRLF + body;
    assert LeavesAll(m.parts[1..]) == [] && Leaves(m) == Leaves(m.parts[0]) + [];
  }

  lemma HeadlessPrints(body: string)
    ensures PrintBody(Headless(body), CRLF) == Delimited("--b", [CRLF + body], "--", CRLF)
  {
    var m := Headless(body);
    assert "--" + "" == "--" && "--" + "b" == "--b" && Print(m.parts[0], CRLF) == CRLF + body;
    assert seq(|m.parts|, k requires 0 <= k < |m.parts| => Print(m.parts[k], CRLF)) == [CRLF + body];
    assert "" + Delimited("--b", [CRLF + body], "--", CRLF) == Delimited("--b", [CRLF + body], "--", CRLF);
  }

  lemma DelimitedTextFlattens(text: string, boundaryOf: Boundaries)
    requires text != "" && NoMarker(text, "--b") && boundaryOf("H") == Some("b")
    requires SplitHeaders(text) == Entity(text, "") && !IsMultipart(text, boundaryOf)
    ensures Flatten(Entity("H", Delimited("--b", [text], "--", CRLF)), boundaryOf) == [Entity(text, "")]
  {
    var body := Delimited("--b", [text], "--", CRLF);
    assert "--" + "b" == "--b";
    SplitSingle(text);
    PartsAreShorter(body, "--b", 0);
    FlattenSingle(Entity(text, ""), text, boundaryOf, |body|);
  }

  lemma SplitSingle(text: string)
    requires text != "" && NoMarker(text, "--b")
    ensures SplitFrom(Delimited("--b", [text], "--", CRLF), "--b", 0) == [text]
  {
    var body := Delimited("--b", [text], "--", CRLF);
    assert "--" + "" == "--";
    SplitMultipart("--b", None, [text], "", CRLF);
    WholeSuffix(body);
  }

  lemma FlattenSingle(e: Entity, text: string, boundaryOf: Boundaries, bound: nat)
    requires SplitHeaders(text) == e && !IsMultipart(e.headers, boundaryOf) && |text| < bound
    ensures FlattenAll([text], boundaryOf, bound) == [e]
  {
    assert [text][1..] == [];
    assert [e] + [] == [e];
  }

  lemma HeadlessText(body: string)
    requires OneLine(body) && !("--b" <= body)
    ensures SplitHeaders(CRLF + body) == Entity(CRLF + body, "") && NoMarker(CRLF + body, "--b")
    ensures HeadersEnd("", CRLF)
  {
    var text := CRLF + body;
    var line := "\n" + "--b";
    forall k: nat ensures !At(text, "\r\n\r\n", k) && !At(text, "\n\n", k) && !At(text, line, k) {
      OnlyLineBreak(body, "\r\n\r\n", k, 3);
      OnlyLineBreak(body, "\n\n", k, 1);
      OnlyLineBreak(body, "\n\n", k, 0);
      OnlyLineBreak(body, line, k, 0);
      DelimiterBehindBreak(body);
    }
    IndexOfIsFirst(text, "\r\n\r\n", 0);
    IndexOfIsFirst(text, "\n\n", 0);
    IndexOfIsFirst(text, line, 0);
    IndexOfIsFirst("", CRLF + CRLF, 0);
    CharAt(text, "--b", 0, 0);
  }

  lemma DelimiterBehindBreak(body: string)
    ensures At(CRLF + body, "\n" + "--b", 1) ==> "--b" <= body
  {
    var text, line := CRLF + body, "\n" + "--b";
    if At(text, line, 1) {
      assert text[1..1 + |line|][1..] == "--b" && text[2..5] == body[..3];
    }
  }

  lemma OnlyLineBreak(body: string, needle: string, k: nat, p: nat)
    requires OneLine(body) && p < |needle| && needle[p] == '\n'
    ensures At(CRLF + body, needle, k) ==> k + p == 1
  {
    var text := CRLF + body;
    forall q | 2 <= q < |text| ensures text[q] != '\n' {
      assert text[q] == body[q - 2] && body[q - 2] in body;
    }
    CharAt(text, needle, k, p);
  }

  // ----- What splitting any body at all yields ------------------------------------------

  /** A prefix of a text between two delimiters contains no delimiter line. */
  lemma SliceHasNoMarker(body: string, marker: string, start: nat, end: nat, text: string)
    requires start <= end <= |body| && !At(body, marker, start) && text == body[start..end]
    requires forall k :: start <= k && k + 1 + |marker| <= end ==> !At(body, "\n" + marker, k)
    ensures NoMarker(text, marker)
  {
    var line := "\n" + marker;
    IndexOfIsFirst(text, line, 0);
    var r := IndexOf(text, line, 0);
    if r.Some? {
      AtInPart(body, text, line, start, r.value);
    }
    if start + |marker| <= end {
      AtInPart(body, text, marker, start, 0);
    }
  }

  lemma TrimmedSlice(body: string, start: nat, end: nat)
    requires start <= end <= |body|
    ensures var text := TrimLineBreak(body[start..end]); start + |text| <= end && text == body[start..start + |text|]
  {
  }

  /** Nothing between a position and the next delimiter begins a delimiter line. */
  lemma NothingBeforeNext(body: string, marker: string, start: nat)
    ensures var next := MarkerAt(body, marker, start);
            && (next != Some(start) ==> !At(body, marker, start))
            && forall k :: start <= k && (next.Some? ==> k + 1 < next.value) ==> !At(body, "\n" + marker, k)
  {
    IndexOfIsFirst(body, "\n" + marker, start);
  }

  lemma SliceFromHasNoMarker(body: string, marker: string, start: nat)
    requires start <= |body|
    ensures var t := SliceFrom(body, marker, start); t.text != "" ==> NoMarker(t.text, marker)
  {
    var t := SliceFrom(body, marker, start);
    if t.text != "" {
      NothingBeforeNext(body, marker, start);
      TrimmedSlice(body, start, if t.next.Some? then t.next.value else |body|);
      SliceHasNoMarker(body, marker, start, start + |t.text|, t.text);
    }
  }

  /** No part of any body, well-formed or not, contains a line that begins with the delimiter. */
  lemma {:induction false} PartsHaveNoMarker(body: string, marker: string, i: nat)
    requires |marker| > 0
    ensures forall text :: text in SplitFrom(body, marker, i) ==> text != "" && NoMarker(text, marker)
    decreases |body| - i
  {
    if i < |body| {
      var t := TurnAt(body, marker, i);
      if t.Slice? {
        SliceFromHasNoMarker(body, marker, SkipLineBreak(body, MarkerAt(body, marker, i).value + |marker|));
        if t.next.Some? {
          PartsHaveNoMarker(body, marker, t.next.value);
        }
      }
    }
  }

  /** Reprinting the parts of any body and splitting again gives the same parts. */
  lemma SplittingIsStable(body: string, boundary: string, epilogue: string)
    requires OneLine(boundary)
    ensures var parts := SplitFrom(body, "--" + boundary, 0);
            SplitFrom(Delimited("--" + boundary, parts, "--" + epilogue, CRLF), "--" + boundary, 0) == parts
  {
    var marker := "--" + boundary;
    var parts := SplitFrom(body, marker, 0);
    PartsHaveNoMarker(body, marker, 0);
    assert forall k :: 0 <= k < |parts| ==> parts[k] in parts;
    SplitMultipart(marker, None, parts, epilogue, CRLF);
    var again := Delimited(marker, parts, "--" + epilogue, CRLF);
    assert "" + again == again;
  }
}
