/** Framing of a child's two output streams into lines (consume in
    scripts/deployment-bootstrap-guided.ts).  Both streams feed one log; their reads interleave freely. */
module LineFramer {
  import opened Common

  datatype Source = Out | Err

  datatype Parsed<U> = Event(update: U) | NoEvent | Invalid(message: string)

  /** What the consumer makes of one line; the parser, the redaction and the pattern of diagnostic lines
      are the caller's. */
  datatype Handler<U> = Handler(parse: string -> Parsed<U>, blank: string -> bool, redact: string -> string,
                                 diagnosis: string -> Option<string>)

  datatype Entry<U> = Progress(message: string) | Stage(update: U) | Line(text: string)

  datatype Logged<U> = Logged(source: Source, entry: Entry<U>)

  // ----- Splitting -----------------------------------------------------------------------------

  datatype Cut = Cut(lines: seq<string>, residue: string)

  /** split('\n') with the last piece popped off. */
  function Split(s: string): Cut {
    if s == "" then Cut([], "") else Prepend(s[0], Split(s[1..]))
  }

  function Prepend(c: char, rest: Cut): Cut {
    if c == '\n' then Cut([""] + rest.lines, rest.residue)
    else if rest.lines == [] then Cut([], [c] + rest.residue)
    else Cut([[c] + rest.lines[0]] + rest.lines[1..], rest.residue)
  }

  function Then(first: Cut, second: Cut): Cut {
    Cut(first.lines + second.lines, second.residue)
  }

  function Join(lines: seq<string>, residue: string): string {
    if lines == [] then residue else lines[0] + "\n" + Join(lines[1..], residue)
  }

  lemma {:induction false} NoLineNoBreak(s: string)
    requires Split(s).lines == []
    ensures Split(s).residue == s
  {
    if s != "" {
      NoLineNoBreak(s[1..]);
      assert s == [s[0]] + s[1..];
    }
  }

  /** Splitting is undone by joining, and no piece holds a line break. */
  lemma {:induction false} SplitIsExact(s: string)
    ensures Join(Split(s).lines, Split(s).residue) == s
    ensures '\n' !in Split(s).residue && forall line :: line in Split(s).lines ==> '\n' !in line
  {
    if s != "" {
      SplitIsExact(s[1..]);
      var rest := Split(s[1..]);
      assert s == [s[0]] + s[1..];
      if s[0] == '\n' {
        assert ([""] + rest.lines)[1..] == rest.lines;
        assert "" + "\n" == [s[0]];
      } else if rest.lines != [] {
        var longer := [[s[0]] + rest.lines[0]] + rest.lines[1..];
        assert longer[1..] == rest.lines[1..];
        Associative([s[0]], rest.lines[0] + "\n", Join(rest.lines[1..], rest.residue));
        Associative([s[0]], rest.lines[0], "\n");
      }
    }
  }

  lemma Associative<T>(a: seq<T>, b: seq<T>, c: seq<T>)
    ensures (a + b) + c == a + (b + c)
  {
  }

  lemma PrependThen(c: char, first: Cut, second: Cut)
    requires c == '\n' || first.lines != []
    ensures Prepend(c, Then(first, second)) == Then(Prepend(c, first), second)
  {
    if c == '\n' {
      Associative([""], first.lines, second.lines);
    } else {
      assert (first.lines + second.lines)[1..] == first.lines[1..] + second.lines;
      Associative([[c] + first.lines[0]], first.lines[1..], second.lines);
    }
  }

  /** What was already framed stays framed when more text arrives. */
  lemma {:induction false} SplitConcat(a: string, b: string)
    ensures Split(a + b) == Then(Split(a), Split(Split(a).residue + b))
  {
    if a == "" {
      assert a + b == b;
    } else if Split(a).lines == [] {
      NoLineNoBreak(a);
    } else {
      var rest := Split(a[1..]);
      assert (a + b)[1..] == a[1..] + b;
      SplitConcat(a[1..], b);
      PrependThen(a[0], rest, Split(rest.residue + b));
    }
  }

  // ----- Lines into entries ----------------------------------------------------------------------

  /** A residue is never tried as an event. */
  function Plain<U>(h: Handler<U>, line: string): seq<Entry<U>> {
    if h.blank(line) then [] else [Line(h.redact(line))]
  }

  /** A line that looks like an event but is malformed is reported and then logged as it is. */
  function Entries<U>(h: Handler<U>, line: string): seq<Entry<U>> {
    match h.parse(line)
    case Event(update) => [Stage(update)]
    case NoEvent => Plain(h, line)
    case Invalid(message) => [Progress(message)] + Plain(h, line)
  }

  function AllEntries<U>(h: Handler<U>, lines: seq<string>): seq<Entry<U>> {
    if lines == [] then [] else AllEntries(h, lines[..|lines| - 1]) + Entries(h, lines[|lines| - 1])
  }

  function Tagged<U>(source: Source, entries: seq<Entry<U>>): seq<Logged<U>> {
    seq(|entries|, i requires 0 <= i < |entries| => Logged(source, entries[i]))
  }

  /** The updates shown on the screen. */
  function Shown<U>(log: seq<Logged<U>>): seq<U> {
    if log == [] then []
    else Shown(log[..|log| - 1]) + match log[|log| - 1].entry { case Stage(update) => [update] case _ => [] }
  }

  /** The lines quoted when the child fails. */
  function Diagnosed<U>(h: Handler<U>, log: seq<Logged<U>>): seq<string> {
    if log == [] then []
    else Diagnosed(h, log[..|log| - 1]) + Quoted(h, log[|log| - 1].entry)
  }

  function Quoted<U>(h: Handler<U>, entry: Entry<U>): seq<string> {
    match entry
    case Line(text) => (match h.diagnosis(text) case Some(quote) => [quote] case None => [])
    case _ => []
  }

  // ----- The two streams ---------------------------------------------------------------------------

  datatype Framing<U> = Framing(out: string, err: string, log: seq<Logged<U>>) {
    function Pending(source: Source): string {
      if source == Out then out else err
    }

    function Advance(source: Source, pending: string, entries: seq<Entry<U>>): Framing<U> {
      var log' := log + Tagged(source, entries);
      if source == Out then this.(out := pending, log := log') else this.(err := pending, log := log')
    }
  }

  function Received<U>(h: Handler<U>, st: Framing<U>, source: Source, chunk: string): Framing<U> {
    var cut := Split(st.Pending(source) + chunk);
    st.Advance(source, cut.residue, AllEntries(h, cut.lines))
  }

  /** The end of one stream: what is left counts as a line, but not as an event. */
  function Finished<U>(h: Handler<U>, st: Framing<U>, source: Source): Framing<U> {
    st.Advance(source, st.Pending(source), Plain(h, st.Pending(source)))
  }

  class Console<U> {
    const handler: Handler<U>
    var out: string
    var err: string
    var log: seq<Logged<U>>
    var shown: seq<U>
    var last: Option<U>
    var diagnostics: seq<string>

    constructor (handler: Handler<U>)
      ensures Valid() && State() == Framing("", "", []) && this.handler == handler
    {
      this.handler := handler;
      out, err, log, shown, last, diagnostics := "", "", [], [], None, [];
    }

    /** The screen, the last update and the quoted lines follow from the log. */
    ghost predicate Valid() reads this {
      && shown == Shown(log)
      && diagnostics == Diagnosed(handler, log)
      && last == (if shown == [] then None else Some(shown[|shown| - 1]))
    }

    ghost function State(): Framing<U> reads this {
      Framing(out, err, log)
    }

    method Write(source: Source, entry: Entry<U>)
      requires Valid()
      modifies this`log, this`shown, this`last, this`diagnostics
      ensures Valid() && log == old(log) + [Logged(source, entry)]
    {
      log := log + [Logged(source, entry)];
      assert log[..|log| - 1] == old(log);
      match entry {
        case Stage(update) =>
          last := Some(update);
          shown := shown + [update];
        case Line(text) =>
          var quote := handler.diagnosis(text);
          if quote.Some? {
            diagnostics := diagnostics + [quote.value];
          }
        case Progress(_) =>
      }
    }

    method WritePlain(source: Source, line: string)
      requires Valid()
      modifies this`log, this`shown, this`last, this`diagnostics
      ensures Valid() && log == old(log) + Tagged(source, Plain(handler, line))
    {
      if !handler.blank(line) {
        Write(source, Line(handler.redact(line)));
      }
    }

    method WriteLine(source: Source, line: string)
      requires Valid()
      modifies this`log, this`shown, this`last, this`diagnostics
      ensures Valid() && log == old(log) + Tagged(source, Entries(handler, line))
    {
      match handler.parse(line) {
        case Event(update) =>
          Write(source, Stage(update));
        case NoEvent =>
          WritePlain(source, line);
        case Invalid(message) =>
          Write(source, Progress(message));
          WritePlain(source, line);
          TaggedConcat(source, [Entry<U>.Progress(message)], Plain(handler, line));
      }
    }

    method WriteLines(source: Source, lines: seq<string>)
      requires Valid()
      modifies this`log, this`shown, this`last, this`diagnostics
      ensures Valid() && log == old(log) + Tagged(source, AllEntries(handler, lines))
    {
      for i := 0 to |lines|
        invariant Valid() && log == old(log) + Tagged(source, AllEntries(handler, lines[..i]))
      {
        WriteLine(source, lines[i]);
        assert lines[..i + 1][..i] == lines[..i];
        TaggedMore(old(log), source, AllEntries(handler, lines[..i]), Entries(handler, lines[i]));
      }
      assert lines[..|lines|] == lines;
    }

    method Receive(source: Source, chunk: string)
      requires Valid()
      modifies this
      ensures Valid() && State() == Received(handler, old(State()), source, chunk)
    {
      var cut := Split((if source == Out then out else err) + chunk);
      WriteLines(source, cut.lines);
      if source == Out {
        out := cut.residue;
      } else {
        err := cut.residue;
      }
    }

    method Finish(source: Source)
      requires Valid()
      modifies this
      ensures Valid() && State() == Finished(handler, old(State()), source)
    {
      WritePlain(source, if source == Out then out else err);
    }
  }

  lemma TaggedConcat<U>(source: Source, a: seq<Entry<U>>, b: seq<Entry<U>>)
    ensures Tagged(source, a + b) == Tagged(source, a) + Tagged(source, b)
  {
  }

  lemma TaggedMore<U>(log: seq<Logged<U>>, source: Source, a: seq<Entry<U>>, b: seq<Entry<U>>)
    ensures log + Tagged(source, a) + Tagged(source, b) == log + Tagged(source, a + b)
  {
    TaggedConcat(source, a, b);
  }

  // ----- Runs --------------------------------------------------------------------------------------

  datatype Turn = Chunk(source: Source, text: string) | End(source: Source)

  function Run<U>(h: Handler<U>, turns: seq<Turn>): Framing<U> {
    if turns == [] then Framing("", "", [])
    else
      var st := Run(h, turns[..|turns| - 1]);
      match turns[|turns| - 1]
      case Chunk(source, text) => Received(h, st, source, text)
      case End(source) => Finished(h, st, source)
  }

  /** All that one stream carried. */
  function Stream(turns: seq<Turn>, source: Source): string {
    if turns == [] then ""
    else Stream(turns[..|turns| - 1], source) + Carried(turns[|turns| - 1], source)
  }

  function Carried(turn: Turn, source: Source): string {
    if turn.Chunk? && turn.source == source then turn.text else ""
  }

  /** What one stream put into the log. */
  function From<U>(log: seq<Logged<U>>, source: Source): seq<Entry<U>> {
    if log == [] then []
    else
      var last := log[|log| - 1];
      From(log[..|log| - 1], source) + (if last.source == source then [last.entry] else [])
  }

  predicate Open(turns: seq<Turn>, source: Source) {
    End(source) !in turns
  }

  /** The stream ended once, and nothing of it came later. */
  predicate Ended(turns: seq<Turn>, source: Source) {
    turns != [] &&
    var before := turns[..|turns| - 1];
    if turns[|turns| - 1].source == source then turns[|turns| - 1].End? && Open(before, source)
    else Ended(before, source)
  }

  lemma {:induction false} FromTagged<U>(log: seq<Logged<U>>, tag: Source, entries: seq<Entry<U>>, source: Source)
    ensures From(log + Tagged(tag, entries), source) == From(log, source) + if tag == source then entries else []
    decreases |entries|
  {
    var tagged := Tagged(tag, entries);
    if entries == [] {
      assert log + tagged == log;
    } else {
      var n := |entries| - 1;
      assert (log + tagged)[..|log| + n] == log + Tagged(tag, entries[..n]);
      FromTagged(log, tag, entries[..n], source);
      assert entries == entries[..n] + [entries[n]];
    }
  }

  lemma {:induction false} AllEntriesConcat<U>(h: Handler<U>, a: seq<string>, b: seq<string>)
    ensures AllEntries(h, a + b) == AllEntries(h, a) + AllEntries(h, b)
    decreases |b|
  {
    if b == [] {
      assert a + b == a;
    } else {
      var n := |b| - 1;
      assert (a + b)[..|a| + n] == a + b[..n];
      AllEntriesConcat(h, a, b[..n]);
      Associative(AllEntries(h, a), AllEntries(h, b[..n]), Entries(h, b[n]));
    }
  }

  /** One stream has logged exactly the complete lines of `text`, and the rest of it is pending. */
  predicate Framed<U(==)>(h: Handler<U>, st: Framing<U>, source: Source, text: string) {
    From(st.log, source) == AllEntries(h, Split(text).lines) && st.Pending(source) == Split(text).residue
  }

  lemma AdvanceOther<U>(st: Framing<U>, source: Source, pending: string, entries: seq<Entry<U>>)
    ensures var st' := st.Advance(source, pending, entries);
            && From(st'.log, source) == From(st.log, source) + entries && st'.Pending(source) == pending
            && forall other :: other != source ==>
                 From(st'.log, other) == From(st.log, other) && st'.Pending(other) == st.Pending(other)
  {
    forall any: Source {
      FromTagged(st.log, source, entries, any);
    }
  }

  lemma ReceivedIsFramed<U>(h: Handler<U>, st: Framing<U>, source: Source, text: string, chunk: string)
    requires Framed(h, st, source, text)
    ensures Framed(h, Received(h, st, source, chunk), source, text + chunk)
  {
    var cut := Split(st.Pending(source) + chunk);
    SplitConcat(text, chunk);
    AdvanceOther(st, source, cut.residue, AllEntries(h, cut.lines));
    AllEntriesConcat(h, Split(text).lines, cut.lines);
  }

  lemma OtherStreamIsUntouched<U>(h: Handler<U>, turns: seq<Turn>, source: Source)
    requires turns != [] && turns[|turns| - 1].source != source
    ensures var before := turns[..|turns| - 1];
            && From(Run(h, turns).log, source) == From(Run(h, before).log, source)
            && Run(h, turns).Pending(source) == Run(h, before).Pending(source)
            && Stream(turns, source) == Stream(before, source)
  {
    var st := Run(h, turns[..|turns| - 1]);
    match turns[|turns| - 1] {
      case Chunk(other, chunk) =>
        var cut := Split(st.Pending(other) + chunk);
        AdvanceOther(st, other, cut.residue, AllEntries(h, cut.lines));
      case End(other) =>
        AdvanceOther(st, other, st.Pending(other), Plain(h, st.Pending(other)));
    }
  }

  /** However the streams are cut into chunks and however their chunks interleave, each stream has logged
      exactly the complete lines of its text so far, and holds back the rest. */
  lemma {:induction false} FramingIgnoresChunks<U>(h: Handler<U>, turns: seq<Turn>, source: Source)
    requires Open(turns, source)
    ensures Framed(h, Run(h, turns), source, Stream(turns, source))
    decreases |turns|
  {
    if turns != [] {
      var before, turn := turns[..|turns| - 1], turns[|turns| - 1];
      FramingIgnoresChunks(h, before, source);
      if turn.source == source {
        ReceivedIsFramed(h, Run(h, before), source, Stream(before, source), turn.text);
      } else {
        OtherStreamIsUntouched(h, turns, source);
      }
    }
  }

  /** A stream that has ended has logged what splitting its whole text once gives. */
  lemma {:induction false} WholeStreamIsLogged<U>(h: Handler<U>, turns: seq<Turn>, source: Source)
    requires Ended(turns, source)
    ensures var cut := Split(Stream(turns, source));
            From(Run(h, turns).log, source) == AllEntries(h, cut.lines) + Plain(h, cut.residue)
    decreases |turns|
  {
    var before := turns[..|turns| - 1];
    if turns[|turns| - 1].source == source {
      var st := Run(h, before);
      FramingIgnoresChunks(h, before, source);
      AdvanceOther(st, source, st.Pending(source), Plain(h, st.Pending(source)));
      assert Stream(turns, source) == Stream(before, source);
    } else {
      WholeStreamIsLogged(h, before, source);
      OtherStreamIsUntouched(h, turns, source);
    }
  }

  // ----- What becomes of each line --------------------------------------------------------------

  /** The lines, the updates and the complaints among the entries, each in order. */
  function Texts<U>(entries: seq<Entry<U>>): seq<string> {
    if entries == [] then []
    else Texts(entries[..|entries| - 1]) +
         match entries[|entries| - 1] { case Line(text) => [text] case _ => [] }
  }

  function Updates<U>(entries: seq<Entry<U>>): seq<U> {
    if entries == [] then []
    else Updates(entries[..|entries| - 1]) +
         match entries[|entries| - 1] { case Stage(update) => [update] case _ => [] }
  }

  function Messages<U>(entries: seq<Entry<U>>): seq<string> {
    if entries == [] then []
    else Messages(entries[..|entries| - 1]) +
         match entries[|entries| - 1] { case Progress(message) => [message] case _ => [] }
  }

  /** The lines that are no events and not blank, redacted. */
  function Redacted<U>(h: Handler<U>, lines: seq<string>): seq<string> {
    if lines == [] then []
    else
      var line := lines[|lines| - 1];
      Redacted(h, lines[..|lines| - 1]) + (if h.parse(line).Event? || h.blank(line) then [] else [h.redact(line)])
  }

  function EventsIn<U>(h: Handler<U>, lines: seq<string>): seq<U> {
    if lines == [] then []
    else
      var parsed := h.parse(lines[|lines| - 1]);
      EventsIn(h, lines[..|lines| - 1]) + (if parsed.Event? then [parsed.update] else [])
  }

  function ComplaintsIn<U>(h: Handler<U>, lines: seq<string>): seq<string> {
    if lines == [] then []
    else
      var parsed := h.parse(lines[|lines| - 1]);
      ComplaintsIn(h, lines[..|lines| - 1]) + (if parsed.Invalid? then [parsed.message] else [])
  }

  lemma OneMore<U>(entries: seq<Entry<U>>, e: Entry<U>)
    ensures Texts(entries + [e]) == Texts(entries) + (if e.Line? then [e.text] else [])
    ensures Updates(entries + [e]) == Updates(entries) + (if e.Stage? then [e.update] else [])
    ensures Messages(entries + [e]) == Messages(entries) + (if e.Progress? then [e.message] else [])
  {
    assert (entries + [e])[..|entries|] == entries;
  }

  lemma {:induction false} KindsConcat<U>(a: seq<Entry<U>>, b: seq<Entry<U>>)
    ensures Texts(a + b) == Texts(a) + Texts(b)
    ensures Updates(a + b) == Updates(a) + Updates(b)
    ensures Messages(a + b) == Messages(a) + Messages(b)
    decreases |b|
  {
    if b == [] {
      assert a + b == a;
    } else {
      var front, e := b[..|b| - 1], b[|b| - 1];
      KindsConcat(a, front);
      assert b == front + [e] && a + b == (a + front) + [e];
      OneMore(a + front, e);
      OneMore(front, e);
    }
  }

  /** What one line yields. */
  lemma LineByKind<U>(h: Handler<U>, line: string)
    ensures Texts(Entries(h, line)) == if h.parse(line).Event? || h.blank(line) then [] else [h.redact(line)]
    ensures Updates(Entries(h, line)) == if h.parse(line).Event? then [h.parse(line).update] else []
    ensures Messages(Entries(h, line)) == if h.parse(line).Invalid? then [h.parse(line).message] else []
  {
    PlainByKind(h, line);
    match h.parse(line) {
      case Event(update) => OneMore<U>([], Stage(update)); assert [] + [Stage(update)] == [Entry<U>.Stage(update)];
      case NoEvent =>
      case Invalid(message) =>
        OneMore<U>([], Progress(message));
        assert [] + [Progress(message)] == [Entry<U>.Progress(message)];
        KindsConcat([Entry<U>.Progress(message)], Plain(h, line));
    }
  }

  lemma PlainByKind<U>(h: Handler<U>, line: string)
    ensures Texts(Plain(h, line)) == if h.blank(line) then [] else [h.redact(line)]
    ensures Updates(Plain(h, line)) == [] && Messages(Plain(h, line)) == []
  {
    OneMore<U>([], Line(h.redact(line)));
    assert [] + [Line(h.redact(line))] == [Entry<U>.Line(h.redact(line))];
  }

  lemma {:induction false} LinesByKind<U>(h: Handler<U>, lines: seq<string>)
    ensures Texts(AllEntries(h, lines)) == Redacted(h, lines)
    ensures Updates(AllEntries(h, lines)) == EventsIn(h, lines)
    ensures Messages(AllEntries(h, lines)) == ComplaintsIn(h, lines)
  {
    if lines != [] {
      var front, line := lines[..|lines| - 1], lines[|lines| - 1];
      LinesByKind(h, front);
      LineByKind(h, line);
      KindsConcat(AllEntries(h, front), Entries(h, line));
    }
  }

  /** Main result: a stream that has ended, however it was cut and interleaved, has logged exactly its lines that
      are no events and not blank, redacted and in order; its events as updates; and a complaint for each
      malformed one.  An unfinished last line counts as a line, and never as an event. */
  lemma StreamIsLoggedByKind<U>(h: Handler<U>, turns: seq<Turn>, source: Source)
    requires Ended(turns, source)
    ensures var cut, entries := Split(Stream(turns, source)), From(Run(h, turns).log, source);
            && Texts(entries) ==
               Redacted(h, cut.lines) + (if h.blank(cut.residue) then [] else [h.redact(cut.residue)])
            && Updates(entries) == EventsIn(h, cut.lines) && Messages(entries) == ComplaintsIn(h, cut.lines)
  {
    var cut := Split(Stream(turns, source));
    WholeStreamIsLogged(h, turns, source);
    LinesByKind(h, cut.lines);
    PlainByKind(h, cut.residue);
    KindsConcat(AllEntries(h, cut.lines), Plain(h, cut.residue));
  }
}
