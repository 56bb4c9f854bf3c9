/** Canonical chunk order for icns files (normalizeIcns in scripts/generate-app-icons.ts). */
module Icns {

  newtype Byte = b: int | 0 <= b < 256
  type Bytes = seq<Byte>

  const MAGIC: Bytes := [105, 99, 110, 115]
  const LIMIT := 0x1_0000_0000

  /** readUInt32BE. */
  function Read32(b: Bytes, i: nat): nat
    requires i + 4 <= |b|
  {
    (b[i] as int) * 0x100_0000 + (b[i + 1] as int) * 0x1_0000 + (b[i + 2] as int) * 0x100 + (b[i + 3] as int)
  }

  /** writeUInt32BE. */
  function Write32(n: nat): (r: Bytes)
    requires n < LIMIT
    ensures |r| == 4
  {
    var high, low := n / 0x1_0000, n % 0x1_0000;
    [(high / 0x100) as Byte, (high % 0x100) as Byte, (low / 0x100) as Byte, (low % 0x100) as Byte]
  }

  lemma Written32Reads(n: nat)
    requires n < LIMIT
    ensures Read32(Write32(n), 0) == n
  {
    var high, low := n / 0x1_0000, n % 0x1_0000;
    assert high == high / 0x100 * 0x100 + high % 0x100;
    assert low == low / 0x100 * 0x100 + low % 0x100;
  }

  /** Four bytes as 'ascii' text, as a number: decoding drops the high bit, and four-character
      strings compare like four-digit numbers. */
  function Key(b: Bytes, i: nat): nat
    requires i + 4 <= |b|
  {
    (b[i] as int % 128) * 2097152 + (b[i + 1] as int % 128) * 16384
    + (b[i + 2] as int % 128) * 128 + b[i + 3] as int % 128
  }

  predicate IsIcns(b: Bytes) {
    |b| >= 4 && Key(b, 0) == Key(MAGIC, 0)
  }

  /** A character of 'ascii' text. */
  function Letter(b: Bytes, i: nat): nat
    requires i < |b|
  {
    b[i] as int % 128
  }

  /** The first `count` letters of two types agree. */
  predicate Agree(a: Bytes, b: Bytes, count: nat)
    requires count <= |a| && count <= |b|
  {
    forall k: nat | k < count :: Letter(a, k) == Letter(b, k)
  }

  /** Types are compared letter by letter, the first difference deciding. */
  lemma KeysCompareAsText(a: Bytes, b: Bytes)
    requires |a| >= 4 && |b| >= 4
    ensures Key(a, 0) == Key(b, 0) <==> Agree(a, b, 4)
    ensures Key(a, 0) < Key(b, 0) <==> exists k: nat | k < 4 :: Agree(a, b, k) && Letter(a, k) < Letter(b, k)
  {
    var k: nat :=
      if Letter(a, 0) != Letter(b, 0) then 0
      else if Letter(a, 1) != Letter(b, 1) then 1
      else if Letter(a, 2) != Letter(b, 2) then 2
      else if Letter(a, 3) != Letter(b, 3) then 3
      else 4;
    assert Agree(a, b, k);
    if k < 4 {
      assert Key(a, 0) < Key(b, 0) <==> Letter(a, k) < Letter(b, k);
      forall j: nat | j < 4 && Agree(a, b, j) && Letter(a, j) < Letter(b, j) ensures j == k {
      }
    }
  }

  /** The type and all the bytes of a chunk, its own header included. */
  datatype Chunk = Chunk(key: nat, data: Bytes)

  /** A chunk as it lies in a file: type, total length, data. */
  predicate Whole(c: Chunk) {
    |c.data| >= 8 && Read32(c.data, 4) == |c.data| && c.key == Key(c.data, 0)
  }

  predicate AllWhole(chunks: seq<Chunk>) {
    forall c :: c in chunks ==> Whole(c)
  }

  // ----- Sequences -----------------------------------------------------------------------

  lemma Associative<T>(a: seq<T>, b: seq<T>, c: seq<T>)
    ensures (a + b) + c == a + (b + c)
  {
  }

  lemma Consed<T>(x: T, s: seq<T>)
    ensures ([x] + s)[1..] == s
  {
  }

  lemma HeadAndTail<T>(s: seq<T>)
    requires s != []
    ensures s == [s[0]] + s[1..] && multiset(s) == multiset{s[0]} + multiset(s[1..])
  {
    assert s == [s[0]] + s[1..];
  }

  // ----- Parsing ---------------------------------------------------------------------------

  datatype Parsed = Malformed | Chunks(chunks: seq<Chunk>, end: nat)

  function ChunkAt(b: Bytes, offset: nat): Chunk
    requires offset + 8 <= |b| && 8 <= Read32(b, offset + 4) <= |b| - offset
  {
    Chunk(Key(b, offset), b[offset..offset + Read32(b, offset + 4)])
  }

  function Parse(b: Bytes, offset: nat): Parsed
    decreases |b| - offset
  {
    if offset + 8 > |b| then Chunks([], offset)
    else
      var length := Read32(b, offset + 4);
      if length < 8 || offset + length > |b| then Malformed
      else Precede(ChunkAt(b, offset), Parse(b, offset + length))
  }

  function Precede(c: Chunk, p: Parsed): Parsed {
    match p
    case Malformed => Malformed
    case Chunks(rest, end) => Chunks([c] + rest, end)
  }

  function Concat(chunks: seq<Chunk>): Bytes {
    if chunks == [] then [] else chunks[0].data + Concat(chunks[1..])
  }

  // ----- Sorting: the library's stable sort by type ----------------------------------------

  function Insert(c: Chunk, sorted: seq<Chunk>): seq<Chunk> {
    if sorted == [] || c.key <= sorted[0].key then [c] + sorted
    else [sorted[0]] + Insert(c, sorted[1..])
  }

  function Sorted(chunks: seq<Chunk>): seq<Chunk> {
    if chunks == [] then [] else Insert(chunks[0], Sorted(chunks[1..]))
  }

  // ----- Normalising -----------------------------------------------------------------------

  datatype Outcome = LeftAlone | Written(bytes: Bytes) | TooLarge

  function Assemble(chunks: seq<Chunk>): Outcome {
    var body := Concat(chunks);
    if |body| + 8 < LIMIT then Written(MAGIC + Write32(|body| + 8) + body) else TooLarge
  }

  function Normalized(b: Bytes): Outcome {
    if !IsIcns(b) then LeftAlone
    else match Parse(b, 8)
      case Malformed => LeftAlone
      case Chunks(chunks, _) => Assemble(Sorted(chunks))
  }

  /** The chunks found before offset are the first of all that parsing finds. */
  predicate Collected(b: Bytes, chunks: seq<Chunk>, offset: nat) {
    Parse(b, 8) ==
    match Parse(b, offset)
    case Malformed => Malformed
    case Chunks(rest, end) => Chunks(chunks + rest, end)
  }

  lemma ParseAdvances(b: Bytes, chunks: seq<Chunk>, offset: nat)
    requires offset + 8 <= |b| && 8 <= Read32(b, offset + 4) <= |b| - offset && Collected(b, chunks, offset)
    ensures Collected(b, chunks + [ChunkAt(b, offset)], offset + Read32(b, offset + 4))
  {
    var p := Parse(b, offset + Read32(b, offset + 4));
    if p.Chunks? {
      Associative(chunks, [ChunkAt(b, offset)], p.chunks);
    }
  }

  method NormalizeIcns(b: Bytes) returns (r: Outcome)
    ensures r == Normalized(b)
  {
    if !IsIcns(b) {
      return LeftAlone;
    }
    var chunks: seq<Chunk> := [];
    var offset := 8;
    while offset + 8 <= |b|
      invariant Collected(b, chunks, offset)
      decreases |b| - offset
    {
      var length := Read32(b, offset + 4);
      if length < 8 || offset + length > |b| {
        return LeftAlone;
      }
      ParseAdvances(b, chunks, offset);
      chunks := chunks + [ChunkAt(b, offset)];
      offset := offset + length;
    }
    assert chunks + [] == chunks;
    chunks := Sorted(chunks);
    var body := Concat(chunks);
    if |body| + 8 >= LIMIT {
      return TooLarge;
    }
    return Written(MAGIC + Write32(|body| + 8) + body);
  }

  // ----- Laws of the sort --------------------------------------------------------------------

  /** The chunks of one type, in order. */
  function OfKey(chunks: seq<Chunk>, key: nat): seq<Chunk> {
    if chunks == [] then []
    else if chunks[0].key == key then [chunks[0]] + OfKey(chunks[1..], key)
    else OfKey(chunks[1..], key)
  }

  predicate AtLeast(chunks: seq<Chunk>, key: nat) {
    forall c :: c in chunks ==> key <= c.key
  }

  predicate Ascending(chunks: seq<Chunk>) {
    chunks != [] ==> AtLeast(chunks[1..], chunks[0].key) && Ascending(chunks[1..])
  }

  lemma {:induction false} InsertPermutes(c: Chunk, sorted: seq<Chunk>)
    ensures multiset(Insert(c, sorted)) == multiset{c} + multiset(sorted)
  {
    if sorted != [] && c.key > sorted[0].key {
      InsertPermutes(c, sorted[1..]);
      HeadAndTail(sorted);
    }
  }

  lemma {:induction false} InsertAscends(c: Chunk, sorted: seq<Chunk>)
    requires Ascending(sorted)
    ensures Ascending(Insert(c, sorted))
  {
    if sorted != [] && c.key > sorted[0].key {
      InsertAscends(c, sorted[1..]);
      var tail := Insert(c, sorted[1..]);
      Consed(sorted[0], tail);
      InsertPermutes(c, sorted[1..]);
      forall d | d in tail ensures sorted[0].key <= d.key {
        assert d in multiset(tail);
      }
    } else {
      Consed(c, sorted);
      if sorted != [] {
        HeadAndTail(sorted);
      }
    }
  }

  lemma {:induction false} InsertIsStable(c: Chunk, sorted: seq<Chunk>, key: nat)
    ensures OfKey(Insert(c, sorted), key) == OfKey([c] + sorted, key)
  {
    Consed(c, sorted);
    if sorted != [] && c.key > sorted[0].key {
      InsertIsStable(c, sorted[1..], key);
      Consed(c, sorted[1..]);
      Consed(sorted[0], Insert(c, sorted[1..]));
    }
  }

  /** The sort orders by type, loses and invents nothing, and is stable: the chunks of each type keep
      their order, in particular their first. */
  lemma {:induction false} SortLaw(chunks: seq<Chunk>, key: nat)
    ensures Ascending(Sorted(chunks)) && multiset(Sorted(chunks)) == multiset(chunks)
    ensures OfKey(Sorted(chunks), key) == OfKey(chunks, key)
  {
    if chunks != [] {
      SortLaw(chunks[1..], key);
      var sorted := Sorted(chunks[1..]);
      InsertAscends(chunks[0], sorted);
      InsertPermutes(chunks[0], sorted);
      InsertIsStable(chunks[0], sorted, key);
      Consed(chunks[0], sorted);
      HeadAndTail(chunks);
    }
  }

  lemma {:induction false} SortOfSorted(chunks: seq<Chunk>)
    requires Ascending(chunks)
    ensures Sorted(chunks) == chunks
  {
    if chunks != [] {
      SortOfSorted(chunks[1..]);
      HeadAndTail(chunks);
      assert chunks[1..] != [] ==> chunks[1..][0] in chunks[1..];
    }
  }

  // ----- Laws of parsing -----------------------------------------------------------------------

  /** What is parsed are whole chunks, which make up the buffer up to where parsing ends. */
  lemma {:induction false} ParseCovers(b: Bytes, offset: nat)
    requires offset <= |b| && Parse(b, offset).Chunks?
    ensures var p := Parse(b, offset);
            AllWhole(p.chunks) && p.end == offset + |Concat(p.chunks)| && p.end <= |b| < p.end + 8
    decreases |b| - offset
  {
    if offset + 8 <= |b| {
      var c := ChunkAt(b, offset);
      ChunkIsWhole(b, offset);
      var rest := Parse(b, offset + |c.data|);
      ParseCovers(b, offset + |c.data|);
      Consed(c, rest.chunks);
    }
  }

  lemma ChunkIsWhole(b: Bytes, offset: nat)
    requires offset + 8 <= |b| && 8 <= Read32(b, offset + 4) <= |b| - offset
    ensures Whole(ChunkAt(b, offset))
  {
  }

  predicate LiesAt(b: Bytes, offset: nat, c: Chunk) {
    offset + 8 <= |b| && 8 <= Read32(b, offset + 4) <= |b| - offset && ChunkAt(b, offset) == c
  }

  /** The chunks lie in the buffer one after the other, up to `end`. */
  predicate Fill(b: Bytes, offset: nat, chunks: seq<Chunk>, end: nat)
    decreases |chunks|
  {
    if chunks == [] then offset == end
    else LiesAt(b, offset, chunks[0]) && Fill(b, offset + |chunks[0].data|, chunks[1..], end)
  }

  /** Such chunks are parsed, when too few bytes lie behind them for another header. */
  lemma {:induction false} FilledIsParsed(b: Bytes, offset: nat, chunks: seq<Chunk>, end: nat)
    requires Fill(b, offset, chunks, end) && |b| < end + 8
    ensures Parse(b, offset) == Chunks(chunks, end)
    decreases |chunks|
  {
    if chunks != [] {
      FilledIsParsed(b, offset + |chunks[0].data|, chunks[1..], end);
      HeadAndTail(chunks);
    }
  }

  /** And what is parsed lies in the buffer. */
  lemma {:induction false} ParsedFills(b: Bytes, offset: nat)
    requires Parse(b, offset).Chunks?
    ensures var p := Parse(b, offset); Fill(b, offset, p.chunks, p.end) && |b| < p.end + 8
    decreases |b| - offset
  {
    if offset + 8 <= |b| {
      var c := ChunkAt(b, offset);
      ParsedFills(b, offset + |c.data|);
      Consed(c, Parse(b, offset + |c.data|).chunks);
    }
  }

  lemma {:induction false} ConcatFills(b: Bytes, prefix: Bytes, at: nat, chunks: seq<Chunk>)
    requires AllWhole(chunks) && b == prefix + Concat(chunks) && at == |prefix|
    ensures Fill(b, at, chunks, |b|)
    decreases |chunks|
  {
    if chunks == [] {
      FillsNothing(b);
    } else {
      var c, next := chunks[0], at + |chunks[0].data|;
      FirstChunk(b, prefix, c, Concat(chunks[1..]));
      ConcatFills(b, prefix + c.data, next, chunks[1..]);
      FillsOneMore(b, at, chunks, next);
    }
  }

  lemma FillsNothing(b: Bytes)
    ensures Fill(b, |b|, [], |b|)
  {
  }

  lemma FillsOneMore(b: Bytes, at: nat, chunks: seq<Chunk>, next: nat)
    requires chunks != [] && next == at + |chunks[0].data|
    ensures LiesAt(b, at, chunks[0]) && Fill(b, next, chunks[1..], |b|) ==> Fill(b, at, chunks, |b|)
  {
  }

  /** Parsing a concatenation of chunks gives the chunks back. */
  lemma ParseUndoesConcat(b: Bytes, prefix: Bytes, chunks: seq<Chunk>)
    requires AllWhole(chunks) && b == prefix + Concat(chunks)
    ensures Parse(b, |prefix|) == Chunks(chunks, |b|)
  {
    ConcatFills(b, prefix, |prefix|, chunks);
    FilledIsParsed(b, |prefix|, chunks, |b|);
  }

  lemma FirstChunk(b: Bytes, prefix: Bytes, c: Chunk, rest: Bytes)
    requires Whole(c) && b == prefix + (c.data + rest)
    ensures LiesAt(b, |prefix|, c) && b == prefix + c.data + rest
  {
    ChunkIsRead(prefix, c, rest);
    Associative(prefix, c.data, rest);
  }

  lemma ChunkIsRead(prefix: Bytes, c: Chunk, rest: Bytes)
    requires Whole(c)
    ensures LiesAt(prefix + (c.data + rest), |prefix|, c)
  {
    var b := prefix + (c.data + rest);
    assert b[|prefix|..|prefix| + |c.data|] == c.data;
    forall k: nat | k < 8 ensures b[|prefix| + k] == c.data[k] {
    }
  }

  lemma {:induction false} InsertLength(c: Chunk, sorted: seq<Chunk>)
    ensures |Concat(Insert(c, sorted))| == |c.data| + |Concat(sorted)|
  {
    Consed(c, sorted);
    if sorted != [] && c.key > sorted[0].key {
      InsertLength(c, sorted[1..]);
      Consed(sorted[0], Insert(c, sorted[1..]));
    }
  }

  lemma {:induction false} SortKeepsLength(chunks: seq<Chunk>)
    ensures |Concat(Sorted(chunks))| == |Concat(chunks)|
  {
    if chunks != [] {
      SortKeepsLength(chunks[1..]);
      InsertLength(chunks[0], Sorted(chunks[1..]));
    }
  }

  // ----- Main results --------------------------------------------------------------------------

  /** The chunks tile the body exactly. */
  predicate Tiles(b: Bytes) {
    |b| >= 8 && Parse(b, 8).Chunks? && Parse(b, 8).end == |b|
  }

  /** Main result: what becomes of a file.  It is an icns file by its first four letters; if chunks lie
      behind its header one after the other, they are written in order, and what is too short to be
      another goes. */
  lemma FilledIsWritten(b: Bytes, chunks: seq<Chunk>, end: nat)
    requires |b| >= 8 && Agree(b, MAGIC, 4) && Fill(b, 8, chunks, end) && |b| < end + 8
    ensures |Concat(Sorted(chunks))| == end - 8
    ensures Normalized(b) ==
            if end < LIMIT then Written(MAGIC + Write32(end) + Concat(Sorted(chunks))) else TooLarge
  {
    KeysCompareAsText(b, MAGIC);
    FilledIsParsed(b, 8, chunks, end);
    SortKeepsLength(chunks);
    ParseCovers(b, 8);
    assert Normalized(b) == Assemble(Sorted(chunks));
    AssembledIs(Sorted(chunks), end);
  }

  lemma AssembledIs(chunks: seq<Chunk>, end: nat)
    requires |Concat(chunks)| + 8 == end
    ensures Assemble(chunks) ==
            if end < LIMIT then Written(MAGIC + Write32(end) + Concat(chunks)) else TooLarge
  {
  }

  /** Behind the header there is nothing but chunks, up to the last seven bytes. */
  ghost predicate Readable(b: Bytes) {
    exists chunks, end: nat :: Fill(b, 8, chunks, end) && |b| < end + 8
  }

  /** And exactly the other files are left alone. */
  lemma LeftAloneIff(b: Bytes)
    ensures Normalized(b) == LeftAlone <==>
            |b| < 4 || !Agree(b, MAGIC, 4) || (|b| >= 8 && !Readable(b))
  {
    if |b| >= 4 {
      KeysCompareAsText(b, MAGIC);
      if Readable(b) {
        ReadableIsParsed(b);
      } else if |b| >= 8 && Parse(b, 8).Chunks? {
        ParsedIsReadable(b);
      }
    }
  }

  lemma ReadableIsParsed(b: Bytes)
    requires Readable(b)
    ensures Parse(b, 8).Chunks?
  {
    var chunks, end: nat :| Fill(b, 8, chunks, end) && |b| < end + 8;
    FilledIsParsed(b, 8, chunks, end);
  }

  lemma ParsedIsReadable(b: Bytes)
    requires Parse(b, 8).Chunks?
    ensures Readable(b)
  {
    ParsedFills(b, 8);
  }

  /** Whatever is written parses back to the parsed chunks in ascending, stable order. */
  lemma WrittenIsCanonical(b: Bytes, out: Bytes, key: nat)
    ensures Normalized(b) == Written(out) ==>
              && Parse(b, 8).Chunks?
              && var chunks := Parse(b, 8).chunks;
                 && Parse(out, 8) == Chunks(Sorted(chunks), |out|)
                 && multiset(Sorted(chunks)) == multiset(chunks) && Ascending(Sorted(chunks))
                 && OfKey(Sorted(chunks), key) == OfKey(chunks, key)
  {
    if Normalized(b) == Written(out) {
      var chunks := Parse(b, 8).chunks;
      SortLaw(chunks, key);
      ParsedAreWhole(b);
      SortedAreWhole(chunks);
      AssembledParses(Sorted(chunks));
    }
  }

  lemma ParsedAreWhole(b: Bytes)
    requires Parse(b, 8).Chunks?
    ensures AllWhole(Parse(b, 8).chunks)
  {
    if |b| >= 8 {
      ParseCovers(b, 8);
    }
  }

  lemma AssembledParses(chunks: seq<Chunk>)
    requires AllWhole(chunks) && Assemble(chunks).Written?
    ensures var out := Assemble(chunks).bytes; Parse(out, 8) == Chunks(chunks, |out|)
  {
    ParseUndoesConcat(Assemble(chunks).bytes, MAGIC + Write32(|Concat(chunks)| + 8), chunks);
  }

  /** The length is kept exactly when the chunks tile the buffer, otherwise fewer than eight trailing bytes
      are lost (and a file cut off inside its header is padded to a bare header). */
  lemma LengthIsKeptByTiles(b: Bytes, out: Bytes)
    ensures Normalized(b) == Written(out) ==>
              if |b| < 8 then |out| == 8 else |out| <= |b| < |out| + 8 && (|out| == |b| <==> Tiles(b))
  {
    if Normalized(b) == Written(out) {
      SortKeepsLength(Parse(b, 8).chunks);
      if |b| >= 8 {
        ParseCovers(b, 8);
      }
    }
  }

  lemma SortedAreWhole(chunks: seq<Chunk>)
    requires AllWhole(chunks)
    ensures AllWhole(Sorted(chunks))
  {
    SortLaw(chunks, 0);
    forall c | c in Sorted(chunks) ensures Whole(c) {
      assert c in multiset(Sorted(chunks));
    }
  }

  /** For instance, up to seven bytes behind a bare header are dropped without notice. */
  lemma TrailingBytesAreLost(tail: Bytes)
    requires 0 < |tail| < 8
    ensures var header := MAGIC + Write32(8);
            Normalized(header + tail) == Written(header) && !Tiles(header + tail)
  {
    var b, size := MAGIC + Write32(8) + tail, Write32(8);
    HeaderIsRead(size, tail);
    assert Parse(b, 8) == Chunks([], 8);
    assert Concat(Sorted([])) == [] && MAGIC + size + [] == MAGIC + size;
  }

  /** What is written is an icns file whose header states its own length. */
  lemma HeaderIsRight(b: Bytes, out: Bytes)
    ensures Normalized(b) == Written(out) ==> |out| >= 8 && IsIcns(out) && Read32(out, 4) == |out|
  {
    if Normalized(b) == Written(out) {
      var body := Concat(Sorted(Parse(b, 8).chunks));
      var size := Write32(|body| + 8);
      assert out == MAGIC + size + body;
      HeaderIsRead(size, body);
      Written32Reads(|body| + 8);
    }
  }

  lemma HeaderIsRead(size: Bytes, body: Bytes)
    requires |size| == 4
    ensures IsIcns(MAGIC + size + body) && Read32(MAGIC + size + body, 4) == Read32(size, 0)
  {
    var out := MAGIC + size + body;
    forall k: nat | k < 4 ensures out[k] == MAGIC[k] && out[4 + k] == size[k] {
    }
  }

  /** Normalising what was normalised changes nothing. */
  lemma NormalizingIsIdempotent(b: Bytes, out: Bytes)
    ensures Normalized(b) == Written(out) ==> Normalized(out) == Written(out)
  {
    if Normalized(b) == Written(out) {
      WrittenIsCanonical(b, out, 0);
      HeaderIsRight(b, out);
      SortOfSorted(Sorted(Parse(b, 8).chunks));
    }
  }

  predicate DistinctTypes(chunks: seq<Chunk>) {
    chunks != [] ==> (forall c :: c in chunks[1..] ==> c.key != chunks[0].key) && DistinctTypes(chunks[1..])
  }

  lemma {:induction false} InsertKeepsDistinct(c: Chunk, sorted: seq<Chunk>)
    requires DistinctTypes(sorted) && forall d :: d in sorted ==> d.key != c.key
    ensures DistinctTypes(Insert(c, sorted))
  {
    Consed(c, sorted);
    if sorted != [] && c.key > sorted[0].key {
      InsertKeepsDistinct(c, sorted[1..]);
      InsertPermutes(c, sorted[1..]);
      var tail := Insert(c, sorted[1..]);
      Consed(sorted[0], tail);
      forall d | d in tail ensures d.key != sorted[0].key {
        assert d in multiset(tail);
      }
    }
  }

  lemma {:induction false} SortKeepsDistinct(chunks: seq<Chunk>)
    requires DistinctTypes(chunks)
    ensures DistinctTypes(Sorted(chunks))
  {
    if chunks != [] {
      SortKeepsDistinct(chunks[1..]);
      SortLaw(chunks[1..], 0);
      forall d | d in Sorted(chunks[1..]) ensures d.key != chunks[0].key {
        assert d in multiset(Sorted(chunks[1..]));
      }
      InsertKeepsDistinct(chunks[0], Sorted(chunks[1..]));
    }
  }

  lemma {:induction false} AscendingIsUnique(a: seq<Chunk>, b: seq<Chunk>)
    requires Ascending(a) && Ascending(b) && DistinctTypes(a) && multiset(a) == multiset(b)
    ensures a == b
    decreases |a|
  {
    SameLength(a, b);
    if a != [] {
      SameFirst(a, b);
      HeadAndTail(a);
      HeadAndTail(b);
      assert multiset(a[1..]) == multiset(a) - multiset{a[0]};
      assert multiset(b[1..]) == multiset(b) - multiset{b[0]};
      AscendingIsUnique(a[1..], b[1..]);
    }
  }

  lemma SameLength(a: seq<Chunk>, b: seq<Chunk>)
    requires multiset(a) == multiset(b)
    ensures |a| == |b|
  {
    assert |multiset(a)| == |a| && |multiset(b)| == |b|;
  }

  lemma SameFirst(a: seq<Chunk>, b: seq<Chunk>)
    requires a != [] && Ascending(a) && Ascending(b) && DistinctTypes(a) && multiset(a) == multiset(b)
    ensures b != [] && a[0] == b[0]
  {
    assert a[0] in multiset(b);
    assert b[0] in multiset(a);
    HeadAndTail(a);
    HeadAndTail(b);
  }

  /** Two files with the same chunks of distinct types, in whatever order, become the same bytes. */
  lemma OrderDoesNotMatter(b: Bytes, c: Bytes)
    ensures IsIcns(b) && IsIcns(c) && SameDistinctChunks(Parse(b, 8), Parse(c, 8)) ==> Normalized(b) == Normalized(c)
  {
    var p, q := Parse(b, 8), Parse(c, 8);
    if SameDistinctChunks(p, q) {
      SortLaw(p.chunks, 0);
      SortLaw(q.chunks, 0);
      SortKeepsDistinct(p.chunks);
      AscendingIsUnique(Sorted(p.chunks), Sorted(q.chunks));
    }
  }

  predicate SameDistinctChunks(p: Parsed, q: Parsed) {
    p.Chunks? && q.Chunks? && multiset(p.chunks) == multiset(q.chunks) && DistinctTypes(p.chunks)
  }
}
