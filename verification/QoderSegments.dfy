/** Incremental reading of append-only Qoder segments through a shared cache
    (src/codex_cli_monitor/qoder_state.py, `read_qoder_segment_state`, `_read_append`). */
module QoderSegments {
  import opened Sequences
  import opened Lines
  import opened QoderTurn

  const MAX_INITIAL_SCAN_BYTES := 8 * 1024 * 1024
  const MAX_INCREMENTAL_READ_BYTES := 1024 * 1024
  const MAX_EVENT_LINE_BYTES := 4 * 1024 * 1024
  const MAX_CACHE_ENTRIES := 256

  /** JSON decoding of one nonempty line without NUL bytes. */
  type Decoder = seq<Byte> -> Option<Record>

  datatype Progress = Progress(offset: nat, carry: seq<Byte>, turn: Turn)

  const START := Progress(0, [], INITIAL)

  function RecordFromLine(decode: Decoder, line: seq<Byte>): Option<Record> {
    if line == [] || 0 in line then None else decode(line)
  }

  function FoldLines(decode: Decoder, s: Turn, lines: seq<seq<Byte>>): Turn {
    if lines == [] then s
    else
      var before := FoldLines(decode, s, Front(lines));
      match RecordFromLine(decode, Last(lines))
      case None => before
      case Some(r) => Apply(before, r)
  }

  /** A remainder that outgrows the line bound is dropped. */
  function BoundedCarry(rest: seq<Byte>): seq<Byte> {
    if |rest| > MAX_EVENT_LINE_BYTES then [] else rest
  }

  function Feed(decode: Decoder, p: Progress, chunk: seq<Byte>): Progress {
    var data := p.carry + chunk;
    Progress(p.offset + |chunk|, BoundedCarry(Rest(data)), FoldLines(decode, p.turn, Complete(data)))
  }

  // ---- the cache entry and the cache ------------------------------------------------------------

  class SegmentEntry {
    var device: int
    var inode: int
    var offset: nat
    var carry: seq<Byte>
    const parse: ParseState

    function Reached(): Progress
      reads this, parse
    {
      Progress(offset, carry, parse.State())
    }

    constructor (device: int, inode: int)
      ensures this.device == device && this.inode == inode && Reached() == START && fresh(parse)
    {
      this.device, this.inode, offset, carry := device, inode, 0, [];
      parse := new ParseState();
    }

    /** `_read_append` on the bytes the read returned; a failed or empty read returns none. */
    method ReadAppend(decode: Decoder, chunk: seq<Byte>)
      modifies this, parse
      ensures device == old(device) && inode == old(inode)
      ensures Reached() == if chunk == [] then old(Reached()) else Feed(decode, old(Reached()), chunk)
    {
      if chunk == [] {
        return;
      }
      offset := offset + |chunk|;
      var data := carry + chunk;
      var lines := Complete(data);
      carry := Rest(data);
      if |carry| > MAX_EVENT_LINE_BYTES {
        carry := [];
      }
      ghost var before, offset', carry' := parse.State(), offset, carry;
      for i := 0 to |lines|
        invariant parse.State() == FoldLines(decode, before, lines[..i])
        invariant offset == offset' && carry == carry' && device == old(device) && inode == old(inode)
      {
        assert Front(lines[..i + 1]) == lines[..i];
        var record := RecordFromLine(decode, lines[i]);
        if record.Some? {
          parse.ApplyRecord(record.value);
        }
      }
      assert lines[..|lines|] == lines;
    }
  }

  datatype Stat = Stat(device: int, inode: int, size: nat)

  /** Where one refresh stops reading: bounded per refresh, by the examined size, and by what the
      read returns. */
  function ReadUntil(offset: nat, firstRead: bool, size: nat, got: nat): (stop: nat)
    ensures offset <= stop && (offset <= size ==> stop <= size)
  {
    if size <= offset then offset
    else offset + Min(got, Min(if firstRead then MAX_INITIAL_SCAN_BYTES else MAX_INCREMENTAL_READ_BYTES, size - offset))
  }

  /** Every line and the unterminated remainder fit the line bound. */
  ghost predicate ShortLines(data: seq<Byte>) {
    (forall line <- Complete(data) :: |line| <= MAX_EVENT_LINE_BYTES) && |Rest(data)| <= MAX_EVENT_LINE_BYTES
  }

  /** Folding every complete line of the consumed prefix would give the same progress. */
  ghost predicate Exact(decode: Decoder, p: Progress, file: seq<Byte>) {
    && p.offset <= |file|
    && p.carry == Rest(file[..p.offset])
    && p.turn == FoldLines(decode, INITIAL, Complete(file[..p.offset]))
  }

  lemma {:induction false} FoldLinesConcat(decode: Decoder, s: Turn, a: seq<seq<Byte>>, b: seq<seq<Byte>>)
    ensures FoldLines(decode, s, a + b) == FoldLines(decode, FoldLines(decode, s, a), b)
  {
    if b == [] {
      assert a + b == a;
    } else {
      FoldLinesConcat(decode, s, a, Front(b));
      assert Front(a + b) == a + Front(b);
    }
  }

  lemma {:induction false} ShortPrefix(data: seq<Byte>, n: nat)
    requires ShortLines(data) && n <= |data|
    ensures ShortLines(data[..n])
  {
    if n == |data| {
      assert data[..n] == data;
    } else {
      var front := Front(data);
      assert front[..n] == data[..n];
      assert ShortLines(front) by {
        if Last(data) == NEWLINE {
          assert Complete(data) == Complete(front) + [Rest(front)];
          assert Last(Complete(data)) in Complete(data);
        }
      }
      ShortPrefix(front, n);
    }
  }

  /** Reading on keeps exactness, wherever the slices of the file fall. */
  lemma FeedExact(decode: Decoder, p: Progress, file: seq<Byte>, n: nat)
    requires Exact(decode, p, file) && p.offset <= n <= |file| && ShortLines(file)
    ensures Exact(decode, Feed(decode, p, file[p.offset..n]), file)
  {
    var seen, chunk := file[..p.offset], file[p.offset..n];
    assert file[..n] == seen + chunk;
    ShortPrefix(file, n);
    ReadOn(seen, chunk);
    FoldLinesConcat(decode, INITIAL, Complete(seen), Complete(Rest(seen) + chunk));
  }

  lemma ExactGrows(decode: Decoder, p: Progress, file: seq<Byte>, grown: seq<Byte>)
    requires Exact(decode, p, file) && file <= grown
    ensures Exact(decode, p, grown)
  {
    assert grown[..p.offset] == file[..p.offset];
  }

  lemma StartExact(decode: Decoder, file: seq<Byte>)
    ensures Exact(decode, START, file)
  {
    assert file[..0] == [];
  }

  /** What is promised for any file: the offset lies in it, and while its lines are short the progress is exact. */
  ghost predicate ExactIfShort(decode: Decoder, p: Progress, file: seq<Byte>) {
    p.offset <= |file| && (ShortLines(file) ==> Exact(decode, p, file))
  }

  /** Reading on to `stop`, if that is any further. */
  function ReadOnTo(decode: Decoder, p: Progress, file: seq<Byte>, stop: nat): Progress
    requires stop <= |file|
  {
    if stop <= p.offset then p else Feed(decode, p, file[p.offset..stop])
  }

  lemma GrowsIfShort(decode: Decoder, p: Progress, file: seq<Byte>, grown: seq<Byte>)
    requires ExactIfShort(decode, p, file) && file <= grown
    ensures ExactIfShort(decode, p, grown)
  {
    if ShortLines(grown) {
      ShortPrefix(grown, |file|);
      assert grown[..|file|] == file;
      ExactGrows(decode, p, file, grown);
    }
  }

  lemma ReadsOnIfShort(decode: Decoder, p: Progress, file: seq<Byte>, stop: nat)
    requires ExactIfShort(decode, p, file) && p.offset <= stop <= |file|
    ensures ExactIfShort(decode, ReadOnTo(decode, p, file, stop), file)
    ensures ReadOnTo(decode, p, file, stop).offset == stop
  {
    if ShortLines(file) {
      FeedExact(decode, p, file, stop);
    }
  }

  /** What one refresh shows: the progress is read on from where it was to `stop`, its turn is what is returned,
      and while the file's lines are short that is the fold of all complete lines up to there. */
  ghost predicate Shows(decode: Decoder, from: Progress, now: Progress, file: seq<Byte>, stop: nat, facts: Turn) {
    && stop <= |file| && now.offset == stop
    && now == ReadOnTo(decode, from, file, stop)
    && facts == now.turn
    && (ShortLines(file) ==> facts == FoldLines(decode, INITIAL, Complete(file[..stop])))
  }

  class SegmentReader {
    const decode: Decoder
    var cache: map<string, SegmentEntry>
    /** What each cached segment contained when it was last read. */
    ghost var contents: map<string, seq<Byte>>

    /** No two segments share an entry. */
    ghost predicate Separate() reads this, cache.Values {
      forall k, l | k in cache && l in cache && k != l :: cache[k] != cache[l] && cache[k].parse != cache[l].parse
    }

    ghost predicate Valid()
      reads this, cache.Values, set e | e in cache.Values :: e.parse
    {
      && contents.Keys == cache.Keys && Separate()
      && (forall k | k in cache :: ExactIfShort(decode, cache[k].Reached(), contents[k]))
    }

    constructor (decode: Decoder)
      ensures Valid() && cache == map[] && this.decode == decode
    {
      this.decode := decode;
      cache, contents := map[], map[];
    }

    predicate NeedsReset(path: string, info: Stat)
      reads this, cache.Values
    {
      path !in cache || cache[path].device != info.device || cache[path].inode != info.inode
      || info.size < cache[path].offset
    }

    /** Where a refresh starts from. */
    function From(path: string, info: Stat): Progress
      reads this, cache.Values, set e | e in cache.Values :: e.parse
    {
      if NeedsReset(path, info) then START else cache[path].Reached()
    }

    /** One refresh of one segment: `info` is None when the file cannot be examined, `file` is its content when
        it is read, and the read returns at most `got` bytes (0 when it fails). */
    method ReadSegment(path: string, info: Option<Stat>, file: seq<Byte>, got: nat) returns (facts: Turn)
      requires Valid() && (info.Some? ==> info.value.size <= |file|)
      requires info.Some? && !NeedsReset(path, info.value) ==> contents[path] <= file
      modifies this, if path in cache then {cache[path], cache[path].parse} else {}
      ensures Valid()
      ensures info.None? ==> facts == INITIAL && cache == old(cache) && contents == old(contents)
      ensures info.Some? ==>
        var from, stop := old(From(path, info.value)), old(StopsAt(path, info.value, got));
        && path in cache && contents[path] == file
        && Shows(decode, from, cache[path].Reached(), file, stop, facts)
      ensures info.Some? ==>
        cache.Keys == if |old(cache.Keys) + {path}| > MAX_CACHE_ENTRIES then {path} else old(cache.Keys) + {path}
      ensures forall q :: q in cache && q != path ==> Kept(old(cache), old(contents), q)
    {
      if info.None? {
        return INITIAL;
      }
      facts := RefreshEntry(path, info.value, file, got);
      Prune(path);
    }

    /** A segment's entry and what it was read from are as they were. */
    ghost predicate Kept(cache': map<string, SegmentEntry>, contents': map<string, seq<Byte>>, q: string)
      reads this
    {
      && q in cache && q in cache' && cache[q] == cache'[q]
      && q in contents && q in contents' && contents[q] == contents'[q]
    }

    function StopsAt(path: string, info: Stat, got: nat): nat
      reads this, cache.Values, set e | e in cache.Values :: e.parse
    {
      ReadUntil(From(path, info).offset, NeedsReset(path, info), info.size, got)
    }

    method RefreshEntry(path: string, info: Stat, file: seq<Byte>, got: nat) returns (facts: Turn)
      requires Valid() && info.size <= |file|
      requires !NeedsReset(path, info) ==> contents[path] <= file
      modifies this, if path in cache then {cache[path], cache[path].parse} else {}
      ensures Valid() && path in cache && contents[path] == file
      ensures Shows(decode, old(From(path, info)), cache[path].Reached(), file, old(StopsAt(path, info, got)), facts)
      ensures cache.Keys == old(cache.Keys) + {path}
      ensures forall q :: q in cache && q != path ==> Kept(old(cache), old(contents), q)
    {
      var entry, firstRead := OpenEntry(path, info, file);
      var stop := ReadUntil(entry.offset, firstRead, info.size, got);
      Advance(path, entry, file, stop);
      facts := entry.parse.State();
    }

    /** The whole cache is dropped, but for the entry in use, when it holds too many. */
    method Prune(path: string)
      requires Valid() && path in cache
      modifies this
      ensures Valid() && cache.Keys == if |old(cache.Keys)| > MAX_CACHE_ENTRIES then {path} else old(cache.Keys)
      ensures forall q :: q in cache ==> Kept(old(cache), old(contents), q)
      ensures path in cache && cache[path].Reached() == old(cache[path].Reached())
    {
      assert |cache| == |cache.Keys|;
      if |cache| > MAX_CACHE_ENTRIES {
        cache, contents := map[path := cache[path]], map[path := contents[path]];
      }
    }

    /** The live cache entry of a segment, or a new one in its place. */
    method OpenEntry(path: string, info: Stat, ghost file: seq<Byte>) returns (entry: SegmentEntry, firstRead: bool)
      requires Valid() && info.size <= |file|
      requires !NeedsReset(path, info) ==> contents[path] <= file
      modifies this
      ensures Valid() && cache == old(cache)[path := entry] && contents == old(contents)[path := file]
      ensures firstRead == old(NeedsReset(path, info)) && entry.Reached() == old(From(path, info))
      ensures entry.offset <= info.size
      ensures if firstRead then fresh(entry) && fresh(entry.parse) else entry == old(cache[path])
    {
      firstRead := NeedsReset(path, info);
      if firstRead {
        entry := new SegmentEntry(info.device, info.inode);
        Install(path, entry, file);
      } else {
        entry := cache[path];
        Grow(path, file);
      }
    }

    ghost method Grow(path: string, file: seq<Byte>)
      requires Valid() && path in cache && contents[path] <= file
      modifies this`contents
      ensures Valid() && contents == old(contents)[path := file]
    {
      GrowsIfShort(decode, cache[path].Reached(), contents[path], file);
      contents := contents[path := file];
    }

    method Install(path: string, entry: SegmentEntry, ghost file: seq<Byte>)
      requires Valid() && entry.Reached() == START
      requires forall k | k in cache :: cache[k] != entry && cache[k].parse != entry.parse
      modifies this
      ensures Valid() && cache == old(cache)[path := entry] && contents == old(contents)[path := file]
    {
      cache, contents := cache[path := entry], contents[path := file];
      StartExact(decode, file);
      forall k | k in cache && k != path ensures ExactIfShort(decode, cache[k].Reached(), contents[k]) {
        assert k in old(cache);
      }
    }

    method Advance(path: string, entry: SegmentEntry, file: seq<Byte>, stop: nat)
      requires Valid() && path in cache && cache[path] == entry && contents[path] == file
      requires entry.offset <= stop <= |file|
      modifies entry, entry.parse
      ensures Valid() && entry.Reached() == ReadOnTo(decode, old(entry.Reached()), file, stop)
      ensures entry.offset == stop
    {
      ReadsOnIfShort(decode, entry.Reached(), file, stop);
      label before:
      assert forall k | k in cache && k != path :: cache[k] != entry && cache[k].parse != entry.parse;
      if stop > entry.offset {
        entry.ReadAppend(decode, file[entry.offset..stop]);
      }
      forall k | k in cache ensures ExactIfShort(decode, cache[k].Reached(), contents[k]) {
        if k != path {
          assert cache[k].Reached() == old@before(cache[k].Reached());
        }
      }
    }
  }

  // ---- the parse state as a function of the bytes ----------------------------------------------

  /** A refresh reads on to `stop`, or the entry is discarded and the segment read afresh. */
  datatype Step = ReadTo(stop: nat) | Discard

  ghost predicate Slices(steps: seq<Step>, size: nat) {
    forall i :: 0 <= i < |steps| && steps[i].ReadTo? ==> Reached(steps[..i]) <= steps[i].stop <= size
  }

  /** How far the steps have read. */
  function Reached(steps: seq<Step>): nat {
    if steps == [] || Last(steps).Discard? then 0 else Last(steps).stop
  }

  ghost function Parsed(decode: Decoder, file: seq<Byte>, steps: seq<Step>): (p: Progress)
    requires Slices(steps, |file|)
    ensures p.offset == Reached(steps)
  {
    if steps == [] then START
    else
      assert Slices(Front(steps), |file|) by {
        assert forall i | 0 <= i < |steps| - 1 :: Front(steps)[..i] == steps[..i];
      }
      assert steps[..|steps| - 1] == Front(steps);
      match Last(steps)
      case Discard => START
      case ReadTo(stop) =>
        var before := Parsed(decode, file, Front(steps));
        Feed(decode, before, file[before.offset..stop])
  }

  /** Whatever the slicing, the parse state depends only on how many bytes were consumed: it is the
      fold of their complete lines, and the carry is the rest. */
  lemma {:induction false} AnySlicing(decode: Decoder, file: seq<Byte>, steps: seq<Step>)
    requires Slices(steps, |file|) && ShortLines(file)
    ensures Exact(decode, Parsed(decode, file, steps), file)
  {
    if steps == [] || Last(steps).Discard? {
      StartExact(decode, file);
    } else {
      assert Slices(Front(steps), |file|) by {
        assert forall i | 0 <= i < |steps| - 1 :: Front(steps)[..i] == steps[..i];
      }
      assert steps[..|steps| - 1] == Front(steps);
      AnySlicing(decode, file, Front(steps));
      FeedExact(decode, Parsed(decode, file, Front(steps)), file, Last(steps).stop);
    }
  }

  /** Where k refreshes of a static file, each reading all it asked for, get to. */
  function AfterRefreshes(offset: nat, size: nat, k: nat): nat {
    if k == 0 then offset
    else
      var before := AfterRefreshes(offset, size, k - 1);
      ReadUntil(before, false, size, MAX_INCREMENTAL_READ_BYTES)
  }

  /** Repeated refreshes of a static file reach its end: after k of them at most what exceeds
      k MiB is left. */
  lemma {:induction false} ReachesTheEnd(offset: nat, size: nat, k: nat)
    requires offset <= size
    ensures AfterRefreshes(offset, size, k) == Min(size, offset + k * MAX_INCREMENTAL_READ_BYTES)
  {
    if k > 0 {
      ReachesTheEnd(offset, size, k - 1);
    }
  }

  // ---- exactly how far slicing does not matter -------------------------------------------------

  /** Slices the reader can produce: a first read of at most 8 MiB, later ones of at most 1 MiB. */
  ghost predicate Refreshes(steps: seq<Step>, size: nat) {
    && Slices(steps, size)
    && forall i :: 0 <= i < |steps| && steps[i].ReadTo? ==>
         steps[i].stop <= ReadUntil(Reached(steps[..i]), IsFresh(steps[..i]), size, size)
  }

  predicate IsFresh(steps: seq<Step>) { steps == [] || Last(steps).Discard? }

  /** The finest slicing: one byte at a time. */
  function ByteByByte(n: nat): seq<Step> { seq(n, i requires 0 <= i < n => ReadTo(i + 1)) }

  lemma ByteByByteReads(n: nat, size: nat)
    requires n <= size
    ensures Refreshes(ByteByByte(n), size) && Reached(ByteByByte(n)) == n
    ensures n > 0 ==> Front(ByteByByte(n)) == ByteByByte(n - 1)
  {
    var steps := ByteByByte(n);
    forall i | 0 <= i < n
      ensures Reached(steps[..i]) == i && steps[i].stop <= ReadUntil(i, IsFresh(steps[..i]), size, size)
    {
      assert i > 0 ==> Last(steps[..i]) == ReadTo(i);
    }
  }

  lemma CarryStaysShort(decode: Decoder, file: seq<Byte>, steps: seq<Step>)
    requires Slices(steps, |file|)
    ensures |Parsed(decode, file, steps).carry| <= MAX_EVENT_LINE_BYTES
  {
  }

  /** A file with a long line has a prefix with a long remainder. */
  lemma {:induction false} LongRemainder(file: seq<Byte>) returns (n: nat)
    requires !ShortLines(file)
    ensures n <= |file| && |Rest(file[..n])| > MAX_EVENT_LINE_BYTES
  {
    if |Rest(file)| > MAX_EVENT_LINE_BYTES {
      n := |file|;
      assert file[..n] == file;
    } else {
      var front := Front(file);
      if ShortLines(front) {
        assert Complete(file) == Complete(front) + [Rest(front)];
      }
      n := LongRemainder(front);
      assert front[..n] == file[..n];
    }
  }

  /** Every slicing the reader can produce keeps the parse state and the carry exact, if and only if no
      line and no unterminated remainder exceeds 4 MiB. */
  lemma SlicingIsExactIff(decode: Decoder, file: seq<Byte>)
    ensures ShortLines(file) <==>
      forall steps | Refreshes(steps, |file|) :: Exact(decode, Parsed(decode, file, steps), file)
  {
    if ShortLines(file) {
      forall steps | Refreshes(steps, |file|) ensures Exact(decode, Parsed(decode, file, steps), file) {
        AnySlicing(decode, file, steps);
      }
    } else {
      var n := LongRemainder(file);
      ByteByByteReads(n, |file|);
      CarryStaysShort(decode, file, ByteByByte(n));
      assert !Exact(decode, Parsed(decode, file, ByteByByte(n)), file);
    }
  }

  // ---- what a long line costs ------------------------------------------------------------------

  const START_RECORD := Record(Some(TurnStarted), None, None, None, false, None, false, false)

  /** A decoder to which one line starts a turn and every other line is nothing. */
  function Only(line: seq<Byte>): Decoder {
    (x: seq<Byte>) => if x == line then Some(START_RECORD) else None
  }

  lemma {:induction false} StartsTheTurn(line: seq<Byte>, lines: seq<seq<Byte>>)
    requires line != [] && 0 !in line
    ensures FoldLines(Only(line), INITIAL, lines).turnActive <==> line in lines
    ensures line !in lines ==> FoldLines(Only(line), INITIAL, lines) == INITIAL
  {
    if lines != [] {
      StartsTheTurn(line, Front(lines));
      assert lines == Front(lines) + [Last(lines)];
      StartStays(FoldLines(Only(line), INITIAL, Front(lines)));
    }
  }

  lemma StartStays(s: Turn)
    ensures Apply(s, START_RECORD).turnActive
  {
  }

  /** One byte ends at most one line, the carry. */
  lemma OneByte(carry: seq<Byte>, b: Byte)
    requires Complete(carry) == [] && Rest(carry) == carry
    ensures Complete(carry + [b]) == if b == NEWLINE then [carry] else []
    ensures var rest := BoundedCarry(Rest(carry + [b])); Complete(rest) == [] && Rest(rest) == rest
  {
    assert Front(carry + [b]) == carry;
    if b != NEWLINE {
      NoNewline(Rest(carry + [b]), carry + [b]);
    }
  }

  /** The line has not been seen, and the carry is the start of some line within the bound. */
  ghost predicate Unseen(p: Progress) {
    p.turn == INITIAL && Complete(p.carry) == [] && Rest(p.carry) == p.carry && |p.carry| <= MAX_EVENT_LINE_BYTES
  }

  lemma StaysUnseen(line: seq<Byte>, p: Progress, b: Byte)
    requires |line| > MAX_EVENT_LINE_BYTES && Unseen(p)
    ensures Unseen(Feed(Only(line), p, [b]))
  {
    OneByte(p.carry, b);
    OneLine(Only(line), INITIAL, p.carry);
  }

  /** Read byte by byte, a line above the bound is never seen whole. */
  lemma {:induction false} NeverSeen(line: seq<Byte>, file: seq<Byte>, n: nat)
    requires |line| > MAX_EVENT_LINE_BYTES && n <= |file|
    ensures Slices(ByteByByte(n), |file|) && Unseen(Parsed(Only(line), file, ByteByByte(n)))
  {
    ByteByByteReads(n, |file|);
    if n > 0 {
      NeverSeen(line, file, n - 1);
      ByteByByteReads(n - 1, |file|);
      assert file[n - 1..n] == [file[n - 1]];
      StaysUnseen(line, Parsed(Only(line), file, ByteByByte(n - 1)), file[n - 1]);
    }
  }

  /** The difference shows: for every complete line above the bound, free of NUL bytes, there is a decoder
      and a slicing for which the line starts a turn in the file and no turn is ever seen. */
  lemma LongLineIsLost(file: seq<Byte>, line: seq<Byte>)
    requires line in Complete(file) && |line| > MAX_EVENT_LINE_BYTES && 0 !in line
    ensures Refreshes(ByteByByte(|file|), |file|) && Reached(ByteByByte(|file|)) == |file|
    ensures FoldLines(Only(line), INITIAL, Complete(file)).turnActive
    ensures Parsed(Only(line), file, ByteByByte(|file|)).turn == INITIAL
  {
    ByteByByteReads(|file|, |file|);
    StartsTheTurn(line, Complete(file));
    NeverSeen(line, file, |file|);
  }

  lemma OneLine(decode: Decoder, s: Turn, line: seq<Byte>)
    ensures FoldLines(decode, s, [line]) ==
      match RecordFromLine(decode, line) case None => s case Some(r) => Apply(s, r)
  {
    assert Front([line]) == [];
  }
}
