/** What a first scan of a file finds, told on the bytes it reads
    (src/codex_cli_monitor/terminal_state.py, `_terminal_events` and its recovery windows). */
module TerminalScan {
  import opened Sequences
  import opened Lines
  import opened TerminalTail
  import opened TerminalTailProofs
  import opened TerminalMerge

  const KIB := 1024

  /** What follows the first newline. */
  function BehindFirstLine(data: seq<Byte>): seq<Byte> {
    if data == [] then [] else if data[0] == NEWLINE then data[1..] else BehindFirstLine(data[1..])
  }

  lemma {:induction false} CutLines(data: seq<Byte>)
    ensures Complete(BehindFirstLine(data)) == Kept(Complete(data), true)
  {
    if data != [] {
      var x, d := [data[0]], data[1..];
      assert data == x + d && Front(x) == [];
      if data[0] == NEWLINE {
        ReadOn(x, d);
        assert Rest(x) + d == d;
      } else {
        LostStart(x, d);
        CutLines(d);
      }
    }
  }

  /** The last 64 events of the lines that end in the first MiB, or in front of the tail. */
  function HeadFound(parse: Parser, o: Observation, offset: nat): seq<Event>
    requires offset <= |o.file|
  {
    if o.prefixOk then Tail(FileEvents(parse, o.file[..Min(offset, KIB * KIB)]), CAP) else []
  }

  /** The events of the lines that start in the last 8 MiB in front of the tail and end there. */
  function MiddleFound(parse: Parser, o: Observation, offset: nat): seq<Event>
    requires offset <= |o.file|
  {
    if !o.backscanOk then []
    else if offset <= 8 * KIB * KIB then FileEvents(parse, o.file[..offset])
    else FileEvents(parse, BehindFirstLine(o.file[offset - 8 * KIB * KIB..offset]))
  }

  /** The events of the lines that start in the last 4 MiB, behind the line they cut. */
  function TailFound(parse: Parser, o: Observation, offset: nat): seq<Event>
    requires offset <= o.size <= |o.file|
  {
    FileEvents(parse, BehindFirstLine(o.file[offset..o.size]))
  }

  lemma HeadIsFound(parse: Parser, file: seq<Byte>, offset: nat)
    requires offset <= |file|
    ensures PrefixEvents(parse, file, offset) == Tail(FileEvents(parse, file[..Min(offset, KIB * KIB)]), CAP)
  {
    PrefixIsTail(parse, file, offset);
  }

  lemma MiddleIsFound(parse: Parser, file: seq<Byte>, offset: nat)
    requires offset <= |file|
    ensures BackscanEvents(parse, file, offset) ==
      if offset <= 8 * KIB * KIB then FileEvents(parse, file[..offset])
      else FileEvents(parse, BehindFirstLine(file[offset - 8 * KIB * KIB..offset]))
  {
    var start := Excess(offset, MAX_LIFECYCLE_BACKSCAN_BYTES);
    var window := file[start..offset];
    WindowEventsAre(parse, window, start == 0);
    CutLines(window);
  }

  lemma RecoversBoth(parse: Parser, o: Observation, offset: nat)
    requires 0 < offset <= |o.file|
    ensures RecoveredEvents(parse, o, offset) == MergeEvents(HeadFound(parse, o, offset), MiddleFound(parse, o, offset))
  {
    HeadIsFound(parse, o.file, offset);
    MiddleIsFound(parse, o.file, offset);
  }

  /** The first scan of a file above 4 MiB returns the last 64 of what the two windows hold, merged, and of what the
      last 4 MiB hold; it knows the whole file from there on. */
  lemma LongScan(parse: Parser, cached: Option<Entry>, o: Observation, offset: nat)
    requires SkipsTheStart(cached, o, offset) && o.tailOk
    ensures var r := Refresh(parse, cached, o);
      && r.events == Tail(MergeEvents(HeadFound(parse, o, offset), MiddleFound(parse, o, offset))
                          + TailFound(parse, o, offset), CAP)
      && r.entry == Some(Entry(o.device, o.inode, o.size, Rest(o.file[offset..o.size]), r.events))
  {
    ScanReturns(parse, cached, o, offset);
    RecoversBoth(parse, o, offset);
    CutLines(o.file[offset..o.size]);
    var none: seq<Byte> := [];
    assert Chunk(MakePlan(parse, cached, o), o.file) == o.file[offset..o.size];
    assert none + o.file[offset..o.size] == o.file[offset..o.size];
  }

  /** The first scan of any other file reads it from the start and returns its last 64 events. */
  lemma ShortScan(parse: Parser, cached: Option<Entry>, o: Observation)
    requires NeedsReset(cached, o) && 0 < o.size <= |o.file| && o.size <= 4 * KIB * KIB && o.tailOk
    ensures var read := o.file[..Min(|o.file|, 4 * KIB * KIB)];
      var r := Refresh(parse, cached, o);
      && r.events == Tail(FileEvents(parse, read), CAP)
      && r.entry == Some(Entry(o.device, o.inode, |read|, Rest(read), r.events))
  {
    var none: seq<Byte>, nothing: seq<Event> := [], [];
    var read := o.file[..Min(|o.file|, 4 * KIB * KIB)];
    assert MakePlan(parse, cached, o) == Plan(0, none, nothing, false, MAX_INITIAL_TAIL_BYTES);
    assert Chunk(MakePlan(parse, cached, o), o.file) == read;
    assert none + read == read && nothing + FileEvents(parse, read) == FileEvents(parse, read);
  }

  /** A first scan overlooks nothing it reads: every event of the windows and of the last 4 MiB is returned, unless
      they are more than 64 together. */
  lemma FirstScanOverlooksNothing(parse: Parser, cached: Option<Entry>, o: Observation, offset: nat, e: Event)
    requires SkipsTheStart(cached, o, offset) && o.tailOk
    requires |HeadFound(parse, o, offset)| + |MiddleFound(parse, o, offset)| + |TailFound(parse, o, offset)| <= CAP
    ensures e in Refresh(parse, cached, o).events
            <==> e in HeadFound(parse, o, offset) || e in MiddleFound(parse, o, offset)
                 || e in TailFound(parse, o, offset)
  {
    var head, middle := HeadFound(parse, o, offset), MiddleFound(parse, o, offset);
    LongScan(parse, cached, o, offset);
    DedupeKeeps(head + middle);
    DedupeShrinks(head + middle);
    SortMembers(Dedupe(head + middle), NotAfter);
    SortPermutes(Dedupe(head + middle), NotAfter);
    SameLength(Dedupe(head + middle), StableSort(Dedupe(head + middle), NotAfter));
  }

  lemma SameLength<T>(a: seq<T>, b: seq<T>)
    requires multiset(a) == multiset(b)
    ensures |a| == |b|
  {
    assert |a| == |multiset(a)| && |b| == |multiset(b)|;
  }

  lemma {:induction false} DedupeShrinks(events: seq<Event>)
    ensures |Dedupe(events)| <= |events|
  {
    if events != [] {
      DedupeShrinks(Front(events));
    }
  }
}
