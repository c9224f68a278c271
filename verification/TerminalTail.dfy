/** Incremental reading of lifecycle events from the tail of a rollout file
    (src/codex_cli_monitor/terminal_state.py, `_terminal_events` and its windows). */
module TerminalTail {
  import opened Sequences
  import opened Lines

  const MAX_INITIAL_TAIL_BYTES := 4 * 1024 * 1024
  const MAX_INCREMENTAL_READ_BYTES := 1024 * 1024
  const MAX_LIFECYCLE_PREFIX_BYTES := 1024 * 1024
  const MAX_LIFECYCLE_BACKSCAN_BYTES := 8 * 1024 * 1024
  const MAX_TERMINAL_EVENTS_PER_FILE := 64
  const MAX_CACHE_ENTRIES := 256

  datatype Event = Event(
    eventType: string, turnId: Option<string>, timestamp: Option<real>, active: bool, terminal: bool, failed: bool)

  /** Decoding of one nonempty line without NUL bytes as a lifecycle record. */
  type Parser = seq<Byte> -> Option<Event>

  datatype Entry = Entry(device: int, inode: int, offset: nat, carry: seq<Byte>, events: seq<Event>)

  /** One refresh as the reader meets it: the file's identity and size when it was examined, its
      content when it is read (it may have grown by then), and which of the reads succeed. */
  datatype Observation = Observation(
    device: int, inode: int, size: nat, file: seq<Byte>, prefixOk: bool, backscanOk: bool, tailOk: bool)

  datatype Refreshed = Refreshed(events: seq<Event>, entry: Option<Entry>)

  function EventFromLine(parse: Parser, line: seq<Byte>): Option<Event> {
    if line == [] || 0 in line then None else parse(line)
  }

  function Events(parse: Parser, lines: seq<seq<Byte>>): seq<Event> {
    if lines == [] then []
    else
      var before := Events(parse, Front(lines));
      match EventFromLine(parse, Last(lines))
      case None => before
      case Some(e) => before + [e]
  }

  /** Lines of a window cut out of the file: a partial last line is dropped, and so is the first
      line when the window does not start the file. */
  function WindowLines(window: seq<Byte>, startsFile: bool): seq<seq<Byte>> {
    var lines := if window != [] && Last(window) != NEWLINE then Front(Split(window)) else Split(window);
    if !startsFile && lines != [] then lines[1..] else lines
  }

  function PrefixEvents(parse: Parser, file: seq<Byte>, tailOffset: nat): seq<Event>
    requires tailOffset <= |file|
  {
    Tail(Events(parse, WindowLines(file[..Min(tailOffset, MAX_LIFECYCLE_PREFIX_BYTES)], true)),
      MAX_TERMINAL_EVENTS_PER_FILE)
  }

  function BackscanEvents(parse: Parser, file: seq<Byte>, tailOffset: nat): seq<Event>
    requires tailOffset <= |file|
  {
    var start := Excess(tailOffset, MAX_LIFECYCLE_BACKSCAN_BYTES);
    Events(parse, WindowLines(file[start..tailOffset], start == 0))
  }

  /** `max(0, size - limit)` */
  function Excess(size: nat, limit: nat): nat { if size <= limit then 0 else size - limit }

  function Dedupe(events: seq<Event>): seq<Event> {
    if events == [] then []
    else if Last(events) in Front(events) then Dedupe(Front(events))
    else Dedupe(Front(events)) + [Last(events)]
  }

  predicate NotAfter(a: Event, b: Event) {
    Stamp(a) <= Stamp(b)
  }

  function Stamp(e: Event): real { if e.timestamp.Some? then e.timestamp.value else 0.0 }

  function MergeEvents(first: seq<Event>, second: seq<Event>): seq<Event> {
    var merged := Dedupe(first + second);
    Tail(if forall e <- merged :: e.timestamp.Some? then StableSort(merged, NotAfter) else merged,
         MAX_TERMINAL_EVENTS_PER_FILE)
  }

  predicate NeedsReset(cached: Option<Entry>, o: Observation) {
    cached.None? || cached.value.device != o.device || cached.value.inode != o.inode || o.size < cached.value.offset
  }

  /** Where a refresh starts reading, with what carry and what already known events, and whether
      the first line it reads is cut. */
  datatype Plan = Plan(offset: nat, carry: seq<Byte>, prior: seq<Event>, cut: bool, limit: nat)

  /** At a first scan that skips the start of the file: what two bounded windows recover from it. */
  function RecoveredEvents(parse: Parser, o: Observation, offset: nat): seq<Event>
    requires offset <= |o.file|
  {
    if offset == 0 then []
    else MergeEvents(if o.prefixOk then PrefixEvents(parse, o.file, offset) else [],
                     if o.backscanOk then BackscanEvents(parse, o.file, offset) else [])
  }

  function MakePlan(parse: Parser, cached: Option<Entry>, o: Observation): (p: Plan)
    requires o.size <= |o.file|
    ensures p.offset <= o.size
  {
    if NeedsReset(cached, o) then
      var offset := Excess(o.size, MAX_INITIAL_TAIL_BYTES);
      Plan(offset, [], RecoveredEvents(parse, o, offset), offset > 0, MAX_INITIAL_TAIL_BYTES)
    else if o.size - cached.value.offset > MAX_INCREMENTAL_READ_BYTES then
      Plan(o.size - MAX_INCREMENTAL_READ_BYTES, [], cached.value.events, true, MAX_INCREMENTAL_READ_BYTES)
    else
      Plan(cached.value.offset, cached.value.carry, cached.value.events, false, MAX_INCREMENTAL_READ_BYTES)
  }

  function Chunk(p: Plan, file: seq<Byte>): seq<Byte>
    requires p.offset <= |file|
  {
    file[p.offset..Min(|file|, p.offset + p.limit)]
  }

  /** A first line that may be cut is discarded. */
  function Kept(lines: seq<seq<Byte>>, cut: bool): seq<seq<Byte>> {
    if cut && lines != [] then lines[1..] else lines
  }

  function Extend(parse: Parser, p: Plan, chunk: seq<Byte>, device: int, inode: int): Entry {
    var data := p.carry + chunk;
    Entry(device, inode, p.offset + |chunk|, Rest(data),
          Tail(p.prior + Events(parse, Kept(Complete(data), p.cut)), MAX_TERMINAL_EVENTS_PER_FILE))
  }

  function Refresh(parse: Parser, cached: Option<Entry>, o: Observation): Refreshed
    requires o.size <= |o.file|
  {
    var p := MakePlan(parse, cached, o);
    if o.size == p.offset || !o.tailOk then Refreshed(p.prior, cached)
    else
      var entry := Extend(parse, p, Chunk(p, o.file), o.device, o.inode);
      Refreshed(entry.events, Some(entry))
  }

  // ---- the reader as it runs ------------------------------------------------------------

  class TailCache {
    const parse: Parser
    var entries: map<string, Entry>
    /** The keys in insertion order, as a Python dict keeps them. */
    var order: seq<string>

    ghost predicate KeysInOrder() reads this {
      && (forall i, j :: 0 <= i < j < |order| ==> order[i] != order[j])
      && (forall k :: k in order <==> k in entries)
    }

    ghost predicate Valid() reads this {
      KeysInOrder() && |order| <= MAX_CACHE_ENTRIES
    }

    constructor (parse: Parser)
      ensures Valid() && entries == map[] && this.parse == parse
    {
      this.parse := parse;
      entries, order := map[], [];
    }

    function Cached(path: string): Option<Entry> reads this {
      if path in entries then Some(entries[path]) else None
    }

    method TerminalEvents(path: string, o: Observation) returns (events: seq<Event>)
      requires Valid() && o.size <= |o.file|
      modifies this
      ensures Valid()
      ensures events == Refresh(parse, old(Cached(path)), o).events
      ensures Cached(path) == Refresh(parse, old(Cached(path)), o).entry
      ensures order == if path in entries then OrderWith(old(order), path) else old(order)
      ensures forall q :: q in entries && q != path ==> q in old(entries) && entries[q] == old(entries)[q]
    {
      var p := PlanRefresh(parse, Cached(path), o);
      if o.size == p.offset || !o.tailOk {
        return p.prior;
      }
      var entry := ReadTail(parse, p, o);
      Store(path, entry);
      events := entry.events;
    }

    /** `_TAIL_CACHE[key] = entry` followed by `_prune_cache`. */
    method Store(path: string, entry: Entry)
      requires Valid()
      modifies this
      ensures Valid() && path in entries && entries[path] == entry
      ensures order == OrderWith(old(order), path)
      ensures forall q :: q in entries && q != path ==> q in old(entries) && entries[q] == old(entries)[q]
    {
      OnlyTheOldestGoes(order, path);
      Put(path, entry);
      PruneCache();
    }

    method Put(path: string, entry: Entry)
      requires KeysInOrder()
      modifies this
      ensures KeysInOrder() && entries == old(entries)[path := entry]
      ensures order == if path in old(order) then old(order) else old(order) + [path]
    {
      if path !in entries {
        order := order + [path];
        assert forall k :: k in order <==> k in old(order) || k == path;
      }
      entries := entries[path := entry];
    }

    /** `_prune_cache`, for at most one entry too many. */
    method PruneCache()
      requires KeysInOrder() && |order| <= MAX_CACHE_ENTRIES + 1
      modifies this
      ensures Valid() && order == Pruned(old(order))
      ensures forall q :: q in entries <==> q in old(entries) && q in order
      ensures forall q :: q in entries ==> entries[q] == old(entries)[q]
    {
      if |order| > MAX_CACHE_ENTRIES {
        var oldest := order[0];
        assert forall i | 0 < i < |order| :: order[i] != oldest;
        order := order[1..];
        assert old(order) == [oldest] + order;
        assert forall k :: k in old(order) <==> k == oldest || k in order;
        entries := entries - {oldest};
      }
    }
  }

  /** The oldest key goes when there is one too many. */
  function Pruned(order: seq<string>): seq<string> {
    if |order| > MAX_CACHE_ENTRIES then order[1..] else order
  }

  /** The cached keys, oldest first, once `path` is among them. */
  function OrderWith(order: seq<string>, path: string): seq<string> {
    if path in order then order else Pruned(order + [path])
  }

  /** Storing drops no key unless a new one comes to a full cache, and then the oldest alone. */
  lemma OnlyTheOldestGoes(order: seq<string>, path: string)
    requires |order| <= MAX_CACHE_ENTRIES
    ensures path in OrderWith(order, path)
    ensures path in order ==> OrderWith(order, path) == order
    ensures path !in order && |order| < MAX_CACHE_ENTRIES ==> OrderWith(order, path) == order + [path]
    ensures path !in order && |order| == MAX_CACHE_ENTRIES ==> OrderWith(order, path) == order[1..] + [path]
  {
    var grown := order + [path];
    assert |order| == MAX_CACHE_ENTRIES ==> grown[1..] == order[1..] + [path];
    assert path in grown;
  }

  method PlanRefresh(parse: Parser, cached: Option<Entry>, o: Observation) returns (p: Plan)
    requires o.size <= |o.file|
    ensures p == MakePlan(parse, cached, o)
  {
    var reset := cached.None? || cached.value.device != o.device || cached.value.inode != o.inode
      || o.size < cached.value.offset;
    var offset, carry, priorEvents, cut, recover := 0, [], [], false, false;
    if reset {
      offset := Excess(o.size, MAX_INITIAL_TAIL_BYTES);
      cut, recover := offset > 0, offset > 0;
    } else {
      offset, carry, priorEvents := cached.value.offset, cached.value.carry, cached.value.events;
    }
    var readLimit := if reset then MAX_INITIAL_TAIL_BYTES else MAX_INCREMENTAL_READ_BYTES;
    if o.size - offset > readLimit {
      offset, carry := Excess(o.size, readLimit), [];
      cut, recover := offset > 0, false;
    }
    if recover {
      if o.prefixOk {
        priorEvents := ReadPrefix(parse, o.file, offset);
      }
      var backscan := [];
      if o.backscanOk {
        backscan := ReadBackscan(parse, o.file, offset);
      }
      priorEvents := MergeLifecycleEvents(priorEvents, backscan);
    }
    return Plan(offset, carry, priorEvents, cut, readLimit);
  }

  method ReadTail(parse: Parser, p: Plan, o: Observation) returns (entry: Entry)
    requires p.offset <= |o.file|
    ensures entry == Extend(parse, p, Chunk(p, o.file), o.device, o.inode)
  {
    var chunk := Chunk(p, o.file);
    var data := p.carry + chunk;
    var lines, newCarry := Complete(data), Rest(data);
    if p.cut && lines != [] {
      lines := lines[1..];
    }
    var parsed := ParseInto(parse, p.prior, lines);
    var events := Tail(parsed, MAX_TERMINAL_EVENTS_PER_FILE);
    entry := Entry(o.device, o.inode, p.offset + |chunk|, newCarry, events);
  }

  method ParseInto(parse: Parser, prior: seq<Event>, lines: seq<seq<Byte>>) returns (parsed: seq<Event>)
    ensures parsed == prior + Events(parse, lines)
  {
    parsed := prior;
    for i := 0 to |lines|
      invariant parsed == prior + Events(parse, lines[..i])
    {
      assert Front(lines[..i + 1]) == lines[..i];
      var event := EventFromLine(parse, lines[i]);
      if event.Some? {
        parsed := parsed + [event.value];
      }
    }
    assert lines[..|lines|] == lines;
  }

  method ReadPrefix(parse: Parser, file: seq<Byte>, tailOffset: nat) returns (events: seq<Event>)
    requires tailOffset <= |file|
    ensures events == PrefixEvents(parse, file, tailOffset)
  {
    var chunk := file[..Min(tailOffset, MAX_LIFECYCLE_PREFIX_BYTES)];
    var lines := Split(chunk);
    if chunk != [] && Last(chunk) != NEWLINE {
      lines := Front(lines);
    }
    events := ParseInto(parse, [], lines);
    events := Tail(events, MAX_TERMINAL_EVENTS_PER_FILE);
  }

  method ReadBackscan(parse: Parser, file: seq<Byte>, tailOffset: nat) returns (events: seq<Event>)
    requires tailOffset <= |file|
    ensures events == BackscanEvents(parse, file, tailOffset)
  {
    var start := Excess(tailOffset, MAX_LIFECYCLE_BACKSCAN_BYTES);
    var chunk := file[start..tailOffset];
    var lines := Split(chunk);
    if chunk != [] && Last(chunk) != NEWLINE {
      lines := Front(lines);
    }
    if start > 0 && lines != [] {
      lines := lines[1..];
    }
    assert lines == WindowLines(chunk, start == 0);
    events := ParseInto(parse, [], lines);
  }

  method MergeLifecycleEvents(first: seq<Event>, second: seq<Event>) returns (events: seq<Event>)
    ensures events == MergeEvents(first, second)
  {
    var all, merged, seen := first + second, [], {};
    for i := 0 to |all|
      invariant merged == Dedupe(all[..i]) && seen == set e | e in all[..i]
    {
      assert Front(all[..i + 1]) == all[..i];
      if all[i] in seen {
        continue;
      }
      seen := seen + {all[i]};
      merged := merged + [all[i]];
    }
    assert all[..|all|] == all;
    if forall e <- merged :: e.timestamp.Some? {
      merged := StableSort(merged, NotAfter);
    }
    events := Tail(merged, MAX_TERMINAL_EVENTS_PER_FILE);
  }
}
