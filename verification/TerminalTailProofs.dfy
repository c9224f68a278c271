/** What any sequence of refreshes of an append-only rollout file ends up with. */
module TerminalTailProofs {
  import opened Sequences
  import opened Lines
  import opened TerminalTail

  const CAP := MAX_TERMINAL_EVENTS_PER_FILE

  /** The lifecycle events of a byte string, in file order. */
  function FileEvents(parse: Parser, data: seq<Byte>): seq<Event> {
    Events(parse, Complete(data))
  }

  lemma {:induction false} EventsConcat(parse: Parser, a: seq<seq<Byte>>, b: seq<seq<Byte>>)
    ensures Events(parse, a + b) == Events(parse, a) + Events(parse, b)
  {
    if b == [] {
      assert a + b == a;
    } else {
      EventsConcat(parse, a, Front(b));
      assert Front(a + b) == a + Front(b);
    }
  }

  lemma EventsOfOne(parse: Parser, line: seq<Byte>)
    ensures Events(parse, [line]) == if EventFromLine(parse, line).Some? then [EventFromLine(parse, line).value] else []
  {
    assert Front([line]) == [];
  }

  /** Reading b behind a finds the events of a, then those of a's remainder + b. */
  lemma FileEventsReadOn(parse: Parser, a: seq<Byte>, b: seq<Byte>)
    ensures FileEvents(parse, a + b) == FileEvents(parse, a) + FileEvents(parse, Rest(a) + b)
  {
    ReadOn(a, b);
    EventsConcat(parse, Complete(a), Complete(Rest(a) + b));
  }

  // ---- exactness: small first scan, small growth ------------------------------------------

  /** The entry is what a full scan of the consumed bytes would give. */
  ghost predicate Exact(parse: Parser, e: Entry, file: seq<Byte>) {
    && e.offset <= |file|
    && e.carry == Rest(file[..e.offset])
    && e.events == Tail(FileEvents(parse, file[..e.offset]), CAP)
  }

  /** The sizes the exactness theorem asks for: at most 4 MiB at a first scan, 1 MiB later. */
  predicate SmallStep(cached: Option<Entry>, o: Observation) {
    if NeedsReset(cached, o) then o.size <= MAX_INITIAL_TAIL_BYTES
    else o.size - cached.value.offset <= MAX_INCREMENTAL_READ_BYTES
  }

  lemma ExtendExact(parse: Parser, p: Plan, file: seq<Byte>, device: int, inode: int)
    requires p.offset <= |file| && !p.cut
    requires p.carry == Rest(file[..p.offset]) && p.prior == Tail(FileEvents(parse, file[..p.offset]), CAP)
    ensures Exact(parse, Extend(parse, p, Chunk(p, file), device, inode), file)
  {
    var seen, chunk := file[..p.offset], Chunk(p, file);
    assert seen + chunk == file[..p.offset + |chunk|];
    ExtendReads(parse, p, seen, chunk, device, inode);
  }

  lemma ExtendReads(parse: Parser, p: Plan, seen: seq<Byte>, chunk: seq<Byte>, device: int, inode: int)
    requires !p.cut && p.carry == Rest(seen) && p.prior == Tail(FileEvents(parse, seen), CAP)
    ensures var e := Extend(parse, p, chunk, device, inode);
      && e.offset == p.offset + |chunk| && e.carry == Rest(seen + chunk)
      && e.events == Tail(FileEvents(parse, seen + chunk), CAP)
  {
    ReadsOnExactly(parse, seen, chunk);
  }

  lemma ReadsOnExactly(parse: Parser, seen: seq<Byte>, chunk: seq<Byte>)
    ensures Rest(Rest(seen) + chunk) == Rest(seen + chunk)
    ensures Tail(Tail(FileEvents(parse, seen), CAP) + Events(parse, Complete(Rest(seen) + chunk)), CAP)
            == Tail(FileEvents(parse, seen + chunk), CAP)
  {
    FileEventsReadOn(parse, seen, chunk);
    ReadOn(seen, chunk);
    TailOfTail(FileEvents(parse, seen), FileEvents(parse, Rest(seen) + chunk), CAP);
  }

  lemma SmallPlan(parse: Parser, cached: Option<Entry>, o: Observation)
    requires o.size <= |o.file| && SmallStep(cached, o)
    requires !NeedsReset(cached, o) ==> Exact(parse, cached.value, o.file)
    ensures var p := MakePlan(parse, cached, o);
      && !p.cut && p.offset + p.limit >= o.size && p.carry == Rest(o.file[..p.offset])
      && p.prior == Tail(FileEvents(parse, o.file[..p.offset]), CAP)
      && (o.size == p.offset && NeedsReset(cached, o) ==> o.size == 0)
  {
    assert o.file[..0] == [];
  }

  /** One refresh keeps the cached entry exact, and returns what a full scan of the consumed bytes,
      which reach the examined size, would give. */
  lemma ExactStep(parse: Parser, cached: Option<Entry>, o: Observation) returns (consumed: nat)
    requires o.size <= |o.file| && SmallStep(cached, o) && o.tailOk
    requires !NeedsReset(cached, o) ==> Exact(parse, cached.value, o.file)
    ensures var r := Refresh(parse, cached, o);
      && (r.entry != cached ==> r.entry.Some? && Exact(parse, r.entry.value, o.file) && IsOf(r.entry.value, o))
      && o.size <= consumed <= |o.file|
      && r.events == Tail(FileEvents(parse, o.file[..consumed]), CAP)
  {
    var p := MakePlan(parse, cached, o);
    SmallPlan(parse, cached, o);
    consumed := p.offset;
    if o.size != p.offset {
      ExtendExact(parse, p, o.file, o.device, o.inode);
      consumed := p.offset + |Chunk(p, o.file)|;
    }
  }

  predicate IsOf(e: Entry, o: Observation) {
    e.device == o.device && e.inode == o.inode
  }

  // ---- runs -------------------------------------------------------------------------------

  /** What can happen to one path's cache entry: a refresh, or eviction by the cache's size bound. */
  datatype Step = See(o: Observation) | Evict

  ghost predicate SizesSeen(steps: seq<Step>) {
    forall s <- steps :: s.See? ==> s.o.size <= |s.o.file|
  }

  /** A file, told by its device and inode, only ever grows. Other files may take over the path. */
  ghost predicate AppendOnly(steps: seq<Step>) {
    forall i, j :: 0 <= i < j < |steps| && steps[i].See? && steps[j].See?
      && steps[i].o.device == steps[j].o.device && steps[i].o.inode == steps[j].o.inode
      ==> steps[i].o.file <= steps[j].o.file
  }

  function Run(parse: Parser, steps: seq<Step>): Option<Entry>
    requires SizesSeen(steps)
  {
    if steps == [] then None
    else
      match Last(steps)
      case Evict => None
      case See(o) => Refresh(parse, Run(parse, Front(steps)), o).entry
  }

  ghost predicate SmallSteps(parse: Parser, steps: seq<Step>)
    requires SizesSeen(steps)
  {
    forall k :: 0 <= k < |steps| && steps[k].See? ==> SmallStep(Run(parse, steps[..k]), steps[k].o)
  }

  lemma ExactGrows(parse: Parser, e: Entry, file: seq<Byte>, grown: seq<Byte>)
    requires Exact(parse, e, file) && file <= grown
    ensures Exact(parse, e, grown)
  {
    assert grown[..e.offset] == file[..e.offset];
  }

  /** The cached entry is exact for the file it was last read from. */
  lemma {:induction false} RunExact(parse: Parser, steps: seq<Step>) returns (i: nat)
    requires SizesSeen(steps) && AppendOnly(steps) && SmallSteps(parse, steps) && Run(parse, steps).Some?
    ensures i < |steps| && steps[i].See? && IsOf(Run(parse, steps).value, steps[i].o)
    ensures Exact(parse, Run(parse, steps).value, steps[i].o.file)
  {
    var front, o := Front(steps), Last(steps).o;
    var cached := Run(parse, front);
    assert steps[..|front|] == front && SmallStep(cached, o);
    PrefixFacts(parse, steps, |front|);
    i := |front|;
    if cached.Some? {
      i := RunExact(parse, front);
      if IsOf(cached.value, o) {
        ExactGrows(parse, cached.value, steps[i].o.file, o.file);
      }
    }
    if o.tailOk {
      var _ := ExactStep(parse, cached, o);
    }
    if Run(parse, steps) != cached {
      i := |front|;
    }
  }

  lemma PrefixFacts(parse: Parser, steps: seq<Step>, k: nat)
    requires k <= |steps| && SizesSeen(steps) && AppendOnly(steps) && SmallSteps(parse, steps)
    ensures SizesSeen(steps[..k]) && AppendOnly(steps[..k]) && SmallSteps(parse, steps[..k])
  {
    forall j | 0 <= j < k && steps[j].See? ensures SmallStep(Run(parse, steps[..k][..j]), steps[j].o) {
      assert steps[..k][..j] == steps[..j];
    }
  }

  /** Every refresh whose read succeeds returns exactly the last 64 lifecycle events of the complete
      lines of the bytes consumed so far, and it has consumed at least what the file's size promised. */
  lemma SteadyReaderIsExact(parse: Parser, steps: seq<Step>, k: nat) returns (consumed: nat)
    requires SizesSeen(steps) && AppendOnly(steps) && SmallSteps(parse, steps)
    requires k < |steps| && steps[k].See? && steps[k].o.tailOk
    ensures steps[k].o.size <= consumed <= |steps[k].o.file|
    ensures Refresh(parse, Run(parse, steps[..k]), steps[k].o).events
            == Tail(FileEvents(parse, steps[k].o.file[..consumed]), CAP)
  {
    var before, o := steps[..k], steps[k].o;
    PrefixFacts(parse, steps, k);
    var cached := Run(parse, before);
    if cached.Some? {
      var i := RunExact(parse, before);
      if IsOf(cached.value, o) {
        ExactGrows(parse, cached.value, steps[i].o.file, o.file);
      }
    }
    consumed := ExactStep(parse, cached, o);
  }

  // ---- any sizes: file order survives windows, gaps and resets -----------------------------

  ghost predicate Increasing(events: seq<Event>) {
    && (forall e <- events :: e.timestamp.Some?)
    && (forall i, j :: 0 <= i < j < |events| ==> Stamp(events[i]) < Stamp(events[j]))
  }

  ghost predicate Within(events: seq<Event>, whole: seq<Event>) {
    forall e <- events :: e in whole
  }

  /** Timestamps strictly increase along the file, and no line's proper suffix reads as an event. */
  ghost predicate Honest(parse: Parser, file: seq<Byte>) {
    && Increasing(FileEvents(parse, file))
    && forall line, s :: line in Complete(file) && IsSuffix(s, line) && s != line ==> EventFromLine(parse, s).None?
  }

  /** A list an ordered window of the file's events could have produced. */
  ghost predicate InFileOrder(parse: Parser, events: seq<Event>, data: seq<Byte>) {
    Increasing(events) && Within(events, FileEvents(parse, data)) && |events| <= CAP
  }

  ghost predicate Good(parse: Parser, e: Entry, file: seq<Byte>) {
    && e.offset <= |file|
    && IsSuffix(e.carry, Rest(file[..e.offset]))
    && InFileOrder(parse, e.events, file[..e.offset])
  }

  lemma {:induction false} EventsMembers(parse: Parser, lines: seq<seq<Byte>>, e: Event)
    ensures e in Events(parse, lines) <==> exists line :: line in lines && EventFromLine(parse, line) == Some(e)
  {
    if lines != [] {
      EventsMembers(parse, Front(lines), e);
      assert lines == Front(lines) + [Last(lines)];
    }
  }

  lemma FewerLines(parse: Parser, some: seq<seq<Byte>>, all: seq<seq<Byte>>)
    requires forall line <- some :: line == [] || line in all
    ensures Within(Events(parse, some), Events(parse, all))
  {
    forall e <- Events(parse, some) ensures e in Events(parse, all) {
      EventsMembers(parse, some, e);
      EventsMembers(parse, all, e);
    }
  }

  lemma HonestPrefix(parse: Parser, file: seq<Byte>, n: nat)
    requires n <= |file| && Honest(parse, file)
    ensures Honest(parse, file[..n]) && FileEvents(parse, file[..n]) <= FileEvents(parse, file)
  {
    assert file[..n] + file[n..] == file;
    ReadOn(file[..n], file[n..]);
    FileEventsReadOn(parse, file[..n], file[n..]);
    var part, whole := FileEvents(parse, file[..n]), FileEvents(parse, file);
    assert forall i | 0 <= i < |part| :: part[i] == whole[i];
  }

  lemma WindowLinesAre(window: seq<Byte>, startsFile: bool)
    ensures var lines := Complete(window);
      forall line <- WindowLines(window, startsFile) :: line == [] || line in Kept(lines, !startsFile)
  {
    if window != [] && Last(window) == NEWLINE {
      assert Split(window) == Complete(window) + [[]];
    }
  }

  /** A window contributes only lines of the file. */
  lemma WindowInFile(parse: Parser, file: seq<Byte>, start: nat, stop: nat)
    requires start <= stop <= |file|
    ensures Within(Events(parse, WindowLines(file[start..stop], start == 0)), FileEvents(parse, file[..stop]))
  {
    var seen, window := file[..start], file[start..stop];
    assert seen + window == file[..stop];
    WindowLinesAre(window, start == 0);
    ReadOn(seen, window);
    var lines := Kept(Complete(window), start > 0);
    forall line <- lines ensures line in Complete(file[..stop]) {
      if start == 0 {
        assert window == file[..stop];
      } else {
        NoNewline(Rest(seen), seen);
        LostStart(Rest(seen), window);
        assert line in Complete(Rest(seen) + window);
      }
    }
    FewerLines(parse, WindowLines(window, start == 0), Complete(file[..stop]));
  }

  lemma {:induction false} DedupeKeeps(events: seq<Event>)
    ensures Distinct(Dedupe(events), (e: Event) => e) && forall e :: e in Dedupe(events) <==> e in events
  {
    if events != [] {
      DedupeKeeps(Front(events));
      assert events == Front(events) + [Last(events)];
    }
  }

  /** The merge puts any window events of an ordered file back into file order. */
  lemma MergeInFileOrder(first: seq<Event>, second: seq<Event>, whole: seq<Event>)
    requires Increasing(whole) && Within(first, whole) && Within(second, whole)
    ensures Increasing(MergeEvents(first, second)) && Within(MergeEvents(first, second), whole)
    ensures |MergeEvents(first, second)| <= CAP
  {
    var d := Dedupe(first + second);
    DedupeKeeps(first + second);
    forall i | 0 <= i < |d| ensures d[i] in whole {
      assert d[i] in first + second;
    }
    forall i, j | 0 <= i < j < |d| ensures Stamp(d[i]) != Stamp(d[j]) {
      var id := (e: Event) => e;
      assert id(d[i]) != id(d[j]) && d[i] in whole && d[j] in whole;
      var a :| 0 <= a < |whole| && whole[a] == d[i];
      var b :| 0 <= b < |whole| && whole[b] == d[j];
      assert a < b || b < a;
    }
    assert Distinct(d, Stamp);
    SortDistinct(d, NotAfter, Stamp);
    SortSorts(d, NotAfter);
    SortMembers(d, NotAfter);
    var sorted := StableSort(d, NotAfter);
    forall i | 0 <= i < |sorted| ensures sorted[i] in whole {
      assert sorted[i] in d;
    }
    forall i, j | 0 <= i < j < |sorted| ensures Stamp(sorted[i]) < Stamp(sorted[j]) {
      assert NotAfter(sorted[i], sorted[j]);
    }
  }

  /** Damaging or dropping the first of some lines leaves a suffix of their events. */
  lemma FirstLineLost(parse: Parser, x: seq<Byte>, lines: seq<seq<Byte>>)
    requires lines != [] && (x != [] ==> EventFromLine(parse, lines[0]).None?)
    ensures var whole := Events(parse, [x + lines[0]] + lines[1..]);
      IsSuffix(Events(parse, lines), whole) && IsSuffix(Events(parse, lines[1..]), whole)
  {
    assert lines == [lines[0]] + lines[1..];
    EventsConcat(parse, [lines[0]], lines[1..]);
    EventsConcat(parse, [x + lines[0]], lines[1..]);
    EventsOfOne(parse, lines[0]);
    if x == [] {
      assert x + lines[0] == lines[0];
    }
  }

  /** Reading on behind `seen` with only part of its remainder: the part x that was lost is missing
      from the first line, or from the remainder when there is no line yet. */
  lemma BehindLoss(seen: seq<Byte>, carry: seq<Byte>, chunk: seq<Byte>) returns (x: seq<Byte>)
    requires IsSuffix(carry, Rest(seen))
    ensures var lines, whole := Complete(carry + chunk), Complete(Rest(seen) + chunk);
      if lines == [] then whole == [] && Rest(seen + chunk) == x + Rest(carry + chunk)
      else whole == [x + lines[0]] + lines[1..] && Rest(seen + chunk) == Rest(carry + chunk)
  {
    var rest := Rest(seen);
    x := rest[..|rest| - |carry|];
    assert rest == x + carry;
    assert x + (carry + chunk) == rest + chunk;
    ReadOn(seen, chunk);
    NoNewline(rest, seen);
    StartOfRest(x, carry);
    LostStart(x, carry + chunk);
  }

  /** What is parsed behind `seen` is file events behind it, whatever start of a line was lost. */
  lemma KeptEvents(parse: Parser, seen: seq<Byte>, carry: seq<Byte>, chunk: seq<Byte>, cut: bool)
    requires IsSuffix(carry, Rest(seen)) && Honest(parse, seen + chunk)
    ensures IsSuffix(Events(parse, Kept(Complete(carry + chunk), cut)), FileEvents(parse, Rest(seen) + chunk))
    ensures IsSuffix(Rest(carry + chunk), Rest(seen + chunk))
  {
    var x := BehindLoss(seen, carry, chunk);
    var lines := Complete(carry + chunk);
    if lines != [] {
      DamagedLine(parse, seen, chunk, x, lines[0]);
      FirstLineLost(parse, x, lines);
    }
  }

  /** What is left of a line that lost its start does not read as an event. */
  lemma DamagedLine(parse: Parser, seen: seq<Byte>, chunk: seq<Byte>, x: seq<Byte>, left: seq<Byte>)
    requires Honest(parse, seen + chunk) && Complete(Rest(seen) + chunk) != []
    requires Complete(Rest(seen) + chunk)[0] == x + left
    ensures x != [] ==> EventFromLine(parse, left).None?
  {
    FirstLineBehind(seen, chunk);
    if x != [] {
      var line := x + left;
      assert line in Complete(seen + chunk) && IsSuffix(left, line) && left != line;
    }
  }

  lemma FirstLineBehind(seen: seq<Byte>, chunk: seq<Byte>)
    requires Complete(Rest(seen) + chunk) != []
    ensures Complete(Rest(seen) + chunk)[0] in Complete(seen + chunk)
  {
    var whole := Complete(Rest(seen) + chunk);
    ReadOn(seen, chunk);
    assert whole[0] in whole;
  }

  lemma {:induction false} StartOfRest(x: seq<Byte>, y: seq<Byte>)
    requires Complete(x + y) == [] && Rest(x + y) == x + y
    ensures Complete(x) == [] && Rest(x) == x
  {
    if y != [] {
      assert Front(x + y) == x + Front(y);
      StartOfRest(x, Front(y));
    } else {
      assert x + y == x;
    }
  }

  lemma TailInFileOrder(parse: Parser, events: seq<Event>, data: seq<Byte>)
    requires Increasing(events) && Within(events, FileEvents(parse, data))
    ensures InFileOrder(parse, Tail(events, CAP), data)
  {
    assert forall e <- Tail(events, CAP) :: e in events;
  }

  lemma GoodGrows(parse: Parser, e: Entry, file: seq<Byte>, grown: seq<Byte>)
    requires Good(parse, e, file) && file <= grown
    ensures Good(parse, e, grown)
  {
    assert grown[..e.offset] == file[..e.offset];
  }

  /** Events found in a shorter prefix are still file events of a longer one. */
  lemma InFileOrderGrows(parse: Parser, events: seq<Event>, file: seq<Byte>, n: nat, m: nat)
    requires n <= m <= |file| && InFileOrder(parse, events, file[..n])
    ensures InFileOrder(parse, events, file[..m])
  {
    assert file[..n] + file[n..m] == file[..m];
    FileEventsReadOn(parse, file[..n], file[n..m]);
  }

  lemma WindowsInFile(parse: Parser, file: seq<Byte>, offset: nat)
    requires offset <= |file|
    ensures Within(PrefixEvents(parse, file, offset), FileEvents(parse, file[..offset]))
    ensures Within(BackscanEvents(parse, file, offset), FileEvents(parse, file[..offset]))
  {
    var n := Min(offset, MAX_LIFECYCLE_PREFIX_BYTES);
    var head := Events(parse, WindowLines(file[..n], true));
    assert file[0..n] == file[..n];
    WindowInFile(parse, file, 0, n);
    assert file[..n] + file[n..offset] == file[..offset];
    FileEventsReadOn(parse, file[..n], file[n..offset]);
    forall e <- PrefixEvents(parse, file, offset) ensures e in FileEvents(parse, file[..offset]) {
      assert e in head;
    }
    WindowInFile(parse, file, Excess(offset, MAX_LIFECYCLE_BACKSCAN_BYTES), offset);
  }

  lemma GoodPlan(parse: Parser, cached: Option<Entry>, o: Observation)
    requires o.size <= |o.file| && Honest(parse, o.file)
    requires !NeedsReset(cached, o) ==> Good(parse, cached.value, o.file)
    ensures var p := MakePlan(parse, cached, o);
      IsSuffix(p.carry, Rest(o.file[..p.offset])) && InFileOrder(parse, p.prior, o.file[..p.offset])
  {
    var p := MakePlan(parse, cached, o);
    if !NeedsReset(cached, o) {
      InFileOrderGrows(parse, cached.value.events, o.file, cached.value.offset, p.offset);
    } else {
      RecoveredInFileOrder(parse, o, p.offset);
    }
  }

  lemma RecoveredInFileOrder(parse: Parser, o: Observation, offset: nat)
    requires offset <= |o.file| && Honest(parse, o.file)
    ensures InFileOrder(parse, RecoveredEvents(parse, o, offset), o.file[..offset])
  {
    if offset > 0 {
      HonestPrefix(parse, o.file, offset);
      WindowsInFile(parse, o.file, offset);
      var first := if o.prefixOk then PrefixEvents(parse, o.file, offset) else [];
      var second := if o.backscanOk then BackscanEvents(parse, o.file, offset) else [];
      MergeInFileOrder(first, second, FileEvents(parse, o.file[..offset]));
    }
  }

  lemma GoodExtend(parse: Parser, p: Plan, file: seq<Byte>, device: int, inode: int)
    requires p.offset <= |file| && Honest(parse, file)
    requires IsSuffix(p.carry, Rest(file[..p.offset])) && InFileOrder(parse, p.prior, file[..p.offset])
    ensures Good(parse, Extend(parse, p, Chunk(p, file), device, inode), file)
  {
    var seen, chunk := file[..p.offset], Chunk(p, file);
    var n := p.offset + |chunk|;
    assert file[..n] == seen + chunk;
    HonestPrefix(parse, file, n);
    GoodBytes(parse, seen, p, chunk);
  }

  lemma GoodBytes(parse: Parser, seen: seq<Byte>, p: Plan, chunk: seq<Byte>)
    requires Honest(parse, seen + chunk) && IsSuffix(p.carry, Rest(seen)) && InFileOrder(parse, p.prior, seen)
    ensures var data := p.carry + chunk;
      && IsSuffix(Rest(data), Rest(seen + chunk))
      && InFileOrder(parse, Tail(p.prior + Events(parse, Kept(Complete(data), p.cut)), CAP), seen + chunk)
  {
    var found := Events(parse, Kept(Complete(p.carry + chunk), p.cut));
    KeptEvents(parse, seen, p.carry, chunk, p.cut);
    FileEventsReadOn(parse, seen, chunk);
    Behind(p.prior, found, FileEvents(parse, seen), FileEvents(parse, Rest(seen) + chunk));
    TailInFileOrder(parse, p.prior + found, seen + chunk);
  }

  lemma Behind(a: seq<Event>, b: seq<Event>, first: seq<Event>, second: seq<Event>)
    requires Increasing(first + second) && Increasing(a) && Within(a, first) && IsSuffix(b, second)
    ensures Increasing(a + b) && Within(a + b, first + second)
  {
    var whole, joined := first + second, a + b;
    var shift := |whole| - |b|;
    assert forall j | 0 <= j < |b| :: b[j] == whole[shift + j];
    forall i, j | 0 <= i < j < |joined| ensures Stamp(joined[i]) < Stamp(joined[j]) {
      if i < |a| <= j {
        assert a[i] in first;
        var k :| 0 <= k < |first| && first[k] == a[i];
        assert whole[k] == joined[i] && whole[shift + (j - |a|)] == joined[j];
      } else if |a| <= i {
        assert whole[shift + (i - |a|)] == joined[i] && whole[shift + (j - |a|)] == joined[j];
      }
    }
    forall e <- joined ensures e in whole {
      if e !in a {
        var j :| 0 <= j < |b| && b[j] == e;
        assert whole[shift + j] == e;
      }
    }
  }

  /** One refresh under any sizes: the entry stays good, and what is returned is in file order. */
  lemma GoodStep(parse: Parser, cached: Option<Entry>, o: Observation)
    requires o.size <= |o.file| && Honest(parse, o.file)
    requires !NeedsReset(cached, o) ==> Good(parse, cached.value, o.file)
    ensures var r := Refresh(parse, cached, o);
      && (r.entry != cached ==> r.entry.Some? && Good(parse, r.entry.value, o.file) && IsOf(r.entry.value, o))
      && InFileOrder(parse, r.events, o.file)
  {
    var p := MakePlan(parse, cached, o);
    GoodPlan(parse, cached, o);
    assert o.file[..|o.file|] == o.file;
    if o.size == p.offset || !o.tailOk {
      InFileOrderGrows(parse, p.prior, o.file, p.offset, |o.file|);
    } else {
      GoodExtend(parse, p, o.file, o.device, o.inode);
      var e := Extend(parse, p, Chunk(p, o.file), o.device, o.inode);
      InFileOrderGrows(parse, e.events, o.file, e.offset, |o.file|);
    }
  }

  ghost predicate AllHonest(parse: Parser, steps: seq<Step>) {
    forall s <- steps :: s.See? ==> Honest(parse, s.o.file)
  }

  lemma {:induction false} RunGood(parse: Parser, steps: seq<Step>) returns (i: nat)
    requires SizesSeen(steps) && AppendOnly(steps) && AllHonest(parse, steps) && Run(parse, steps).Some?
    ensures i < |steps| && steps[i].See? && IsOf(Run(parse, steps).value, steps[i].o)
    ensures Good(parse, Run(parse, steps).value, steps[i].o.file)
  {
    var front, o := Front(steps), Last(steps).o;
    var cached := Run(parse, front);
    i := |front|;
    if cached.Some? {
      i := RunGood(parse, front);
      if IsOf(cached.value, o) {
        GoodGrows(parse, cached.value, steps[i].o.file, o.file);
      }
    }
    GoodStep(parse, cached, o);
    if Run(parse, steps) != cached {
      i := |front|;
    }
  }

  ghost predicate Subsequence(a: seq<Event>, b: seq<Event>) {
    a == [] || (b != [] && ((Last(a) == Last(b) && Subsequence(Front(a), Front(b))) || Subsequence(a, Front(b))))
  }

  /** Without its last event, or when its last event is not the other list's, an ordered list lies in
      front of the other list's last event. */
  lemma InFront(a: seq<Event>, b: seq<Event>, n: nat)
    requires a != [] && b != [] && Increasing(a) && Increasing(b) && Within(a, b)
    requires n == if Last(a) == Last(b) then |a| - 1 else |a|
    ensures Increasing(a[..n]) && Increasing(Front(b)) && Within(a[..n], Front(b))
  {
    assert b == Front(b) + [Last(b)] && Last(a) in b;
    forall i | 0 <= i < n ensures a[i] in Front(b) {
      assert a[i] in b && (i < |a| - 1 ==> Stamp(a[i]) < Stamp(Last(a)));
      assert Last(a) != Last(b) ==> Stamp(Last(a)) < Stamp(Last(b));
    }
  }

  lemma {:induction false} OrderedWithinIsSubsequence(a: seq<Event>, b: seq<Event>)
    requires Increasing(a) && Increasing(b) && Within(a, b)
    ensures Subsequence(a, b)
    decreases |b|
  {
    if a != [] {
      assert Last(a) in b;
      if Last(a) == Last(b) {
        InFront(a, b, |a| - 1);
        OrderedWithinIsSubsequence(Front(a), Front(b));
      } else {
        InFront(a, b, |a|);
        assert a[..|a|] == a;
        OrderedWithinIsSubsequence(a, Front(b));
      }
    }
  }

  /** Whatever the sizes, gaps, evictions and failing reads, a refresh of a well-behaved file returns
      at most 64 of its lifecycle events, in file order. */
  lemma AnyReaderKeepsFileOrder(parse: Parser, steps: seq<Step>, k: nat)
    requires SizesSeen(steps) && AppendOnly(steps) && AllHonest(parse, steps) && k < |steps| && steps[k].See?
    ensures var events := Refresh(parse, Run(parse, steps[..k]), steps[k].o).events;
      |events| <= CAP && Subsequence(events, FileEvents(parse, steps[k].o.file))
  {
    var before, o := steps[..k], steps[k].o;
    var cached := Run(parse, before);
    if cached.Some? {
      var i := RunGood(parse, before);
      if IsOf(cached.value, o) {
        GoodGrows(parse, cached.value, steps[i].o.file, o.file);
      }
    }
    GoodStep(parse, cached, o);
    OrderedWithinIsSubsequence(Refresh(parse, cached, o).events, FileEvents(parse, o.file));
  }
}
