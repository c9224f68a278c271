/** What a refresh keeps of what it knew, told on the bytes it reads
    (src/codex_cli_monitor/terminal_state.py, `_terminal_events`). */
module TerminalKept {
  import opened Sequences
  import opened Lines
  import opened TerminalTail
  import opened TerminalTailProofs

  // ---- one refresh ---------------------------------------------------------------------------------------------

  /** The entry's file again, at least as long as what was read of it. */
  predicate SameFile(e: Entry, o: Observation) {
    e.device == o.device && e.inode == o.inode && e.offset <= o.size <= |o.file|
  }

  /** The file has grown by more than a refresh reads. */
  predicate LeavesGap(e: Entry, o: Observation) { o.size > e.offset + MAX_INCREMENTAL_READ_BYTES }

  /** The bytes the refresh reads: from the known offset on, or across a gap the last MiB of the file. */
  function NewBytes(e: Entry, o: Observation): seq<Byte>
    requires SameFile(e, o)
  {
    if o.size == e.offset then []
    else if LeavesGap(e, o) then o.file[o.size - MAX_INCREMENTAL_READ_BYTES..o.size]
    else o.file[e.offset..Min(|o.file|, e.offset + MAX_INCREMENTAL_READ_BYTES)]
  }

  /** The complete lines in them: the first continues the carry, or is dropped behind a gap. */
  function NewLines(e: Entry, o: Observation): seq<seq<Byte>>
    requires SameFile(e, o)
  {
    if o.size == e.offset then []
    else if LeavesGap(e, o) then
      var lines := Complete(NewBytes(e, o));
      if lines == [] then [] else lines[1..]
    else Complete(e.carry + NewBytes(e, o))
  }

  /** Where the next refresh goes on, and with what start of a line. */
  function NextOffset(e: Entry, o: Observation): nat
    requires SameFile(e, o)
  {
    if LeavesGap(e, o) then o.size else e.offset + |NewBytes(e, o)|
  }

  function NextCarry(e: Entry, o: Observation): seq<Byte>
    requires SameFile(e, o)
  {
    if o.size == e.offset then e.carry else Rest((if LeavesGap(e, o) then [] else e.carry) + NewBytes(e, o))
  }

  /** The known events, up to 64 with those of the lines that are read, and where to go on. */
  function Grown(parse: Parser, e: Entry, o: Observation): Refreshed
    requires SameFile(e, o)
  {
    var events := Tail(e.events + Events(parse, NewLines(e, o)), CAP);
    Refreshed(events, Some(Entry(e.device, e.inode, NextOffset(e, o), NextCarry(e, o), events)))
  }

  lemma ReadAcrossGap(parse: Parser, e: Entry, o: Observation)
    requires SameFile(e, o) && LeavesGap(e, o) && o.tailOk
    ensures Refresh(parse, Some(e), o) == Grown(parse, e, o)
  {
    var p, none: seq<Byte> := MakePlan(parse, Some(e), o), [];
    assert p == Plan(o.size - MAX_INCREMENTAL_READ_BYTES, none, e.events, true, MAX_INCREMENTAL_READ_BYTES);
    assert Chunk(p, o.file) == NewBytes(e, o);
    assert none + NewBytes(e, o) == NewBytes(e, o);
  }

  lemma ReadOnward(parse: Parser, e: Entry, o: Observation)
    requires SameFile(e, o) && !LeavesGap(e, o) && o.size > e.offset && o.tailOk
    ensures Refresh(parse, Some(e), o) == Grown(parse, e, o)
  {
    var p := MakePlan(parse, Some(e), o);
    assert p == Plan(e.offset, e.carry, e.events, false, MAX_INCREMENTAL_READ_BYTES);
    assert Chunk(p, o.file) == NewBytes(e, o);
  }

  lemma NothingRead(parse: Parser, e: Entry, o: Observation)
    requires SameFile(e, o) && (o.size == e.offset || !o.tailOk)
    ensures Refresh(parse, Some(e), o) == Refreshed(e.events, Some(e))
  {
    assert MakePlan(parse, Some(e), o).prior == e.events;
  }

  /** A refresh of the same file keeps the known events and adds those of the lines it reads, up to 64; one whose
      read fails keeps everything as it is. */
  lemma KnownStay(parse: Parser, e: Entry, o: Observation)
    requires SameFile(e, o) && |e.events| <= CAP
    ensures Refresh(parse, Some(e), o) == if o.tailOk then Grown(parse, e, o) else Refreshed(e.events, Some(e))
  {
    if o.size == e.offset || !o.tailOk {
      NothingRead(parse, e, o);
      assert e.events + [] == e.events;
    } else if LeavesGap(e, o) {
      ReadAcrossGap(parse, e, o);
    } else {
      ReadOnward(parse, e, o);
    }
  }

  /** Another file at the path, or one that has shrunk, starts over: nothing known of the old one is returned. */
  lemma ReplacedStartsOver(parse: Parser, e: Entry, o: Observation)
    requires o.size <= |o.file| && (e.device != o.device || e.inode != o.inode || o.size < e.offset)
    ensures Refresh(parse, Some(e), o).events == Refresh(parse, None, o).events
    ensures Refresh(parse, Some(e), o).entry ==
      if Refresh(parse, None, o).entry.Some? then Refresh(parse, None, o).entry else Some(e)
  {
  }

  /** A first scan whose read fails returns what the windows recover, and caches nothing. */
  lemma FailedFirstScan(parse: Parser, o: Observation)
    requires o.size <= |o.file| && !o.tailOk
    ensures var offset := if o.size <= MAX_INITIAL_TAIL_BYTES then 0 else o.size - MAX_INITIAL_TAIL_BYTES;
      Refresh(parse, None, o) == Refreshed(RecoveredEvents(parse, o, offset), None)
  {
  }

  // ---- any run ---------------------------------------------------------------------------------------------------

  /** What the refresh at step k returns. */
  function Result(parse: Parser, steps: seq<Step>, k: nat): seq<Event>
    requires SizesSeen(steps) && k < |steps| && steps[k].See?
  {
    Refresh(parse, Run(parse, steps[..k]), steps[k].o).events
  }

  /** Two refreshes see the same file, the later one no shorter than the earlier one could read it. */
  predicate SeeSame(a: Step, b: Step) {
    && a.See? && b.See? && a.o.device == b.o.device && a.o.inode == b.o.inode
    && |a.o.file| <= b.o.size
  }

  /** From step j to step k the path is refreshed as the same, not shrunk file. */
  ghost predicate Stays(steps: seq<Step>, j: nat, k: nat) {
    && j <= k < |steps| && steps[j].See?
    && forall h, i | j <= h < i <= k :: SeeSame(steps[h], steps[i])
  }

  /** The events of the lines read by the refreshes behind step j, up to step k. */
  ghost function Newer(parse: Parser, steps: seq<Step>, j: nat, k: nat): seq<Event>
    requires SizesSeen(steps) && j <= k < |steps|
    decreases k
  {
    if j == k then []
    else
      Newer(parse, steps, j, k - 1) +
      match Run(parse, steps[..k])
      case None => []
      case Some(e) =>
        if steps[k].See? && steps[k].o.tailOk && SameFile(e, steps[k].o)
        then Events(parse, NewLines(e, steps[k].o))
        else []
  }

  lemma {:induction false} EntriesAreCapped(parse: Parser, steps: seq<Step>)
    requires SizesSeen(steps)
    ensures Run(parse, steps).Some? ==> |Run(parse, steps).value.events| <= CAP
  {
    if steps != [] {
      EntriesAreCapped(parse, Front(steps));
    }
  }

  lemma StepRuns(parse: Parser, steps: seq<Step>, k: nat)
    requires SizesSeen(steps) && k < |steps|
    ensures SizesSeen(steps[..k + 1]) && SizesSeen(steps[..k])
    ensures Run(parse, steps[..k + 1]) ==
      match steps[k]
      case Evict => None
      case See(o) => Refresh(parse, Run(parse, steps[..k]), o).entry
  {
    assert Front(steps[..k + 1]) == steps[..k];
  }

  /** After step k the cache holds what the refresh returned. */
  ghost predicate Holds(parse: Parser, steps: seq<Step>, k: nat)
    requires SizesSeen(steps) && k < |steps| && steps[k].See?
  {
    var entry := Run(parse, steps[..k + 1]);
    && entry.Some? && IsOf(entry.value, steps[k].o) && entry.value.offset <= |steps[k].o.file|
    && entry.value.events == Result(parse, steps, k) && |entry.value.events| <= CAP
  }

  lemma RefreshHolds(parse: Parser, cached: Option<Entry>, o: Observation)
    requires 0 < o.size <= |o.file| && o.tailOk && (cached.Some? ==> |cached.value.events| <= CAP)
    ensures var r := Refresh(parse, cached, o);
      && r.entry.Some? && IsOf(r.entry.value, o) && r.entry.value.offset <= |o.file|
      && r.entry.value.events == r.events && |r.events| <= CAP
  {
  }

  lemma ReadHolds(parse: Parser, steps: seq<Step>, j: nat)
    requires SizesSeen(steps) && j < |steps| && steps[j].See? && steps[j].o.tailOk && steps[j].o.size > 0
    ensures Holds(parse, steps, j)
  {
    StepRuns(parse, steps, j);
    EntriesAreCapped(parse, steps[..j]);
    assert steps[j] in steps;
    RefreshHolds(parse, Run(parse, steps[..j]), steps[j].o);
  }

  /** One more refresh of the same file. */
  lemma OneMoreRefresh(parse: Parser, steps: seq<Step>, j: nat, k: nat) returns (more: seq<Event>)
    requires SizesSeen(steps) && j < k && Stays(steps, j, k) && Holds(parse, steps, k - 1)
    ensures Holds(parse, steps, k)
    ensures Newer(parse, steps, j, k) == Newer(parse, steps, j, k - 1) + more
    ensures Result(parse, steps, k) == Tail(Result(parse, steps, k - 1) + more, CAP)
  {
    var e, o := Run(parse, steps[..k]).value, steps[k].o;
    StepRuns(parse, steps, k);
    assert SeeSame(steps[k - 1], steps[k]);
    assert steps[k] in steps && SameFile(e, o);
    KnownStay(parse, e, o);
    more := if o.tailOk then Events(parse, NewLines(e, o)) else [];
    assert e.events + [] == e.events;
    assert Newer(parse, steps, j, k) == Newer(parse, steps, j, k - 1) + more;
  }

  /** While the path keeps naming the same, not shrunk file, a refresh returns the last 64 of what an earlier one
      returned and of the events of the lines read since, whatever gaps and failing reads come between. */
  lemma {:induction false} ResultGrows(parse: Parser, steps: seq<Step>, j: nat, k: nat)
    requires SizesSeen(steps) && Stays(steps, j, k) && steps[j].o.tailOk && steps[j].o.size > 0
    ensures Holds(parse, steps, k)
    ensures Result(parse, steps, k) == Tail(Result(parse, steps, j) + Newer(parse, steps, j, k), CAP)
    decreases k
  {
    if j == k {
      ReadHolds(parse, steps, j);
      assert Result(parse, steps, j) + [] == Result(parse, steps, j);
    } else {
      ResultGrows(parse, steps, j, k - 1);
      var more := OneMoreRefresh(parse, steps, j, k);
      GrowsOn(Result(parse, steps, j), Newer(parse, steps, j, k - 1), more);
    }
  }

  lemma GrowsOn(known: seq<Event>, newer: seq<Event>, more: seq<Event>)
    ensures Tail(Tail(known + newer, CAP) + more, CAP) == Tail(known + (newer + more), CAP)
  {
    TailOfTail(known + newer, more, CAP);
    Regroup(known, newer, more);
  }

  /** No event returned for the file disappears unless it and those behind it make way for 64 others. */
  lemma NothingKnownDisappears(parse: Parser, steps: seq<Step>, j: nat, k: nat, i: nat)
    requires SizesSeen(steps) && Stays(steps, j, k) && steps[j].o.tailOk && steps[j].o.size > 0
    requires i <= |Result(parse, steps, j)|
    requires |Result(parse, steps, j)| - i + |Newer(parse, steps, j, k)| <= CAP
    ensures IsSuffix(Result(parse, steps, j)[i..] + Newer(parse, steps, j, k), Result(parse, steps, k))
  {
    ResultGrows(parse, steps, j, k);
    EndKept(Result(parse, steps, j), Newer(parse, steps, j, k), i);
  }

  lemma EndKept(a: seq<Event>, b: seq<Event>, i: nat)
    requires i <= |a| && |a| - i + |b| <= CAP
    ensures IsSuffix(a[i..] + b, Tail(a + b, CAP))
  {
    var all := a + b;
    assert a[i..] + b == all[i..];
  }
}
