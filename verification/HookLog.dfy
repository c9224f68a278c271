/** Appending to the rotated hook log from many processes
    (src/codex_cli_monitor/hook_state.py, `_append_encoded_event`, `_acquire_lock`, `_rotate_hook_log`). */
module HookLog {
  import opened Sequences
  import opened Lines

  /** One encoded event; it ends with a newline, so it is never empty. */
  type Record = r: seq<Byte> | r != [] witness [NEWLINE]

  /** The three files: the log and its generations .1 and .2. */
  datatype Files = Files(current: Option<seq<Record>>, one: Option<seq<Record>>, two: Option<seq<Record>>)

  function Size(records: seq<Record>): nat {
    if records == [] then 0 else Size(Front(records)) + |Last(records)|
  }

  function RecordsOf(file: Option<seq<Record>>): seq<Record> {
    if file.Some? then file.value else []
  }

  /** Everything on disk, oldest first. */
  function Contents(f: Files): seq<Record> {
    RecordsOf(f.two) + RecordsOf(f.one) + RecordsOf(f.current)
  }

  // ---- one operating-system call at a time ------------------------------------------------------

  /** Where a writer is: each phase ends with one file-system call, after which it may be suspended
      or die. */
  datatype Phase =
    | Waiting | Locked | Sized(size: nat) | Unlinking | Shifting | Moving | Opening | Writing | Written
    | Finished | TimedOut | Crashed

  datatype Writer = Writer(record: Record, limit: nat, phase: Phase)

  /** `written` is the history of completed writes; no file operation depends on it. */
  datatype System = System(files: Files, holder: Option<nat>, writers: map<nat, Writer>, written: seq<Record>)

  /** A writer's next call, its giving up on the lock, or its death or failure, which frees the lock. */
  datatype Action = Step(w: nat) | Timeout(w: nat) | Crash(w: nat)

  predicate HoldsLock(p: Phase) {
    p.Locked? || p.Sized? || p.Unlinking? || p.Shifting? || p.Moving? || p.Opening? || p.Writing? || p.Written?
  }

  function At(s: System, w: nat, p: Phase): System
    requires w in s.writers
  {
    s.(writers := s.writers[w := s.writers[w].(phase := p)])
  }

  function Unlink(f: Files): Files { f.(two := None) }

  function Shift(f: Files): Files {
    if f.one.Some? then f.(two := f.one, one := None) else f
  }

  function Move(f: Files): Files {
    if f.current.Some? then f.(one := f.current, current := None) else f
  }

  function Open(f: Files): Files { f.(current := Some(RecordsOf(f.current))) }

  function Write(f: Files, r: Record): Files { f.(current := Some(RecordsOf(f.current) + [r])) }

  function Advance(s: System, w: nat): (t: System)
    requires w in s.writers
    ensures w in t.writers
  {
    var me := s.writers[w];
    match me.phase
    case Waiting => if s.holder.None? then At(s, w, Locked).(holder := Some(w)) else s
    case Locked => At(s, w, Sized(Size(RecordsOf(s.files.current))))
    case Sized(size) => At(s, w, if size > 0 && size + |me.record| > me.limit then Unlinking else Opening)
    case Unlinking => At(s, w, Shifting).(files := Unlink(s.files))
    case Shifting => At(s, w, Moving).(files := Shift(s.files))
    case Moving => At(s, w, Opening).(files := Move(s.files))
    case Opening => At(s, w, Writing).(files := Open(s.files))
    case Writing => At(s, w, Written).(files := Write(s.files, me.record), written := s.written + [me.record])
    case Written => At(s, w, Finished).(holder := None)
    case _ => s
  }

  function Next(s: System, a: Action): System {
    if a.w !in s.writers then s
    else
      match a
      case Step(w) => Advance(s, w)
      case Timeout(w) => if s.writers[w].phase.Waiting? then At(s, w, TimedOut) else s
      case Crash(w) => At(s, w, Crashed).(holder := if s.holder == Some(w) then None else s.holder)
  }

  function Run(s: System, schedule: seq<Action>): System {
    if schedule == [] then s else Next(Run(s, Front(schedule)), Last(schedule))
  }

  // ---- what every reachable state keeps ----------------------------------------------------------

  /** What the lock holder may rely on about the files at each of its phases. */
  ghost predicate PhaseFacts(f: Files, me: Writer) {
    var size := Size(RecordsOf(f.current));
    match me.phase
    case Sized(n) => n == size
    case Unlinking => size > 0 && size + |me.record| > me.limit
    case Shifting => size > 0 && f.two.None?
    case Moving => size > 0 && f.one.None?
    case Opening => size == 0 || size + |me.record| <= me.limit
    case Writing => size == 0 || size + |me.record| <= me.limit
    case _ => true
  }

  /** Only the holder of the lock is inside the critical section. */
  ghost predicate Locking(s: System) {
    forall w <- s.writers :: HoldsLock(s.writers[w].phase) ==> s.holder == Some(w)
  }

  ghost predicate Phases(s: System) {
    forall w <- s.writers :: PhaseFacts(s.files, s.writers[w])
  }

  ghost predicate Fits(s: System, max: nat) {
    forall w <- s.writers :: s.writers[w].limit <= max && |s.writers[w].record| <= max
  }

  ghost predicate Kept(s: System) {
    IsSuffix(Contents(s.files), s.written) && (s.written != [] ==> Contents(s.files) != [])
  }

  ghost predicate Bounded(f: Files, max: nat) {
    Size(RecordsOf(f.current)) <= max && Size(RecordsOf(f.one)) <= max && Size(RecordsOf(f.two)) <= max
  }

  ghost predicate Inv(s: System, max: nat) {
    Fits(s, max) && Locking(s) && Phases(s) && Bounded(s.files, max) && Kept(s)
  }

  /** No writer has begun and no file exists yet. */
  ghost predicate Initial(s: System, max: nat) {
    && s.files == Files(None, None, None) && s.holder == None && s.written == []
    && forall w <- s.writers ::
      (s.writers[w].phase == Waiting && s.writers[w].limit <= max && |s.writers[w].record| <= max)
  }

  lemma SizeZero(records: seq<Record>)
    ensures Size(records) == 0 <==> records == []
  {
  }

  lemma SizePush(records: seq<Record>, r: Record)
    ensures Size(records + [r]) == Size(records) + |r|
  {
    assert Front(records + [r]) == records;
  }

  /** What each call does to the records on disk. */
  lemma CallEffects(f: Files, r: Record)
    ensures Contents(f) == RecordsOf(f.two) + Contents(Unlink(f))
    ensures f.two.None? ==> Contents(Shift(f)) == Contents(f)
    ensures f.one.None? ==> Contents(Move(f)) == Contents(f)
    ensures Contents(Open(f)) == Contents(f)
    ensures Contents(Write(f, r)) == Contents(f) + [r]
  {
  }

  /** The calls that change files keep what is on disk a suffix of what was written. */
  lemma FilesStep(s: System, w: nat)
    requires w in s.writers && HoldsLock(s.writers[w].phase) && PhaseFacts(s.files, s.writers[w]) && Kept(s)
    ensures Kept(Advance(s, w)) && PhaseFacts(Advance(s, w).files, Advance(s, w).writers[w])
  {
    KeptStep(s, w);
    FactsStep(s, w);
  }

  lemma KeptStep(s: System, w: nat)
    requires w in s.writers && PhaseFacts(s.files, s.writers[w]) && Kept(s)
    ensures Kept(Advance(s, w))
  {
    var f, me := s.files, s.writers[w];
    SizeZero(RecordsOf(f.current));
    CallEffects(f, me.record);
    match me.phase
    case Unlinking => SuffixDrop(RecordsOf(f.two), Contents(Unlink(f)), s.written);
    case Writing => SuffixPush(Contents(f), me.record, s.written);
    case _ =>
  }

  lemma FactsStep(s: System, w: nat)
    requires w in s.writers && HoldsLock(s.writers[w].phase) && PhaseFacts(s.files, s.writers[w])
    ensures PhaseFacts(Advance(s, w).files, Advance(s, w).writers[w])
  {
  }

  lemma SuffixDrop(dropped: seq<Record>, kept: seq<Record>, whole: seq<Record>)
    requires IsSuffix(dropped + kept, whole)
    ensures IsSuffix(kept, whole)
  {
  }

  lemma SuffixPush(kept: seq<Record>, r: Record, whole: seq<Record>)
    requires IsSuffix(kept, whole)
    ensures IsSuffix(kept + [r], whole + [r])
  {
  }

  lemma SizesStep(s: System, w: nat, max: nat)
    requires w in s.writers && PhaseFacts(s.files, s.writers[w]) && Fits(s, max) && Bounded(s.files, max)
    ensures Bounded(Advance(s, w).files, max)
  {
    SizePush(RecordsOf(s.files.current), s.writers[w].record);
  }

  lemma LockingStep(s: System, a: Action)
    requires Locking(s)
    ensures Locking(Next(s, a))
  {
    if a.w in s.writers {
      var t := Next(s, a);
      forall w <- t.writers | HoldsLock(t.writers[w].phase) ensures t.holder == Some(w) {
        assert w != a.w ==> t.writers[w] == s.writers[w];
      }
    }
  }

  lemma MoverKeeps(s: System, a: Action)
    requires a.w in s.writers && Phases(s) && Kept(s)
    ensures a.w in Next(s, a).writers && PhaseFacts(Next(s, a).files, Next(s, a).writers[a.w])
  {
    if a.Step? && HoldsLock(s.writers[a.w].phase) {
      FilesStep(s, a.w);
    }
  }

  /** Outside the critical section nothing is known about the files, so nothing can be disturbed. */
  lemma PhasesStep(s: System, a: Action)
    requires Locking(s) && Phases(s) && Kept(s)
    ensures Phases(Next(s, a))
  {
    if a.w in s.writers {
      var t := Next(s, a);
      forall w <- t.writers ensures PhaseFacts(t.files, t.writers[w]) {
        if w == a.w {
          MoverKeeps(s, a);
        } else {
          OthersStay(s, a, w);
          OthersKeep(s.files, t.files, s.writers[w]);
        }
      }
    }
  }

  lemma OthersKeep(f: Files, g: Files, me: Writer)
    requires PhaseFacts(f, me) && (g == f || !HoldsLock(me.phase))
    ensures PhaseFacts(g, me)
  {
  }

  lemma OthersStay(s: System, a: Action, w: nat)
    requires Locking(s) && a.w in s.writers && w in Next(s, a).writers && w != a.w
    ensures w in s.writers && Next(s, a).writers[w] == s.writers[w]
    ensures Next(s, a).files == s.files || !HoldsLock(s.writers[w].phase)
  {
  }

  lemma NextKeeps(s: System, a: Action, max: nat)
    requires Inv(s, max)
    ensures Inv(Next(s, a), max)
  {
    LockingStep(s, a);
    PhasesStep(s, a);
    if a.w in s.writers {
      if a.Step? {
        SizesStep(s, a.w, max);
        if HoldsLock(s.writers[a.w].phase) {
          FilesStep(s, a.w);
        }
      }
      FitsStep(s, a, max);
    }
  }

  lemma FitsStep(s: System, a: Action, max: nat)
    requires Fits(s, max)
    ensures Fits(Next(s, a), max)
  {
    if a.w in s.writers {
      var t := Next(s, a);
      forall w <- t.writers ensures t.writers[w].limit <= max && |t.writers[w].record| <= max {
        assert t.writers[w].record == s.writers[w].record && t.writers[w].limit == s.writers[w].limit;
      }
    }
  }

  /** Any number of writers, any interleaving of their calls, lock timeouts and crashes anywhere,
      also inside a rotation: what is on disk is a suffix, at record boundaries, of the sequence of
      completed writes; the newest completed write is never lost; and no file outgrows the limit. */
  lemma {:induction false} EveryScheduleKeepsASuffix(s: System, schedule: seq<Action>, max: nat)
    requires Initial(s, max)
    ensures var t := Run(s, schedule);
      && Inv(t, max)
      && IsSuffix(Contents(t.files), t.written)
      && (t.written != [] ==> Contents(t.files) != [] && Last(Contents(t.files)) == Last(t.written))
      && Bounded(t.files, max)
  {
    if schedule != [] {
      EveryScheduleKeepsASuffix(s, Front(schedule), max);
      NextKeeps(Run(s, Front(schedule)), Last(schedule), max);
    }
  }

  /** Two writers are never inside the critical section at once. */
  lemma MutualExclusion(s: System, schedule: seq<Action>, max: nat, v: nat, w: nat)
    requires Initial(s, max)
    requires var t := Run(s, schedule); v in t.writers && w in t.writers
    requires var t := Run(s, schedule); HoldsLock(t.writers[v].phase) && HoldsLock(t.writers[w].phase)
    ensures v == w
  {
    EveryScheduleKeepsASuffix(s, schedule, max);
  }

  lemma StepKeepsContents(s: System, w: nat)
    requires w in s.writers && PhaseFacts(s.files, s.writers[w]) && s.writers[w].phase != Unlinking
    ensures Contents(s.files) <= Contents(Advance(s, w).files)
  {
    CallEffects(s.files, s.writers[w].record);
  }

  lemma UnlinkingDrops(s: System, w: nat)
    requires w in s.writers && PhaseFacts(s.files, s.writers[w]) && s.writers[w].phase == Unlinking
    ensures var log := RecordsOf(s.files.current);
      && log != [] && Size(log) + |s.writers[w].record| > s.writers[w].limit
      && Contents(Advance(s, w).files) == RecordsOf(s.files.one) + log
  {
    SizeZero(RecordsOf(s.files.current));
  }

  /** In every run, what is on disk stays there in front of anything new, unless a writer whose record no longer fits
      the log takes off the oldest generation. */
  lemma DropsOnlyWhenFull(s: System, schedule: seq<Action>, max: nat, a: Action)
    requires Initial(s, max)
    ensures var t := Run(s, schedule);
      var f, g := t.files, Next(t, a).files;
      || Contents(f) <= Contents(g)
      || (a.Step? && a.w in t.writers && RecordsOf(f.current) != []
          && Size(RecordsOf(f.current)) + |t.writers[a.w].record| > t.writers[a.w].limit
          && Contents(g) == RecordsOf(f.one) + RecordsOf(f.current))
  {
    EveryScheduleKeepsASuffix(s, schedule, max);
    var t := Run(s, schedule);
    if a.w in t.writers && a.Step? {
      assert PhaseFacts(t.files, t.writers[a.w]);
      if t.writers[a.w].phase == Unlinking {
        UnlinkingDrops(t, a.w);
      } else {
        StepKeepsContents(t, a.w);
      }
    }
  }

  // ---- one writer without interruption ---------------------------------------------------------

  function Rotated(f: Files): Files {
    Move(Shift(Unlink(f)))
  }

  predicate MustRotate(f: Files, r: Record, limit: nat) {
    Size(RecordsOf(f.current)) > 0 && Size(RecordsOf(f.current)) + |r| > limit
  }

  function Appended(f: Files, r: Record, limit: nat): Files {
    Write(if MustRotate(f, r, limit) then Rotated(f) else f, r)
  }

  /** A record that fits, or finds no other, goes behind those in the log; otherwise each generation becomes the
      next older one, and the record begins a new log. */
  lemma AppendMeans(f: Files, r: Record, limit: nat)
    ensures var log := RecordsOf(f.current);
      Appended(f, r, limit) ==
        if log == [] || Size(log) + |r| <= limit then f.(current := Some(log + [r]))
        else Files(Some([r]), f.current, f.one)
  {
    SizeZero(RecordsOf(f.current));
    assert [] + [r] == [r];
  }

  /** The log as one undisturbed process sees it. */
  class LogFiles {
    var current: Option<seq<Record>>
    var one: Option<seq<Record>>
    var two: Option<seq<Record>>

    function State(): Files reads this { Files(current, one, two) }

    constructor ()
      ensures State() == Files(None, None, None)
    {
      current, one, two := None, None, None;
    }

    method RotateHookLog()
      modifies this
      ensures State() == Rotated(old(State()))
    {
      two := None;
      if one.Some? {
        two, one := one, None;
      }
      if current.Some? {
        one, current := current, None;
      }
    }

    method AppendEncodedEvent(encoded: Record, maxBytes: nat)
      modifies this
      ensures State() == Appended(old(State()), encoded, maxBytes)
      ensures Contents(State()) == (if MustRotate(old(State()), encoded, maxBytes)
                                    then RecordsOf(old(one)) + RecordsOf(old(current))
                                    else Contents(old(State()))) + [encoded]
    {
      var size := Size(RecordsOf(current));
      if size > 0 && size + |encoded| > maxBytes {
        RotateHookLog();
      }
      current := Some(RecordsOf(current) + [encoded]);
      AppendedContents(old(State()), encoded, maxBytes);
    }
  }

  /** An append adds its record last, and a rotation costs exactly the oldest generation. */
  lemma AppendedContents(f: Files, r: Record, limit: nat)
    ensures Contents(Appended(f, r, limit)) ==
      (if MustRotate(f, r, limit) then RecordsOf(f.one) + RecordsOf(f.current) else Contents(f)) + [r]
  {
    if MustRotate(f, r, limit) {
      var g := Unlink(f);
      CallEffects(g, r);
      CallEffects(Shift(g), r);
      assert Contents(g) == RecordsOf(f.one) + RecordsOf(f.current);
      CallEffects(Rotated(f), r);
    } else {
      CallEffects(f, r);
    }
  }

  function Alone(s: System, w: nat, k: nat): System {
    Run(s, seq(k, _ => Step(w)))
  }

  /** The state of the system when writer w is in the given phase. */
  function Placed(s: System, w: nat, p: Phase, files: Files, written: seq<Record>): System
    requires w in s.writers
  {
    System(files, if HoldsLock(p) then Some(w) else None, s.writers[w := s.writers[w].(phase := p)], written)
  }

  lemma AloneStep(s: System, w: nat, k: nat, p: Phase, files: Files, written: seq<Record>)
    requires w in s.writers && Alone(s, w, k) == Placed(s, w, p, files, written)
    ensures Alone(s, w, k + 1) == Advance(Placed(s, w, p, files, written), w)
    ensures forall q, f, h ::
      Placed(s, w, p, f, h).writers[w := s.writers[w].(phase := q)] == Placed(s, w, q, f, h).writers
  {
    assert Front(seq(k + 1, _ => Step(w))) == seq(k, _ => Step(w));
  }

  lemma ToDecision(s: System, w: nat)
    requires w in s.writers && s.writers[w].phase == Waiting && s.holder.None?
    ensures var me := s.writers[w];
      var decided := if MustRotate(s.files, me.record, me.limit) then Unlinking else Opening;
      Alone(s, w, 3) == Placed(s, w, decided, s.files, s.written)
  {
    assert Alone(s, w, 0) == s && s.writers == s.writers[w := s.writers[w].(phase := Waiting)];
    AloneStep(s, w, 0, Waiting, s.files, s.written);
    AloneStep(s, w, 1, Locked, s.files, s.written);
    AloneStep(s, w, 2, Sized(Size(RecordsOf(s.files.current))), s.files, s.written);
  }

  lemma ThroughRotation(s: System, w: nat, k: nat, f: Files)
    requires w in s.writers && Alone(s, w, k) == Placed(s, w, Unlinking, f, s.written)
    ensures Alone(s, w, k + 3) == Placed(s, w, Opening, Rotated(f), s.written)
  {
    AloneStep(s, w, k, Unlinking, f, s.written);
    AloneStep(s, w, k + 1, Shifting, Unlink(f), s.written);
    AloneStep(s, w, k + 2, Moving, Shift(Unlink(f)), s.written);
  }

  lemma ThroughWrite(s: System, w: nat, k: nat, f: Files)
    requires w in s.writers && Alone(s, w, k) == Placed(s, w, Opening, f, s.written)
    ensures var r := s.writers[w].record;
      Alone(s, w, k + 3) == Placed(s, w, Finished, Write(f, r), s.written + [r])
  {
    var r := s.writers[w].record;
    AloneStep(s, w, k, Opening, f, s.written);
    AloneStep(s, w, k + 1, Writing, Open(f), s.written);
    AloneStep(s, w, k + 2, Written, Write(f, r), s.written + [r]);
  }

  /** The undisturbed steps of a writer that finds the lock free are one append of its record. */
  lemma UninterruptedAppend(s: System, w: nat) returns (k: nat)
    requires w in s.writers && s.writers[w].phase == Waiting && s.holder.None?
    ensures Alone(s, w, k) == Placed(s, w, Finished, Appended(s.files, s.writers[w].record, s.writers[w].limit),
                                     s.written + [s.writers[w].record])
  {
    var me := s.writers[w];
    ToDecision(s, w);
    if MustRotate(s.files, me.record, me.limit) {
      ThroughRotation(s, w, 3, s.files);
      ThroughWrite(s, w, 6, Rotated(s.files));
      k := 9;
    } else {
      ThroughWrite(s, w, 3, s.files);
      k := 6;
    }
  }
}
