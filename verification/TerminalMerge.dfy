/** When merging the two recovery windows of a first scan keeps file order
    (src/codex_cli_monitor/terminal_state.py, `_merge_lifecycle_events` as `_terminal_events` calls it). */
module TerminalMerge {
  import opened Sequences
  import opened Lines
  import opened TerminalTail
  import opened TerminalTailProofs

  // ---- the windows, as parts of the file's list of events ---------------------------------------------------

  lemma WindowEventsAre(parse: Parser, window: seq<Byte>, startsFile: bool)
    ensures Events(parse, WindowLines(window, startsFile)) == Events(parse, Kept(Complete(window), !startsFile))
  {
    var lines := Complete(window);
    assert Front(Split(window)) == lines;
    if window == [] || Last(window) == NEWLINE {
      var empty: seq<seq<Byte>> := [[]];
      EventsOfOne(parse, []);
      assert Split(window) == lines + empty;
      if startsFile || lines == [] {
        EventsConcat(parse, lines, empty);
      } else {
        assert Split(window)[1..] == lines[1..] + empty;
        EventsConcat(parse, lines[1..], empty);
      }
    }
  }

  lemma PrefixIsTail(parse: Parser, file: seq<Byte>, offset: nat)
    requires offset <= |file|
    ensures PrefixEvents(parse, file, offset)
        == Tail(FileEvents(parse, file[..Min(offset, MAX_LIFECYCLE_PREFIX_BYTES)]), CAP)
  {
    WindowEventsAre(parse, file[..Min(offset, MAX_LIFECYCLE_PREFIX_BYTES)], true);
  }

  lemma EventsOfPrefix(parse: Parser, file: seq<Byte>, k: nat, offset: nat)
    requires k <= offset <= |file|
    ensures FileEvents(parse, file[..k]) <= FileEvents(parse, file[..offset])
  {
    assert file[..offset] == file[..k] + file[k..offset];
    FileEventsReadOn(parse, file[..k], file[k..offset]);
  }

  /** A window behind `seen`, without its first line. */
  lemma CutWindowIsSuffix(parse: Parser, seen: seq<Byte>, window: seq<Byte>)
    ensures IsSuffix(Events(parse, Kept(Complete(window), true)), FileEvents(parse, Rest(seen) + window))
  {
    var rest := Rest(seen);
    NoNewline(rest, seen);
    LostStart(rest, window);
    CutWindow(parse, rest, Complete(window), Complete(rest + window));
  }

  lemma SuffixBehind<T>(a: seq<T>, b: seq<T>, c: seq<T>)
    requires IsSuffix(c, b)
    ensures IsSuffix(c, a + b)
  {
  }

  lemma WindowIsSuffix(parse: Parser, file: seq<Byte>, start: nat, offset: nat)
    requires start <= offset <= |file|
    ensures IsSuffix(Events(parse, WindowLines(file[start..offset], start == 0)), FileEvents(parse, file[..offset]))
  {
    var seen, window := file[..start], file[start..offset];
    WindowEventsAre(parse, window, start == 0);
    assert file[..offset] == seen + window;
    if start == 0 {
      assert seen + window == window;
    } else {
      FileEventsReadOn(parse, seen, window);
      CutWindowIsSuffix(parse, seen, window);
      SuffixBehind(FileEvents(parse, seen), FileEvents(parse, Rest(seen) + window),
        Events(parse, Kept(Complete(window), true)));
    }
  }

  lemma CutWindow(parse: Parser, x: seq<Byte>, lines: seq<seq<Byte>>, whole: seq<seq<Byte>>)
    requires if lines == [] then whole == [] else whole == [x + lines[0]] + lines[1..]
    ensures IsSuffix(Events(parse, Kept(lines, true)), Events(parse, whole))
  {
    if lines != [] {
      EventsConcat(parse, [x + lines[0]], lines[1..]);
    }
  }

  /** How many of the events in front of the tail the first window has read. */
  function PrefixCount(parse: Parser, o: Observation, offset: nat): nat
    requires offset <= |o.file|
  {
    if o.prefixOk then |FileEvents(parse, o.file[..Min(offset, MAX_LIFECYCLE_PREFIX_BYTES)])| else 0
  }

  /** How many the second window holds: the last ones in front of the tail. */
  function BackscanCount(parse: Parser, o: Observation, offset: nat): nat
    requires offset <= |o.file|
  {
    if o.backscanOk then |BackscanEvents(parse, o.file, offset)| else 0
  }

  /** The windows as the reader forms them: the capped tail of the first n events, and the events from m on. */
  function MergedWindows(whole: seq<Event>, n: nat, m: nat): seq<Event>
    requires n <= |whole| && m <= |whole|
  {
    MergeEvents(Tail(whole[..n], CAP), whole[m..])
  }

  lemma FirstWindow(parse: Parser, o: Observation, offset: nat)
    requires offset <= |o.file|
    ensures PrefixCount(parse, o, offset) <= |FileEvents(parse, o.file[..offset])|
    ensures (if o.prefixOk then PrefixEvents(parse, o.file, offset) else [])
            == Tail(FileEvents(parse, o.file[..offset])[..PrefixCount(parse, o, offset)], CAP)
  {
    var whole, k := FileEvents(parse, o.file[..offset]), Min(offset, MAX_LIFECYCLE_PREFIX_BYTES);
    var read := FileEvents(parse, o.file[..k]);
    EventsOfPrefix(parse, o.file, k, offset);
    PrefixIsTail(parse, o.file, offset);
    assert read == whole[..|read|];
  }

  lemma SecondWindow(parse: Parser, o: Observation, offset: nat)
    requires offset <= |o.file|
    ensures BackscanCount(parse, o, offset) <= |FileEvents(parse, o.file[..offset])|
    ensures var whole := FileEvents(parse, o.file[..offset]);
      (if o.backscanOk then BackscanEvents(parse, o.file, offset) else [])
      == whole[|whole| - BackscanCount(parse, o, offset)..]
  {
    WindowIsSuffix(parse, o.file, Excess(offset, MAX_LIFECYCLE_BACKSCAN_BYTES), offset);
  }

  lemma NothingInFront(parse: Parser, file: seq<Byte>)
    ensures FileEvents(parse, file[..0]) == [] && MergeEvents([], []) == []
  {
    assert file[..0] == [];
    var none: seq<Event> := [];
    assert none + none == none && Dedupe(none) == none;
  }

  /** What a first scan recovers is the merge of the capped tail of the n events the first window has read and
      of the file's events from m on. */
  lemma RecoveredAreMerged(parse: Parser, o: Observation, offset: nat, whole: seq<Event>, n: nat, m: nat)
    requires offset <= |o.file| && whole == FileEvents(parse, o.file[..offset])
    requires n == PrefixCount(parse, o, offset) && m + BackscanCount(parse, o, offset) == |whole|
    ensures n <= |whole| && RecoveredEvents(parse, o, offset) == MergedWindows(whole, n, m)
  {
    var first := if o.prefixOk then PrefixEvents(parse, o.file, offset) else [];
    var second := if o.backscanOk then BackscanEvents(parse, o.file, offset) else [];
    FirstWindow(parse, o, offset);
    assert first == Tail(whole[..n], CAP);
    SecondWindow(parse, o, offset);
    assert second == whole[m..];
    if offset == 0 {
      NothingInFront(parse, o.file);
    }
  }

  // ---- the merge, on positions ---------------------------------------------------------------------------------

  function Identity(e: Event): Event { e }

  function Range(i: nat, j: nat): seq<nat>
    requires i <= j
  {
    seq(j - i, k requires 0 <= k < j - i => i + k)
  }

  /** Where the capped tail of the first n events starts. */
  function CappedFrom(n: nat): nat { Excess(n, CAP) }

  function Later(n: nat, m: nat): nat { if n <= m then m else n }

  /** The positions the windows bring in, in the order the merge meets them first: the capped tail, what the
      second window holds from in front of it, and what is behind it. */
  function Positions(size: nat, n: nat, m: nat): seq<nat>
    requires n <= size && m <= size
  {
    Range(CappedFrom(n), n) + (if m < CappedFrom(n) then Range(m, CappedFrom(n)) else []) + Range(Later(n, m), size)
  }

  ghost predicate InRange(ps: seq<nat>, size: nat) { forall p <- ps :: p < size }

  function At(whole: seq<Event>, ps: seq<nat>): seq<Event>
    requires InRange(ps, |whole|)
  {
    seq(|ps|, k requires 0 <= k < |ps| => assert ps[k] in ps; whole[ps[k]])
  }

  function NotIn(xs: seq<Event>): Event -> bool { (e: Event) => e !in xs }

  lemma {:induction false} DedupeDistinct(xs: seq<Event>)
    requires Distinct(xs, Identity)
    ensures Dedupe(xs) == xs
  {
    if xs != [] {
      DedupeDistinct(Front(xs));
      LastIsNew(xs);
    }
  }

  lemma LastIsNew(xs: seq<Event>)
    requires xs != [] && Distinct(xs, Identity)
    ensures Last(xs) !in Front(xs) && Distinct(Front(xs), Identity)
  {
    assert forall i | 0 <= i < |xs| - 1 :: Identity(xs[i]) != Identity(xs[|xs| - 1]);
  }

  /** De-duplication keeps the first window and what the second adds to it. */
  lemma {:induction false} DedupeTwo(xs: seq<Event>, ys: seq<Event>)
    requires Distinct(xs, Identity) && Distinct(ys, Identity)
    ensures Dedupe(xs + ys) == xs + Filter(ys, NotIn(xs))
  {
    if ys == [] {
      DedupeDistinct(xs);
      assert xs + ys == xs;
    } else {
      LastIsNew(ys);
      DedupeTwo(xs, Front(ys));
      assert Front(xs + ys) == xs + Front(ys);
    }
  }

  lemma DistinctSlice(whole: seq<Event>, i: nat, j: nat)
    requires Distinct(whole, Identity) && i <= j <= |whole|
    ensures Distinct(whole[i..j], Identity)
  {
    forall a, b | 0 <= a < b < j - i ensures Identity(whole[i..j][a]) != Identity(whole[i..j][b]) {
      assert Identity(whole[i + a]) != Identity(whole[i + b]);
    }
  }

  lemma NotAmong(whole: seq<Event>, a: nat, n: nat, p: nat)
    requires Distinct(whole, Identity) && a <= n <= |whole| && p < |whole|
    ensures whole[p] in whole[a..n] <==> a <= p < n
  {
    if a <= p < n {
      assert whole[a..n][p - a] == whole[p];
    }
    forall k | 0 <= k < n - a && whole[a..n][k] == whole[p] ensures a + k == p {
      SamePlace(whole, a + k, p);
    }
  }

  /** What a stretch of the second window adds to the first window: all of it, or nothing. */
  lemma {:induction false} Adds(whole: seq<Event>, i: nat, j: nat, a: nat, n: nat)
    requires Distinct(whole, Identity) && i <= j <= |whole| && a <= n <= |whole|
    ensures j <= a || n <= i ==> Filter(whole[i..j], NotIn(whole[a..n])) == whole[i..j]
    ensures a <= i && j <= n ==> Filter(whole[i..j], NotIn(whole[a..n])) == []
  {
    if i < j {
      Adds(whole, i, j - 1, a, n);
      SliceFront(whole, i, j);
      NotAmong(whole, a, n, j - 1);
      var x := whole[i..j];
      assert Front(x) == whole[i..j - 1] && Last(x) == whole[j - 1];
      assert x == Front(x) + [Last(x)];
    }
  }

  /** What the whole second window adds. */
  lemma ThreeParts(whole: seq<Event>, m: nat, a: nat, n: nat)
    requires m <= a <= n <= |whole|
    ensures whole[m..] == whole[m..a] + (whole[a..n] + whole[n..|whole|])
  {
  }

  lemma DropsMiddle(x: seq<Event>, y: seq<Event>, z: seq<Event>, p: Event -> bool)
    requires Filter(x, p) == x && Filter(y, p) == [] && Filter(z, p) == z
    ensures Filter(x + (y + z), p) == x + z
  {
    FilterConcat(x, y + z, p);
    FilterConcat(y, z, p);
    assert [] + z == z;
  }

  lemma AddsFromFront(whole: seq<Event>, m: nat, a: nat, n: nat)
    requires Distinct(whole, Identity) && m <= a <= n <= |whole|
    ensures Filter(whole[m..], NotIn(whole[a..n])) == whole[m..a] + whole[n..|whole|]
  {
    ThreeParts(whole, m, a, n);
    Adds(whole, m, a, a, n);
    Adds(whole, a, n, a, n);
    Adds(whole, n, |whole|, a, n);
    DropsMiddle(whole[m..a], whole[a..n], whole[n..|whole|], NotIn(whole[a..n]));
  }

  lemma AddsFromInside(whole: seq<Event>, m: nat, a: nat, n: nat)
    requires Distinct(whole, Identity) && a <= n <= |whole| && a <= m <= |whole|
    ensures Filter(whole[m..], NotIn(whole[a..n])) == whole[Later(n, m)..|whole|]
  {
    var p := NotIn(whole[a..n]);
    if m < n {
      assert whole[m..] == whole[m..n] + whole[n..|whole|];
      FilterConcat(whole[m..n], whole[n..|whole|], p);
      Adds(whole, m, n, a, n);
      Adds(whole, n, |whole|, a, n);
    } else {
      assert whole[m..] == whole[m..|whole|];
      Adds(whole, m, |whole|, a, n);
    }
  }

  /** The list before sorting and capping. */
  lemma DedupedWindows(whole: seq<Event>, n: nat, m: nat)
    requires Distinct(whole, Identity) && n <= |whole| && m <= |whole|
    ensures var a := CappedFrom(n);
      Dedupe(Tail(whole[..n], CAP) + whole[m..]) ==
        whole[a..n] + (if m < a then whole[m..a] else []) + whole[Later(n, m)..|whole|]
  {
    var a := CappedFrom(n);
    assert Tail(whole[..n], CAP) == whole[a..n] && whole[m..] == whole[m..|whole|];
    DistinctSlice(whole, a, n);
    DistinctSlice(whole, m, |whole|);
    DedupeTwo(whole[a..n], whole[m..]);
    if m < a {
      AddsFromFront(whole, m, a, n);
      assert whole[a..n] + (whole[m..a] + whole[n..|whole|]) == whole[a..n] + whole[m..a] + whole[n..|whole|];
    } else {
      AddsFromInside(whole, m, a, n);
      assert whole[a..n] + [] == whole[a..n];
    }
  }

  lemma AtRange(whole: seq<Event>, i: nat, j: nat)
    requires i <= j <= |whole|
    ensures InRange(Range(i, j), |whole|) && At(whole, Range(i, j)) == whole[i..j]
  {
  }

  lemma AtConcat(whole: seq<Event>, p: seq<nat>, q: seq<nat>)
    requires InRange(p, |whole|) && InRange(q, |whole|)
    ensures InRange(p + q, |whole|) && At(whole, p + q) == At(whole, p) + At(whole, q)
  {
  }

  lemma DedupedAreAt(whole: seq<Event>, n: nat, m: nat)
    requires Distinct(whole, Identity) && n <= |whole| && m <= |whole|
    ensures InRange(Positions(|whole|, n, m), |whole|)
    ensures Dedupe(Tail(whole[..n], CAP) + whole[m..]) == At(whole, Positions(|whole|, n, m))
  {
    var a := CappedFrom(n);
    var middle := if m < a then Range(m, a) else [];
    DedupedWindows(whole, n, m);
    AtRange(whole, a, n);
    AtRange(whole, Later(n, m), |whole|);
    if m < a {
      AtRange(whole, m, a);
    }
    AtConcat(whole, Range(a, n), middle);
    AtConcat(whole, Range(a, n) + middle, Range(Later(n, m), |whole|));
  }

  // ---- the order the merge gives them ---------------------------------------------------------------------------

  function StampAt(whole: seq<Event>, p: nat): real { if p < |whole| then Stamp(whole[p]) else 0.0 }

  function ByStamp(whole: seq<Event>): (nat, nat) -> bool {
    (p: nat, q: nat) => StampAt(whole, p) <= StampAt(whole, q)
  }

  /** The part of the second window in front of the capped tail comes behind that tail; otherwise position
      decides. */
  predicate Before(n: nat, m: nat, p: nat, q: nat) {
    var a := CappedFrom(n);
    if m <= q < a <= p < n then true
    else if m <= p < a <= q < n then false
    else p < q
  }

  /** p is merged in front of q: by timestamp first, if the events are sorted at all. */
  predicate Ahead(whole: seq<Event>, n: nat, m: nat, stamped: bool, p: nat, q: nat) {
    if stamped && StampAt(whole, p) != StampAt(whole, q) then StampAt(whole, p) < StampAt(whole, q)
    else Before(n, m, p, q)
  }

  function BeforeIn(n: nat, m: nat): (nat, nat) -> bool { (p: nat, q: nat) => Before(n, m, p, q) }

  function AheadIn(whole: seq<Event>, n: nat, m: nat, stamped: bool): (nat, nat) -> bool {
    (p: nat, q: nat) => Ahead(whole, n, m, stamped, p, q)
  }

  ghost predicate StrictlyOrdered(ps: seq<nat>, ahead: (nat, nat) -> bool) {
    forall s, t | 0 <= s < t < |ps| :: ahead(ps[s], ps[t])
  }

  lemma PositionsOrdered(size: nat, n: nat, m: nat)
    requires n <= size && m <= size
    ensures StrictlyOrdered(Positions(size, n, m), BeforeIn(n, m))
  {
    var a, ps := CappedFrom(n), Positions(size, n, m);
    var first := n - a;
    var middle := if m < a then a - m else 0;
    forall s, t | 0 <= s < t < |ps| ensures Before(n, m, ps[s], ps[t]) {
      assert s < first ==> ps[s] == a + s;
      assert first <= s < first + middle ==> ps[s] == m + (s - first);
      assert s >= first + middle ==> ps[s] == Later(n, m) + (s - first - middle);
      assert t < first ==> ps[t] == a + t;
      assert first <= t < first + middle ==> ps[t] == m + (t - first);
      assert t >= first + middle ==> ps[t] == Later(n, m) + (t - first - middle);
    }
  }

  lemma FrontAt(whole: seq<Event>, ps: seq<nat>)
    requires InRange(ps, |whole|)
    ensures ps != [] ==>
      && InRange(Front(ps), |whole|) && Last(ps) < |whole|
      && At(whole, ps) != [] && Front(At(whole, ps)) == At(whole, Front(ps)) && Last(At(whole, ps)) == whole[Last(ps)]
  {
    if ps != [] {
      assert Last(ps) in ps && forall p <- Front(ps) :: p in ps;
    }
  }

  lemma AtPush(whole: seq<Event>, ps: seq<nat>, p: nat)
    requires InRange(ps, |whole|) && p < |whole|
    ensures InRange(ps + [p], |whole|) && At(whole, ps + [p]) == At(whole, ps) + [whole[p]]
  {
  }

  /** Sorting the positions is sorting the events. */
  lemma {:induction false} SortsAlike(whole: seq<Event>, ps: seq<nat>)
    requires InRange(ps, |whole|)
    ensures InRange(StableSort(ps, ByStamp(whole)), |whole|)
    ensures At(whole, StableSort(ps, ByStamp(whole))) == StableSort(At(whole, ps), NotAfter)
  {
    if ps != [] {
      FrontAt(whole, ps);
      SortsAlike(whole, Front(ps));
      InsertsAlike(whole, StableSort(Front(ps), ByStamp(whole)), Last(ps));
    }
  }

  lemma {:induction false} InsertsAlike(whole: seq<Event>, ps: seq<nat>, p: nat)
    requires InRange(ps, |whole|) && p < |whole|
    ensures InRange(Insert(ps, p, ByStamp(whole)), |whole|)
    ensures At(whole, Insert(ps, p, ByStamp(whole))) == Insert(At(whole, ps), whole[p], NotAfter)
  {
    FrontAt(whole, ps);
    if ps == [] || StampAt(whole, Last(ps)) <= StampAt(whole, p) {
      AtPush(whole, ps, p);
    } else {
      InsertsAlike(whole, Front(ps), p);
      AtPush(whole, Insert(Front(ps), p, ByStamp(whole)), Last(ps));
    }
  }

  /** A stable sort of events that came in the order of Before puts them in the order of Ahead. */
  lemma {:induction false} SortedAhead(whole: seq<Event>, n: nat, m: nat, ps: seq<nat>)
    requires StrictlyOrdered(ps, BeforeIn(n, m))
    ensures StrictlyOrdered(StableSort(ps, ByStamp(whole)), AheadIn(whole, n, m, true))
  {
    if ps != [] {
      var front, last := Front(ps), Last(ps);
      SortedAhead(whole, n, m, front);
      SortMembers(front, ByStamp(whole));
      var sorted := StableSort(front, ByStamp(whole));
      forall p <- sorted ensures Before(n, m, p, last) {
        assert p in front;
        var s :| 0 <= s < |front| && front[s] == p;
        assert ps[s] == p && ps[|ps| - 1] == last;
      }
      InsertAhead(whole, n, m, sorted, last);
    }
  }

  lemma InFrontOfLast(whole: seq<Event>, n: nat, m: nat, sorted: seq<nat>, x: nat, r: seq<nat>)
    requires sorted != [] && StrictlyOrdered(sorted, AheadIn(whole, n, m, true))
    requires StampAt(whole, x) < StampAt(whole, Last(sorted)) && multiset(r) == multiset(Front(sorted)) + multiset{x}
    ensures forall s | 0 <= s < |r| :: Ahead(whole, n, m, true, r[s], Last(sorted))
  {
    forall s | 0 <= s < |r| ensures Ahead(whole, n, m, true, r[s], Last(sorted)) {
      assert r[s] in multiset(r);
      if r[s] != x {
        assert r[s] in Front(sorted);
        var u :| 0 <= u < |sorted| - 1 && sorted[u] == r[s];
        assert AheadIn(whole, n, m, true)(sorted[u], sorted[|sorted| - 1]);
      }
    }
  }

  lemma {:induction false} InsertAhead(whole: seq<Event>, n: nat, m: nat, sorted: seq<nat>, x: nat)
    requires StrictlyOrdered(sorted, AheadIn(whole, n, m, true))
    requires forall p <- sorted :: Before(n, m, p, x)
    ensures StrictlyOrdered(Insert(sorted, x, ByStamp(whole)), AheadIn(whole, n, m, true))
  {
    if sorted == [] || StampAt(whole, Last(sorted)) <= StampAt(whole, x) {
      forall s | 0 <= s < |sorted| ensures Ahead(whole, n, m, true, sorted[s], x) {
        assert sorted[s] in sorted;
        assert s < |sorted| - 1 ==> AheadIn(whole, n, m, true)(sorted[s], sorted[|sorted| - 1]);
      }
    } else {
      assert forall p <- Front(sorted) :: p in sorted;
      InsertAhead(whole, n, m, Front(sorted), x);
      InsertPermutes(Front(sorted), x, ByStamp(whole));
      InFrontOfLast(whole, n, m, sorted, x, Insert(Front(sorted), x, ByStamp(whole)));
    }
  }

  // ---- which merges keep file order -------------------------------------------------------------------------------

  /** How many of the positions come behind p. */
  ghost function Behind(ps: set<nat>, ahead: (nat, nat) -> bool, p: nat): nat {
    |set q | q in ps && ahead(p, q)|
  }

  ghost predicate Asymmetric(ahead: (nat, nat) -> bool) {
    forall p: nat, q: nat :: ahead(p, q) ==> !ahead(q, p)
  }

  function Members(ps: seq<nat>): set<nat> { set p | p in ps }

  lemma {:induction false} CountMembers(ps: seq<nat>, ahead: (nat, nat) -> bool)
    requires StrictlyOrdered(ps, ahead) && Asymmetric(ahead)
    ensures |Members(ps)| == |ps|
  {
    if ps != [] {
      CountMembers(Front(ps), ahead);
      assert ps == Front(ps) + [Last(ps)];
      assert Members(ps) == Members(Front(ps)) + {Last(ps)};
      assert Last(ps) !in Front(ps) by {
        forall s | 0 <= s < |ps| - 1 ensures ps[s] != ps[|ps| - 1] {
          assert ahead(ps[s], ps[|ps| - 1]);
        }
      }
    }
  }

  lemma BehindIs(ps: seq<nat>, ahead: (nat, nat) -> bool, s: nat)
    requires StrictlyOrdered(ps, ahead) && Asymmetric(ahead) && s < |ps|
    ensures Behind(Members(ps), ahead, ps[s]) == |ps| - 1 - s
  {
    var rest := ps[s + 1..];
    CountMembers(rest, ahead);
    forall q ensures q in Members(rest) <==> q in Members(ps) && ahead(ps[s], q) {
      if q in ps && ahead(ps[s], q) {
        var t :| 0 <= t < |ps| && ps[t] == q;
        assert t > s;
        assert rest[t - s - 1] == q;
      }
      if q in rest {
        var t :| 0 <= t < |rest| && rest[t] == q;
        assert ps[s + 1 + t] == q;
      }
    }
    assert Members(rest) == set q | q in Members(ps) && ahead(ps[s], q);
  }

  /** No later position is merged in front of an earlier one and still among the last `cap`. */
  ghost predicate NothingOvertaken(ps: set<nat>, ahead: (nat, nat) -> bool, cap: nat) {
    forall i, j | i in ps && j in ps && i < j && ahead(j, i) :: Behind(ps, ahead, j) >= cap
  }

  /** From index `from` on the positions ascend. */
  ghost predicate Ascending(ps: seq<nat>, from: nat) { forall s, t | from <= s < t < |ps| :: ps[s] < ps[t] }

  lemma PlaceOf(ps: seq<nat>, ahead: (nat, nat) -> bool, p: nat) returns (s: nat)
    requires StrictlyOrdered(ps, ahead) && Asymmetric(ahead) && p in Members(ps)
    ensures s < |ps| && ps[s] == p && Behind(Members(ps), ahead, p) == |ps| - 1 - s
  {
    s :| 0 <= s < |ps| && ps[s] == p;
    BehindIs(ps, ahead, s);
  }

  /** What overtakes an earlier position is not among the ascending ones. */
  lemma OvertakerIsSkipped(ps: seq<nat>, ahead: (nat, nat) -> bool, from: nat, i: nat, j: nat)
    requires StrictlyOrdered(ps, ahead) && Asymmetric(ahead) && from <= |ps| && Ascending(ps, from)
    requires i in Members(ps) && j in Members(ps) && i < j && ahead(j, i)
    ensures from > 0 && Behind(Members(ps), ahead, j) >= |ps| - from
  {
    var s := PlaceOf(ps, ahead, j);
    var t := PlaceOf(ps, ahead, i);
    InOrder(ps, ahead, t, s);
  }

  lemma InOrder(ps: seq<nat>, ahead: (nat, nat) -> bool, s: nat, t: nat)
    requires StrictlyOrdered(ps, ahead) && Asymmetric(ahead) && s < |ps| && t < |ps|
    ensures s < t ==> ahead(ps[s], ps[t]) && !ahead(ps[t], ps[s])
  {
  }

  lemma OvertakingNothingAscends(ps: seq<nat>, ahead: (nat, nat) -> bool, cap: nat, from: nat, s: nat, t: nat)
    requires StrictlyOrdered(ps, ahead) && Asymmetric(ahead) && from <= s < t < |ps|
    requires |ps| - from <= cap && NothingOvertaken(Members(ps), ahead, cap)
    ensures ps[s] < ps[t]
  {
    InOrder(ps, ahead, s, t);
    assert ps[s] in ps && ps[t] in ps;
    BehindIs(ps, ahead, s);
  }

  lemma TailAscendsIff(ps: seq<nat>, ahead: (nat, nat) -> bool, cap: nat)
    requires StrictlyOrdered(ps, ahead) && Asymmetric(ahead)
    ensures Ascending(ps, Excess(|ps|, cap)) <==> NothingOvertaken(Members(ps), ahead, cap)
  {
    var from := Excess(|ps|, cap);
    if Ascending(ps, from) {
      forall i, j | i in Members(ps) && j in Members(ps) && i < j && ahead(j, i)
        ensures Behind(Members(ps), ahead, j) >= cap
      {
        OvertakerIsSkipped(ps, ahead, from, i, j);
      }
    } else {
      var s, t :| from <= s < t < |ps| && ps[s] >= ps[t];
      if NothingOvertaken(Members(ps), ahead, cap) {
        OvertakingNothingAscends(ps, ahead, cap, from, s, t);
      }
    }
  }

  ghost predicate Precedes(whole: seq<Event>, x: Event, y: Event) {
    exists i, j | 0 <= i < j < |whole| :: whole[i] == x && whole[j] == y
  }

  ghost predicate FollowsFile(whole: seq<Event>, events: seq<Event>) {
    forall i, j | 0 <= i < j < |events| :: Precedes(whole, events[i], events[j])
  }

  lemma FollowsAscending(whole: seq<Event>, ps: seq<nat>)
    requires Distinct(whole, Identity) && InRange(ps, |whole|)
    ensures FollowsFile(whole, At(whole, ps)) <==> Ascending(ps, 0)
  {
    forall s, t | 0 <= s < t < |ps|
      ensures ps[s] in ps && ps[t] in ps && (Precedes(whole, At(whole, ps)[s], At(whole, ps)[t]) <==> ps[s] < ps[t])
    {
      assert ps[s] in ps && ps[t] in ps;
      OnePlaceEach(whole, ps[s], ps[t]);
    }
    if !Ascending(ps, 0) {
      var s, t :| 0 <= s < t < |ps| && ps[s] >= ps[t];
      assert !Precedes(whole, At(whole, ps)[s], At(whole, ps)[t]);
    }
  }

  lemma AscendingTail(ps: seq<nat>, cap: nat)
    requires cap > 0
    ensures Ascending(Tail(ps, cap), 0) <==> Ascending(ps, Excess(|ps|, cap))
  {
    var from := Excess(|ps|, cap);
    var tail := Tail(ps, cap);
    assert forall s | 0 <= s < |tail| :: tail[s] == ps[from + s];
    if Ascending(tail, 0) {
      forall s, t | from <= s < t < |ps| ensures ps[s] < ps[t] {
        assert tail[s - from] == ps[s] && tail[t - from] == ps[t];
      }
    }
  }

  lemma OnePlaceEach(whole: seq<Event>, p: nat, q: nat)
    requires Distinct(whole, Identity) && p < |whole| && q < |whole|
    ensures Precedes(whole, whole[p], whole[q]) <==> p < q
  {
    if Precedes(whole, whole[p], whole[q]) {
      var i, j :| 0 <= i < j < |whole| && whole[i] == whole[p] && whole[j] == whole[q];
      SamePlace(whole, i, p);
      SamePlace(whole, j, q);
    }
  }

  lemma SamePlace(whole: seq<Event>, i: nat, p: nat)
    requires Distinct(whole, Identity) && i < |whole| && p < |whole|
    ensures whole[i] == whole[p] ==> i == p
  {
    var first, second := if i < p then i else p, if i < p then p else i;
    assert first < second ==> Identity(whole[first]) != Identity(whole[second]);
  }

  lemma TailAt(whole: seq<Event>, ps: seq<nat>)
    requires InRange(ps, |whole|)
    ensures InRange(Tail(ps, CAP), |whole|) && Tail(At(whole, ps), CAP) == At(whole, Tail(ps, CAP))
  {
    assert forall p <- Tail(ps, CAP) :: p in ps;
  }

  predicate AllStamped(events: seq<Event>) { forall e <- events :: e.timestamp.Some? }

  /** The events the windows bring in, and whether they are sorted. */
  function WindowSet(whole: seq<Event>, n: nat, m: nat): set<nat>
    requires n <= |whole| && m <= |whole|
  {
    Members(Positions(|whole|, n, m))
  }

  function IsSorted(whole: seq<Event>, n: nat, m: nat): bool
    requires n <= |whole| && m <= |whole|
  {
    AllStamped(Dedupe(Tail(whole[..n], CAP) + whole[m..]))
  }

  function MergedPositions(whole: seq<Event>, n: nat, m: nat): seq<nat>
    requires n <= |whole| && m <= |whole|
  {
    var ps := Positions(|whole|, n, m);
    if IsSorted(whole, n, m) then StableSort(ps, ByStamp(whole)) else ps
  }

  /** The merged list, told by positions. */
  lemma MergedAre(whole: seq<Event>, n: nat, m: nat)
    requires Distinct(whole, Identity) && n <= |whole| && m <= |whole|
    ensures var ps := MergedPositions(whole, n, m);
      && InRange(ps, |whole|) && Members(ps) == WindowSet(whole, n, m)
      && StrictlyOrdered(ps, AheadIn(whole, n, m, IsSorted(whole, n, m)))
      && InRange(Tail(ps, CAP), |whole|) && MergedWindows(whole, n, m) == At(whole, Tail(ps, CAP))
  {
    var ps := Positions(|whole|, n, m);
    DedupedAreAt(whole, n, m);
    PositionsOrdered(|whole|, n, m);
    SortedOrNot(whole, n, m, ps, IsSorted(whole, n, m));
    TailAt(whole, MergedPositions(whole, n, m));
  }

  lemma SortedOrNot(whole: seq<Event>, n: nat, m: nat, ps: seq<nat>, stamped: bool)
    requires InRange(ps, |whole|) && StrictlyOrdered(ps, BeforeIn(n, m))
    ensures var r := if stamped then StableSort(ps, ByStamp(whole)) else ps;
      && InRange(r, |whole|) && Members(r) == Members(ps) && StrictlyOrdered(r, AheadIn(whole, n, m, stamped))
      && At(whole, r) == if stamped then StableSort(At(whole, ps), NotAfter) else At(whole, ps)
  {
    if stamped {
      SortsAlike(whole, ps);
      SortMembers(ps, ByStamp(whole));
      SortedAhead(whole, n, m, ps);
    }
  }

  /** No event is both merged in front of an earlier one and among the last `room` events. */
  ghost predicate KeepsOrder(whole: seq<Event>, n: nat, m: nat, room: nat)
    requires n <= |whole| && m <= |whole|
  {
    NothingOvertaken(WindowSet(whole, n, m), AheadIn(whole, n, m, IsSorted(whole, n, m)), room)
  }

  /** Which of the merged positions ascend. */
  lemma MergedAscendIff(whole: seq<Event>, n: nat, m: nat, room: nat)
    requires Distinct(whole, Identity) && n <= |whole| && m <= |whole|
    ensures var ps := MergedPositions(whole, n, m);
      && InRange(ps, |whole|) && MergedWindows(whole, n, m) == Tail(At(whole, ps), CAP)
      && (Ascending(ps, Excess(|ps|, room)) <==> KeepsOrder(whole, n, m, room))
  {
    var ps, ahead := MergedPositions(whole, n, m), AheadIn(whole, n, m, IsSorted(whole, n, m));
    MergedAre(whole, n, m);
    TailAt(whole, ps);
    AheadIsAsymmetric(whole, n, m, IsSorted(whole, n, m));
    TailAscendsIff(ps, ahead, room);
  }

  /** Merging the windows keeps file order if and only if no event is both merged in front of an earlier one
      and among the 64 kept. */
  lemma MergeKeepsOrderIff(whole: seq<Event>, n: nat, m: nat)
    requires Distinct(whole, Identity) && n <= |whole| && m <= |whole|
    ensures FollowsFile(whole, MergedWindows(whole, n, m)) <==> KeepsOrder(whole, n, m, CAP)
  {
    var ps := MergedPositions(whole, n, m);
    MergedAscendIff(whole, n, m, CAP);
    TailAt(whole, ps);
    AscendingTail(ps, CAP);
    FollowsAscending(whole, Tail(ps, CAP));
  }

  lemma AheadIsAsymmetric(whole: seq<Event>, n: nat, m: nat, stamped: bool)
    ensures Asymmetric(AheadIn(whole, n, m, stamped))
  {
  }

  // ---- without timestamps ---------------------------------------------------------------------------------

  function Interval(i: nat, j: nat): (r: set<nat>)
    requires i <= j
    ensures |r| == j - i && forall p :: p in r <==> i <= p < j
  {
    if i == j then {} else Interval(i, j - 1) + {j - 1}
  }

  lemma WindowSetIs(whole: seq<Event>, n: nat, m: nat)
    requires n <= |whole| && m <= |whole|
    ensures forall p :: p in WindowSet(whole, n, m) <==>
      CappedFrom(n) <= p < n || m <= p < CappedFrom(n) || Later(n, m) <= p < |whole|
  {
    var a := CappedFrom(n);
    RangeMembers(a, n);
    RangeMembers(Later(n, m), |whole|);
    if m < a {
      RangeMembers(m, a);
    }
  }

  lemma RangeMembers(i: nat, j: nat)
    requires i <= j
    ensures forall p :: p in Range(i, j) <==> i <= p < j
  {
    forall p | i <= p < j ensures p in Range(i, j) {
      assert Range(i, j)[p - i] == p;
    }
  }

  /** How many events of the windows come behind a position of the capped tail that has something in front of
      it left to overtake. */
  lemma BehindTail(whole: seq<Event>, n: nat, m: nat, j: nat)
    requires n <= |whole| && m < CappedFrom(n) <= j < n
    ensures Behind(WindowSet(whole, n, m), AheadIn(whole, n, m, false), j)
        == (n - 1 - j) + (CappedFrom(n) - m) + (|whole| - n)
  {
    var ahead := AheadIn(whole, n, m, false);
    var behind := set q | q in WindowSet(whole, n, m) && ahead(j, q);
    WindowSetIs(whole, n, m);
    ThreeIntervals(behind, j + 1, n, m, CappedFrom(n), |whole|);
  }

  lemma ThreeIntervals(parts: set<nat>, i: nat, n: nat, m: nat, a: nat, size: nat)
    requires m <= a <= i <= n <= size
    requires forall q :: q in parts <==> i <= q < n || m <= q < a || n <= q < size
    ensures |parts| == (n - i) + (a - m) + (size - n)
  {
    var two := Interval(i, n) + Interval(m, a);
    assert Interval(i, n) !! Interval(m, a) && two !! Interval(n, size);
    assert parts == two + Interval(n, size);
  }

  /** When some event the windows bring in has no timestamp, the order of the last `room` of them survives
      the merge if and only if the windows share at most 64 events or the second holds at least 64 more than
      there is room for. */
  lemma UnstampedKeepsOrderIff(whole: seq<Event>, n: nat, m: nat, room: nat)
    requires n <= |whole| && m <= |whole| && !IsSorted(whole, n, m)
    ensures KeepsOrder(whole, n, m, room) <==> n <= m + CAP || m + CAP + room <= |whole|
  {
    var ps, ahead := WindowSet(whole, n, m), AheadIn(whole, n, m, false);
    WindowSetIs(whole, n, m);
    forall i, j | i in ps && j in ps && i < j && ahead(j, i)
      ensures n > m + CAP && Behind(ps, ahead, j) >= |whole| - m - CAP
    {
      OvertakesFromTail(whole, n, m, i, j);
      BehindTail(whole, n, m, j);
    }
    if n > m + CAP {
      BehindTail(whole, n, m, n - 1);
      FirstIsOvertaken(whole, n, m);
    }
  }

  lemma FirstIsOvertaken(whole: seq<Event>, n: nat, m: nat)
    requires m + CAP < n <= |whole|
    ensures m in WindowSet(whole, n, m) && n - 1 in WindowSet(whole, n, m) && AheadIn(whole, n, m, false)(n - 1, m)
  {
    WindowSetIs(whole, n, m);
  }

  lemma OvertakesFromTail(whole: seq<Event>, n: nat, m: nat, i: nat, j: nat)
    requires i < j && AheadIn(whole, n, m, false)(j, i)
    ensures m < CappedFrom(n) <= j < n
  {
  }

  /** Windows that move something in front of the capped tail bring in more than 64 events. */
  lemma MovingTakesMany(whole: seq<Event>, n: nat, m: nat)
    requires n <= |whole| && m < CappedFrom(n)
    ensures |WindowSet(whole, n, m)| > CAP
  {
    WindowSetIs(whole, n, m);
    var more := Interval(CappedFrom(n), n) + {m};
    assert |more| == CAP + 1;
    assert WindowSet(whole, n, m) == more + (WindowSet(whole, n, m) - more);
  }

  lemma FewAreBehind(ps: set<nat>, ahead: (nat, nat) -> bool, j: nat)
    requires Asymmetric(ahead) && j in ps
    ensures Behind(ps, ahead, j) < |ps|
  {
    var behind := set q | q in ps && ahead(j, q);
    assert j !in behind && ps == behind + (ps - behind) && j in ps - behind;
  }

  ghost predicate StampsAscend(whole: seq<Event>, ps: set<nat>) {
    forall i, j | i in ps && j in ps && i < j :: StampAt(whole, i) <= StampAt(whole, j)
  }

  /** When all events the windows bring in have timestamps and there is room for all of them, merging them
      keeps file order if and only if no later event has an earlier timestamp. */
  lemma SmallStampedKeepsOrderIff(whole: seq<Event>, n: nat, m: nat, room: nat)
    requires n <= |whole| && m <= |whole| && IsSorted(whole, n, m) && |WindowSet(whole, n, m)| <= room <= CAP
    ensures KeepsOrder(whole, n, m, room) <==> StampsAscend(whole, WindowSet(whole, n, m))
  {
    var ps, ahead := WindowSet(whole, n, m), AheadIn(whole, n, m, true);
    if m < CappedFrom(n) {
      MovingTakesMany(whole, n, m);
    }
    AheadIsAsymmetric(whole, n, m, true);
    forall i, j | i in ps && j in ps && i < j
      ensures Behind(ps, ahead, j) < room && (ahead(j, i) <==> StampAt(whole, j) < StampAt(whole, i))
    {
      FewAreBehind(ps, ahead, j);
      StampsDecide(whole, n, m, i, j);
    }
    RoomForAll(whole, ps, ahead, room);
  }

  lemma RoomForAll(whole: seq<Event>, ps: set<nat>, ahead: (nat, nat) -> bool, room: nat)
    requires forall i, j | i in ps && j in ps && i < j ::
      Behind(ps, ahead, j) < room && (ahead(j, i) <==> StampAt(whole, j) < StampAt(whole, i))
    ensures NothingOvertaken(ps, ahead, room) <==> StampsAscend(whole, ps)
  {
  }

  lemma StampsDecide(whole: seq<Event>, n: nat, m: nat, i: nat, j: nat)
    requires CappedFrom(n) <= m && i < j
    ensures AheadIn(whole, n, m, true)(j, i) <==> StampAt(whole, j) < StampAt(whole, i)
  {
  }

  // ---- the reader -----------------------------------------------------------------------------------------

  /** What a first scan recovers follows the file if and only if the merge of its windows does: the first has
      read n events, and the second starts at event m. */
  lemma RecoveredInOrderIff(parse: Parser, o: Observation, offset: nat, whole: seq<Event>, n: nat, m: nat)
    requires offset <= |o.file| && whole == FileEvents(parse, o.file[..offset]) && Distinct(whole, Identity)
    requires n == PrefixCount(parse, o, offset) && m + BackscanCount(parse, o, offset) == |whole|
    ensures n <= |whole| && (FollowsFile(whole, RecoveredEvents(parse, o, offset)) <==> KeepsOrder(whole, n, m, CAP))
  {
    RecoveredAreMerged(parse, o, offset, whole, n, m);
    MergeKeepsOrderIff(whole, n, m);
  }

  /** A first scan of a file too long for it: the tail starts at `offset`. */
  predicate SkipsTheStart(cached: Option<Entry>, o: Observation, offset: nat) {
    NeedsReset(cached, o) && o.size <= |o.file| && offset > 0 && o.size == offset + MAX_INITIAL_TAIL_BYTES
  }

  /** What the tail adds to what the windows recovered. */
  function TailEvents(parse: Parser, o: Observation, offset: nat): seq<Event>
    requires offset <= o.size <= |o.file|
  {
    if o.tailOk then Events(parse, Kept(Complete(o.file[offset..o.size]), true)) else []
  }

  lemma ScanReturns(parse: Parser, cached: Option<Entry>, o: Observation, offset: nat)
    requires SkipsTheStart(cached, o, offset)
    ensures Refresh(parse, cached, o).events
            == Tail(RecoveredEvents(parse, o, offset) + TailEvents(parse, o, offset), CAP)
  {
    var p, none: seq<Byte> := MakePlan(parse, cached, o), [];
    assert p == Plan(offset, none, RecoveredEvents(parse, o, offset), true, MAX_INITIAL_TAIL_BYTES);
    assert Chunk(p, o.file) == o.file[offset..o.size];
    assert none + o.file[offset..o.size] == o.file[offset..o.size];
    if !o.tailOk {
      assert p.prior + [] == p.prior;
    }
  }

  lemma ScanMerges(parse: Parser, cached: Option<Entry>, o: Observation, offset: nat, whole: seq<Event>, n: nat, m: nat)
    requires SkipsTheStart(cached, o, offset) && whole == FileEvents(parse, o.file[..offset])
    requires n == PrefixCount(parse, o, offset) && m + BackscanCount(parse, o, offset) == |whole|
    ensures n <= |whole|
    ensures Refresh(parse, cached, o).events == Tail(MergedWindows(whole, n, m) + TailEvents(parse, o, offset), CAP)
  {
    ScanReturns(parse, cached, o, offset);
    RecoveredAreMerged(parse, o, offset, whole, n, m);
  }

  /** The file's events: those in front of the tail, perhaps that of the line the tail cuts, and the tail's. */
  lemma ScannedParts(parse: Parser, o: Observation, offset: nat)
    requires offset <= o.size <= |o.file|
    ensures FileEvents(parse, o.file[..offset]) <= FileEvents(parse, o.file[..o.size])
    ensures |FileEvents(parse, o.file[..offset])| + |TailEvents(parse, o, offset)|
            <= |FileEvents(parse, o.file[..o.size])|
    ensures IsSuffix(TailEvents(parse, o, offset), FileEvents(parse, o.file[..o.size]))
  {
    var seen, window := o.file[..offset], o.file[offset..o.size];
    assert o.file[..o.size] == seen + window;
    FileEventsReadOn(parse, seen, window);
    CutWindowIsSuffix(parse, seen, window);
    SuffixBehind(FileEvents(parse, seen), FileEvents(parse, Rest(seen) + window), TailEvents(parse, o, offset));
  }

  lemma AtPrefix(whole: seq<Event>, all: seq<Event>, ps: seq<nat>)
    requires InRange(ps, |whole|) && whole <= all
    ensures InRange(ps, |all|) && At(all, ps) == At(whole, ps)
  {
    assert forall i | 0 <= i < |ps| :: ps[i] in ps;
  }

  /** Behind positions in front of k, t ascending ones from k on leave room for cap - t. */
  lemma RoomLeft(ps: seq<nat>, k: nat, t: nat, cap: nat)
    requires InRange(ps, k)
    ensures var qs := ps + Range(k, k + t);
      Ascending(qs, Excess(|qs|, cap)) <==> Ascending(ps, Excess(|ps|, Excess(cap, t)))
  {
    var qs, from := ps + Range(k, k + t), Excess(|ps| + t, cap);
    assert forall s | 0 <= s < |ps| :: qs[s] == ps[s] && ps[s] in ps;
    assert forall s | |ps| <= s < |qs| :: qs[s] == k + (s - |ps|);
    if Ascending(qs, from) {
      forall s, t' | Excess(|ps|, Excess(cap, t)) <= s < t' < |ps| ensures ps[s] < ps[t'] {
        assert qs[s] < qs[t'];
      }
    }
  }

  /** Appending the last t events of the file and capping again. */
  lemma AppendedAre(all: seq<Event>, whole: seq<Event>, ps: seq<nat>, t: nat)
    requires whole <= all && InRange(ps, |whole|) && |whole| + t <= |all|
    ensures var qs := ps + Range(|all| - t, |all|);
      && InRange(Tail(qs, CAP), |all|)
      && Tail(Tail(At(whole, ps), CAP) + all[|all| - t..], CAP) == At(all, Tail(qs, CAP))
  {
    AtPrefix(whole, all, ps);
    AtRange(all, |all| - t, |all|);
    AtConcat(all, ps, Range(|all| - t, |all|));
    TailAt(all, ps + Range(|all| - t, |all|));
    TailOfTail(At(whole, ps), all[|all| - t..], CAP);
  }

  lemma DistinctPrefix(whole: seq<Event>, all: seq<Event>)
    requires whole <= all && Distinct(all, Identity)
    ensures Distinct(whole, Identity)
  {
    assert whole == all[..|whole|];
    forall i, j | 0 <= i < j < |whole| ensures Identity(whole[i]) != Identity(whole[j]) {
      assert Identity(all[i]) != Identity(all[j]);
    }
  }

  /** The merged windows and the file's last events behind them, capped again. */
  lemma AppendKeepsOrderIff(
    all: seq<Event>, whole: seq<Event>, n: nat, m: nat, tail: seq<Event>, returned: seq<Event>)
    requires Distinct(all, Identity) && whole <= all && n <= |whole| && m <= |whole|
    requires IsSuffix(tail, all) && |whole| + |tail| <= |all|
    requires returned == Tail(MergedWindows(whole, n, m) + tail, CAP)
    ensures FollowsFile(all, returned) <==> KeepsOrder(whole, n, m, Excess(CAP, |tail|))
  {
    DistinctPrefix(whole, all);
    MergedAscendIff(whole, n, m, Excess(CAP, |tail|));
    AppendAscendIff(all, whole, MergedPositions(whole, n, m), tail);
  }

  lemma AppendAscendIff(all: seq<Event>, whole: seq<Event>, ps: seq<nat>, tail: seq<Event>)
    requires Distinct(all, Identity) && whole <= all && InRange(ps, |whole|)
    requires IsSuffix(tail, all) && |whole| + |tail| <= |all|
    ensures FollowsFile(all, Tail(Tail(At(whole, ps), CAP) + tail, CAP))
            <==> Ascending(ps, Excess(|ps|, Excess(CAP, |tail|)))
  {
    var k := |all| - |tail|;
    var qs := ps + Range(k, |all|);
    AppendedAre(all, whole, ps, |tail|);
    AscendingTail(qs, CAP);
    assert InRange(ps, k);
    RoomLeft(ps, k, |tail|, CAP);
    FollowsAscending(all, Tail(qs, CAP));
  }

  /** What a first scan of a long file returns follows the file if and only if no event is both merged in front
      of an earlier one and among those for which the tail's events leave room. */
  lemma FirstScanInOrderIff(
    parse: Parser, cached: Option<Entry>, o: Observation, offset: nat, whole: seq<Event>, n: nat, m: nat)
    requires SkipsTheStart(cached, o, offset) && whole == FileEvents(parse, o.file[..offset])
    requires Distinct(FileEvents(parse, o.file[..o.size]), Identity)
    requires n == PrefixCount(parse, o, offset) && m + BackscanCount(parse, o, offset) == |whole|
    ensures n <= |whole|
    ensures FollowsFile(FileEvents(parse, o.file[..o.size]), Refresh(parse, cached, o).events)
            <==> KeepsOrder(whole, n, m, Excess(CAP, |TailEvents(parse, o, offset)|))
  {
    var all, tail := FileEvents(parse, o.file[..o.size]), TailEvents(parse, o, offset);
    ScannedParts(parse, o, offset);
    ScanMerges(parse, cached, o, offset, whole, n, m);
    AppendKeepsOrderIff(all, whole, n, m, tail, Refresh(parse, cached, o).events);
  }

  /** When everything in front of the tail fits the first window, both windows read all of it. */
  lemma SmallWindows(parse: Parser, o: Observation, offset: nat)
    requires offset <= |o.file| && offset <= MAX_LIFECYCLE_PREFIX_BYTES && o.prefixOk && o.backscanOk
    ensures var whole := FileEvents(parse, o.file[..offset]);
      PrefixCount(parse, o, offset) == |whole| == BackscanCount(parse, o, offset)
  {
    WindowEventsAre(parse, o.file[0..offset], true);
    assert o.file[0..offset] == o.file[..offset];
  }

  /** More than 64 events in front of the tail, all within the first window and one of them without a timestamp,
      and fewer than 128 together with the tail's: a first scan returns them out of file order. */
  lemma EarlyUnstampedReorder(parse: Parser, cached: Option<Entry>, o: Observation, offset: nat)
    requires SkipsTheStart(cached, o, offset) && offset <= MAX_LIFECYCLE_PREFIX_BYTES && o.prefixOk && o.backscanOk
    requires Distinct(FileEvents(parse, o.file[..o.size]), Identity)
    requires var front := FileEvents(parse, o.file[..offset]);
      CAP < |front| && |front| + |TailEvents(parse, o, offset)| < 2 * CAP && !AllStamped(front)
    ensures !FollowsFile(FileEvents(parse, o.file[..o.size]), Refresh(parse, cached, o).events)
  {
    var front := FileEvents(parse, o.file[..offset]);
    SmallWindows(parse, o, offset);
    FirstScanInOrderIff(parse, cached, o, offset, front, |front|, 0);
    WholeIsUnsorted(front);
    UnstampedKeepsOrderIff(front, |front|, 0, Excess(CAP, |TailEvents(parse, o, offset)|));
  }

  lemma WholeIsUnsorted(whole: seq<Event>)
    requires !AllStamped(whole)
    ensures !IsSorted(whole, |whole|, 0)
  {
    var e :| e in whole && e.timestamp.None?;
    var windows := Tail(whole[..|whole|], CAP) + whole[0..];
    DedupeKeeps(windows);
    assert whole[0..] == whole;
    assert e in Dedupe(windows);
  }

  // ---- repeated events ------------------------------------------------------------------------------------

  /** e occurs first at index k, and every other event before that. */
  ghost predicate FirstSeenLastAt(xs: seq<Event>, e: Event, k: nat) {
    k < |xs| && xs[k] == e && e !in xs[..k] && forall x <- xs :: x in xs[..k + 1]
  }

  /** Of all the events, e is the one whose first occurrence comes last. */
  ghost predicate FirstSeenLast(xs: seq<Event>, e: Event) { exists k :: FirstSeenLastAt(xs, e, k) }

  lemma {:induction false} DedupeEndsIn(xs: seq<Event>, e: Event)
    requires xs != []
    ensures Dedupe(xs) != [] && (Last(Dedupe(xs)) == e <==> FirstSeenLast(xs, e))
  {
    var front, last := Front(xs), Last(xs);
    assert xs == front + [last];
    if last in front {
      DedupeEndsIn(front, e);
      RepeatChangesNothing(front, last, e);
    } else {
      NewOneIsLast(front, last, e);
    }
  }

  lemma SeenInFront(front: seq<Event>, last: Event, e: Event, k: nat)
    requires k < |front|
    ensures FirstSeenLastAt(front + [last], e, k) ==> FirstSeenLastAt(front, e, k) && last in front
    ensures FirstSeenLastAt(front, e, k) && last in front ==> FirstSeenLastAt(front + [last], e, k)
  {
    var xs := front + [last];
    assert xs[..k] == front[..k] && xs[..k + 1] == front[..k + 1];
    assert last in xs && forall x :: x in xs <==> x in front || x == last;
  }

  lemma SeenAtTheEnd(front: seq<Event>, last: Event, e: Event)
    ensures FirstSeenLastAt(front + [last], e, |front|) <==> e == last && last !in front
  {
    var xs := front + [last];
    assert xs[..|front|] == front && xs[..|front| + 1] == xs && xs[|front|] == last;
  }

  lemma RepeatChangesNothing(front: seq<Event>, last: Event, e: Event)
    requires last in front
    ensures FirstSeenLast(front + [last], e) <==> FirstSeenLast(front, e)
  {
    forall k: nat | k < |front| ensures FirstSeenLastAt(front + [last], e, k) <==> FirstSeenLastAt(front, e, k) {
      SeenInFront(front, last, e, k);
    }
    SeenAtTheEnd(front, last, e);
  }

  lemma NewOneIsLast(front: seq<Event>, last: Event, e: Event)
    requires last !in front
    ensures FirstSeenLast(front + [last], e) <==> e == last
  {
    forall k: nat | k < |front| ensures !FirstSeenLastAt(front + [last], e, k) {
      SeenInFront(front, last, e, k);
    }
    SeenAtTheEnd(front, last, e);
  }

  /** For any windows, also of repeated events: when one has no timestamp, the merged list ends in the file's
      newest event if and only if every other event the windows bring in was met before it. */
  lemma NewestEndsTheListIff(whole: seq<Event>, n: nat, m: nat)
    requires n <= |whole| && m < |whole| && !IsSorted(whole, n, m)
    ensures MergedWindows(whole, n, m) != []
    ensures Last(MergedWindows(whole, n, m)) == Last(whole)
            <==> FirstSeenLast(Tail(whole[..n], CAP) + whole[m..], Last(whole))
  {
    DedupeEndsIn(Tail(whole[..n], CAP) + whole[m..], Last(whole));
  }

  /** An event that occurs again behind another one is not the last of the merged list. */
  lemma RepeatedNewestIsLost(a: Event, b: Event)
    requires a != b && a.timestamp.None?
    ensures MergedWindows([a, b, a], 3, 0) == [a, b]
  {
    var two, more := [a, b], [a, a, b, a];
    assert Tail([a, b, a][..3], CAP) + [a, b, a][0..] == two + more;
    DedupeSeen(two, more);
    DedupeDistinct(two);
    assert a in two;
  }

  lemma {:induction false} DedupeSeen(xs: seq<Event>, ys: seq<Event>)
    requires forall y <- ys :: y in xs
    ensures Dedupe(xs + ys) == Dedupe(xs)
  {
    if ys == [] {
      assert xs + ys == xs;
    } else {
      assert Last(ys) in ys && forall y <- Front(ys) :: y in ys;
      DedupeSeen(xs, Front(ys));
      assert Front(xs + ys) == xs + Front(ys) && Last(xs + ys) == Last(ys);
      assert Last(ys) in xs + Front(ys);
    }
  }

  // ---- a file that fails ----------------------------------------------------------------------------------

  /** A decoder to which every one-byte line is an event of its own without a timestamp. */
  function OneByteEvents(): Parser {
    (line: seq<Byte>) => if |line| == 1 then Some(EventOf(line[0])) else None
  }

  function EventOf(b: Byte): Event { Event([b as char], None, None, true, false, false) }

  /** k different one-byte lines. */
  function Head(k: nat): seq<Byte>
    requires k <= 200
  {
    if k == 0 then [] else Head(k - 1) + [(k + 10) as Byte, NEWLINE]
  }

  function HeadEvents(k: nat): seq<Event>
    requires k <= 200
  {
    seq(k, i requires 0 <= i < k => EventOf((i + 11) as Byte))
  }

  lemma OneLineEvent(b: Byte)
    requires b != NEWLINE && b != 0
    ensures FileEvents(OneByteEvents(), [b, NEWLINE]) == [EventOf(b)] && Rest([b, NEWLINE]) == []
  {
    var line: seq<Byte> := [b, NEWLINE];
    var none: seq<Byte> := [];
    assert Front(line) == [b] && Front([b]) == none;
    assert Rest([b]) == none + [b] == [b] && Complete([b]) == [];
    assert Complete(line) == [[b]];
    EventsOfOne(OneByteEvents(), [b]);
  }

  /** One more line behind complete lines. */
  lemma OneMoreLine(data: seq<Byte>, b: Byte)
    requires Rest(data) == [] && b != NEWLINE && b != 0
    ensures var more := data + [b, NEWLINE];
      FileEvents(OneByteEvents(), more) == FileEvents(OneByteEvents(), data) + [EventOf(b)] && Rest(more) == []
  {
    var line: seq<Byte> := [b, NEWLINE];
    FileEventsReadOn(OneByteEvents(), data, line);
    ReadOn(data, line);
    assert Rest(data) + line == line;
    OneLineEvent(b);
  }

  lemma {:induction false} HeadEventsAre(k: nat)
    requires k <= 200
    ensures FileEvents(OneByteEvents(), Head(k)) == HeadEvents(k) && Rest(Head(k)) == [] && |Head(k)| == 2 * k
  {
    if k > 0 {
      HeadEventsAre(k - 1);
      OneMoreLine(Head(k - 1), (k + 10) as Byte);
      assert HeadEvents(k) == HeadEvents(k - 1) + [EventOf((k + 10) as Byte)];
    }
  }

  lemma HeadIsDistinct(k: nat)
    requires k <= 200
    ensures Distinct(HeadEvents(k), Identity)
  {
    forall i, j | 0 <= i < j < k ensures Identity(HeadEvents(k)[i]) != Identity(HeadEvents(k)[j]) {
      assert HeadEvents(k)[i].eventType[0] != HeadEvents(k)[j].eventType[0];
    }
  }

  function Padding(n: nat): seq<Byte> { seq(n, _ => NEWLINE) }

  lemma {:induction false} PaddingIsEmptyLines(n: nat)
    ensures (forall line <- Complete(Padding(n)) :: line == []) && Rest(Padding(n)) == []
  {
    if n > 0 {
      PaddingIsEmptyLines(n - 1);
      assert Front(Padding(n)) == Padding(n - 1);
    }
  }

  lemma {:induction false} EmptyLinesHaveNoEvents(parse: Parser, lines: seq<seq<Byte>>)
    requires forall line <- lines :: line == []
    ensures Events(parse, lines) == []
  {
    if lines != [] {
      assert Last(lines) in lines && forall line <- Front(lines) :: line in lines;
      EmptyLinesHaveNoEvents(parse, Front(lines));
    }
  }

  /** k events without timestamps, and 4 MiB of other lines behind them. */
  function FailingFile(k: nat): seq<Byte>
    requires k <= 200
  {
    Head(k) + Padding(MAX_INITIAL_TAIL_BYTES)
  }

  function FailingScan(k: nat): Observation
    requires k <= 200
  {
    Observation(0, 0, |FailingFile(k)|, FailingFile(k), true, true, true)
  }

  lemma FailingParts(k: nat)
    requires k <= 200
    ensures |FailingFile(k)| == 2 * k + MAX_INITIAL_TAIL_BYTES
    ensures FailingFile(k)[..2 * k] == Head(k) && FailingFile(k)[2 * k..] == Padding(MAX_INITIAL_TAIL_BYTES)
  {
    HeadEventsAre(k);
  }

  lemma PaddingHasNoEvents(n: nat)
    ensures Events(OneByteEvents(), Complete(Padding(n))) == []
    ensures Events(OneByteEvents(), Kept(Complete(Padding(n)), true)) == []
  {
    PaddingIsEmptyLines(n);
    EmptyLinesHaveNoEvents(OneByteEvents(), Complete(Padding(n)));
    assert forall line <- Kept(Complete(Padding(n)), true) :: line in Complete(Padding(n));
    EmptyLinesHaveNoEvents(OneByteEvents(), Kept(Complete(Padding(n)), true));
  }

  lemma FailingEvents(k: nat)
    requires k <= 200
    ensures FileEvents(OneByteEvents(), FailingFile(k)) == HeadEvents(k)
  {
    var padding, none: seq<Byte> := Padding(MAX_INITIAL_TAIL_BYTES), [];
    HeadEventsAre(k);
    FileEventsReadOn(OneByteEvents(), Head(k), padding);
    assert none + padding == padding;
    PaddingHasNoEvents(MAX_INITIAL_TAIL_BYTES);
  }

  lemma FailingWindows(k: nat)
    requires 0 < k <= 200
    ensures var o := FailingScan(k);
      && SkipsTheStart(None, o, 2 * k) && o.file[..o.size] == FailingFile(k)
      && FileEvents(OneByteEvents(), o.file[..2 * k]) == HeadEvents(k)
  {
    FailingParts(k);
    HeadEventsAre(k);
  }

  lemma FailingTail(k: nat)
    requires k <= 200
    ensures 2 * k <= |FailingFile(k)| && TailEvents(OneByteEvents(), FailingScan(k), 2 * k) == []
  {
    var o := FailingScan(k);
    FailingParts(k);
    assert o.file[2 * k..o.size] == Padding(MAX_INITIAL_TAIL_BYTES);
    PaddingHasNoEvents(MAX_INITIAL_TAIL_BYTES);
  }

  /** For 65 to 127 events without timestamps that the tail misses, the first scan returns them out of file
      order. */
  lemma FirstScanReorders(k: nat)
    requires CAP < k < 2 * CAP
    ensures FileEvents(OneByteEvents(), FailingFile(k)) == HeadEvents(k)
    ensures !FollowsFile(HeadEvents(k), Refresh(OneByteEvents(), None, FailingScan(k)).events)
  {
    var o := FailingScan(k);
    FailingEvents(k);
    FailingWindows(k);
    FailingTail(k);
    HeadIsDistinct(k);
    assert HeadEvents(k)[0] in HeadEvents(k) && HeadEvents(k)[0].timestamp.None?;
    EarlyUnstampedReorder(OneByteEvents(), None, o, 2 * k);
  }
}
