/** Reading the last lines of a hook log backwards, block by block
    (src/codex_cli_monitor/hook_state.py, `_read_tail_lines`). */
module HookTail {
  import opened Sequences
  import opened Lines

  const MAX_TAIL_BYTES_PER_FILE := 4 * 1024 * 1024
  const BLOCK_BYTES := 64 * 1024
  const CARRIAGE_RETURN: Byte := 13

  // ---- bytes.splitlines: \\n, \\r\\n and \\r all end a line ---------------------------------------

  datatype Scan = Scan(lines: seq<seq<Byte>>, current: seq<Byte>, afterReturn: bool)

  function ScanAll(data: seq<Byte>): Scan {
    if data == [] then Scan([], [], false)
    else
      var s, c := ScanAll(Front(data)), Last(data);
      if c == NEWLINE then (if s.afterReturn then Scan(s.lines, [], false) else Scan(s.lines + [s.current], [], false))
      else if c == CARRIAGE_RETURN then Scan(s.lines + [s.current], [], true)
      else Scan(s.lines, s.current + [c], false)
  }

  function SplitLines(data: seq<Byte>): seq<seq<Byte>> {
    var s := ScanAll(data);
    if s.current == [] then s.lines else s.lines + [s.current]
  }

  function Newlines(data: seq<Byte>): nat {
    if data == [] then 0 else Newlines(Front(data)) + if Last(data) == NEWLINE then 1 else 0
  }

  /** Position c starts a line: nothing, or a newline, is before it. */
  predicate LineStart(file: seq<Byte>, c: nat) {
    c <= |file| && (c == 0 || file[c - 1] == NEWLINE)
  }

  /** `data.find(b"\\n")` */
  function FirstNewline(data: seq<Byte>): (r: Option<nat>)
    ensures match r
      case Some(i) => i < |data| && data[i] == NEWLINE && forall j | 0 <= j < i :: data[j] != NEWLINE
      case None => NEWLINE !in data
  {
    if data == [] then None
    else
      assert data == Front(data) + [Last(data)];
      match FirstNewline(Front(data))
      case Some(i) => Some(i)
      case None => if Last(data) == NEWLINE then Some(|data| - 1) else None
  }

  /** Where the reader's window begins: the start of a file within the byte limit, else the first line
      that starts in its last 4 MiB. */
  function WindowStart(file: seq<Byte>): (w: nat)
    ensures w <= |file|
  {
    if |file| <= MAX_TAIL_BYTES_PER_FILE then 0
    else
      var start := |file| - MAX_TAIL_BYTES_PER_FILE;
      match FirstNewline(file[start..])
      case Some(i) => start + i + 1
      case None => |file|
  }

  lemma {:induction false} ScanBehind(a: seq<Byte>, b: seq<Byte>)
    requires ScanAll(a).current == [] && !ScanAll(a).afterReturn
    ensures var s := ScanAll(b); ScanAll(a + b) == Scan(ScanAll(a).lines + s.lines, s.current, s.afterReturn)
  {
    if b == [] {
      assert a + b == a;
    } else {
      ScanBehind(a, Front(b));
      assert Front(a + b) == a + Front(b);
    }
  }

  /** Lines can be split at any line start. */
  lemma SplitAtLineStart(file: seq<Byte>, w: nat, c: nat)
    requires w <= c <= |file| && LineStart(file, c) && LineStart(file, w)
    ensures SplitLines(file[w..]) == SplitLines(file[w..c]) + SplitLines(file[c..])
  {
    var a := file[w..c];
    assert file[w..] == a + file[c..];
    assert a != [] ==> Last(a) == NEWLINE;
    ScanBehind(a, file[c..]);
  }

  lemma {:induction false} LinesCoverNewlines(data: seq<Byte>)
    ensures var s := ScanAll(data); |s.lines| >= Newlines(data) + if s.afterReturn then 1 else 0
    ensures |SplitLines(data)| >= Newlines(data)
  {
    if data != [] {
      LinesCoverNewlines(Front(data));
    }
  }

  lemma {:induction false} NewlinesConcat(a: seq<Byte>, b: seq<Byte>)
    ensures Newlines(a + b) == Newlines(a) + Newlines(b)
  {
    if b == [] {
      assert a + b == a;
    } else {
      NewlinesConcat(a, Front(b));
      assert Front(a + b) == a + Front(b);
    }
  }

  lemma {:induction false} NoNewlines(data: seq<Byte>)
    ensures Newlines(data) == 0 <==> NEWLINE !in data
  {
    if data != [] {
      NoNewlines(Front(data));
      assert data == Front(data) + [Last(data)];
    }
  }

  /** The window never starts inside a line, so it holds a suffix of the file's lines. */
  lemma WindowIsSuffix(file: seq<Byte>)
    ensures IsSuffix(SplitLines(file[WindowStart(file)..]), SplitLines(file))
  {
    var w := WindowStart(file);
    assert file[0..] == file;
    if LineStart(file, w) {
      SplitAtLineStart(file, 0, w);
    } else {
      assert file[w..] == [];
    }
  }

  /** While the file fits the byte limit, or its last 4 MiB hold more newlines than lines are asked
      for, the window loses none of the last lines of the file. */
  lemma WindowSuffices(file: seq<Byte>, maxLines: nat)
    requires maxLines > 0
    requires |file| <= MAX_TAIL_BYTES_PER_FILE || Newlines(file[|file| - MAX_TAIL_BYTES_PER_FILE..]) > maxLines
    ensures Tail(SplitLines(file[WindowStart(file)..]), maxLines) == Tail(SplitLines(file), maxLines)
  {
    assert file[0..] == file;
    if |file| > MAX_TAIL_BYTES_PER_FILE {
      EnoughLines(file, |file| - MAX_TAIL_BYTES_PER_FILE, maxLines);
      SplitAtLineStart(file, 0, WindowStart(file));
      TailOfSuffix(SplitLines(file[0..WindowStart(file)]), SplitLines(file[WindowStart(file)..]), maxLines);
    }
  }

  lemma TailOfSuffix<T>(a: seq<T>, b: seq<T>, n: nat)
    requires 0 < n <= |b|
    ensures Tail(a + b, n) == Tail(b, n)
  {
  }

  /** Behind the first newline of a stretch with more than maxLines newlines, at least maxLines lines
      remain. */
  lemma EnoughLines(file: seq<Byte>, from: nat, maxLines: nat)
    requires from <= |file| && Newlines(file[from..]) > maxLines
    ensures FirstNewline(file[from..]).Some?
    ensures var c := from + FirstNewline(file[from..]).value + 1;
      LineStart(file, c) && |SplitLines(file[c..])| >= maxLines
  {
    var data := file[from..];
    NoNewlines(data);
    var i := FirstNewline(data).value;
    assert data == data[..i] + [NEWLINE] + data[i + 1..];
    NewlinesConcat(data[..i] + [NEWLINE], data[i + 1..]);
    NewlinesConcat(data[..i], [NEWLINE]);
    NoNewlines(data[..i]);
    assert Newlines([NEWLINE]) == 1 by { assert Front([NEWLINE]) == []; }
    assert file[from + i + 1..] == data[i + 1..];
    LinesCoverNewlines(data[i + 1..]);
  }

  /** `b"".join(reversed(chunks))` */
  function JoinReversed(chunks: seq<seq<Byte>>): seq<Byte> {
    if chunks == [] then [] else Last(chunks) + JoinReversed(Front(chunks))
  }

  /** Blocks from the end of the file until they hold more newlines than lines are asked for, or the
      byte limit is reached. */
  method ReadBlocks(file: seq<Byte>, maxLines: nat) returns (data: seq<Byte>, position: nat)
    ensures position <= |file| && data == file[position..] && |data| <= MAX_TAIL_BYTES_PER_FILE
    ensures Newlines(data) > maxLines || position == 0 || |data| == MAX_TAIL_BYTES_PER_FILE
  {
    var remaining := if |file| <= MAX_TAIL_BYTES_PER_FILE then |file| else MAX_TAIL_BYTES_PER_FILE;
    ghost var limit := remaining;
    var chunks, lineCount := [], 0;
    position := |file|;
    while remaining > 0 && lineCount <= maxLines
      invariant 0 <= remaining <= limit && position == |file| - (limit - remaining)
      invariant JoinReversed(chunks) == file[position..] && lineCount == Newlines(file[position..])
    {
      var chunkSize := if BLOCK_BYTES <= remaining then BLOCK_BYTES else remaining;
      ghost var behind := file[position..];
      position := position - chunkSize;
      var chunk := file[position..position + chunkSize];
      assert file[position..] == chunk + behind;
      NewlinesConcat(chunk, behind);
      assert Front(chunks + [chunk]) == chunks;
      chunks := chunks + [chunk];
      lineCount := lineCount + Newlines(chunk);
      remaining := remaining - chunkSize;
    }
    data := JoinReversed(chunks);
  }

  /** The last lines of a file, read in blocks from its end. For a positive line count the result does
      not depend on the blocks: it is the last lines of the window. It is always a suffix of the
      file's lines, never a part of one. */
  method ReadTailLines(file: seq<Byte>, readable: bool, maxLines: nat) returns (lines: seq<seq<Byte>>, bytesRead: nat)
    ensures !readable ==> lines == [] && bytesRead == 0
    ensures readable && maxLines > 0 ==> lines == Tail(SplitLines(file[WindowStart(file)..]), maxLines)
    ensures IsSuffix(lines, SplitLines(file))
    ensures bytesRead <= |file| && bytesRead <= MAX_TAIL_BYTES_PER_FILE
  {
    if !readable {
      return [], 0;
    }
    var data, position := ReadBlocks(file, maxLines);
    bytesRead := |data|;
    ghost var start := position;
    if |file| > |data| {
      var firstNewline := FirstNewline(data);
      data := if firstNewline.Some? then data[firstNewline.value + 1..] else [];
      start := if firstNewline.Some? then position + firstNewline.value + 1 else |file|;
    }
    assert data == file[start..];
    BlocksDoNotMatter(file, position, start, maxLines);
    TailIsSuffix(SplitLines(data), SplitLines(file), maxLines);
    lines := Tail(SplitLines(data), maxLines);
  }

  lemma TailIsSuffix<T>(s: seq<T>, whole: seq<T>, n: nat)
    requires IsSuffix(s, whole)
    ensures IsSuffix(Tail(s, n), whole)
  {
  }

  /** Stopping early, behind enough newlines, gives the same last lines as reading the whole window. */
  lemma BlocksDoNotMatter(file: seq<Byte>, position: nat, start: nat, maxLines: nat)
    requires position <= |file| && start <= |file|
    requires |file| <= position + MAX_TAIL_BYTES_PER_FILE
    requires Newlines(file[position..]) > maxLines || position == 0 || position + MAX_TAIL_BYTES_PER_FILE == |file|
    requires start == if position == 0 then 0
                      else match FirstNewline(file[position..])
                           case Some(i) => position + i + 1
                           case None => |file|
    ensures maxLines > 0 ==>
      Tail(SplitLines(file[start..]), maxLines) == Tail(SplitLines(file[WindowStart(file)..]), maxLines)
    ensures IsSuffix(SplitLines(file[start..]), SplitLines(file))
  {
    var w := WindowStart(file);
    assert file[0..] == file;
    if LineStart(file, start) {
      SplitAtLineStart(file, 0, start);
    } else {
      assert file[start..] == [];
    }
    if start != w {
      EnoughLines(file, position, maxLines);
      WindowBefore(file, position, start);
      SplitAtLineStart(file, w, start);
      if maxLines > 0 {
        TailOfSuffix(SplitLines(file[w..start]), SplitLines(file[start..]), maxLines);
      }
    }
  }

  lemma WindowBefore(file: seq<Byte>, position: nat, start: nat)
    requires 0 < position <= |file| && |file| <= position + MAX_TAIL_BYTES_PER_FILE
    requires FirstNewline(file[position..]).Some? && start == position + FirstNewline(file[position..]).value + 1
    ensures WindowStart(file) <= start && LineStart(file, WindowStart(file))
  {
    if |file| > MAX_TAIL_BYTES_PER_FILE {
      var from := |file| - MAX_TAIL_BYTES_PER_FILE;
      assert file[from..][start - 1 - from] == NEWLINE;
    }
  }
}
