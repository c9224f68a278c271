/** The widget's in-place JSON scanner
    (windows/CodexMonitorWidget/src/main.c, `find_top_level_key`, `parse_json_string`, `matching_brace`).
    A scanner's specification takes the text from its position to the end and returns the text that is
    left where it stops. */
module JsonScanner {
  import opened Sequences
  import opened JsonText

  datatype Mode = Outside | Inside | Escaped

  function NextMode(mode: Mode, c: char): Mode {
    match mode
    case Escaped => Inside
    case Inside => if c == '\\' then Escaped else if c == '"' then Outside else Inside
    case Outside => if c == '"' then Inside else Outside
  }

  // ---- matching_brace -----------------------------------------------------------------------------------

  /** The text behind the brace that closes the object. */
  function AfterObject(t: string, depth: int, mode: Mode): (left: Option<string>)
    ensures left.Some? ==> |left.value| < |t|
  {
    if t == "" then None
    else if mode == Outside && t[0] == '}' && depth == 1 then Some(t[1..])
    else
      var depth' :=
        if mode != Outside then depth
        else if t[0] == '{' then depth + 1
        else if t[0] == '}' then depth - 1
        else depth;
      AfterObject(t[1..], depth', NextMode(mode, t[0]))
  }

  method MatchingBrace(text: string, start: nat, end: nat) returns (p: Option<nat>)
    requires start <= end <= |text|
    ensures match AfterObject(text[start..end], 0, Outside)
      case None => p == None
      case Some(left) => p.Some? && start < p.value <= end && text[p.value..end] == left
  {
    var depth, inString, escape := 0, false, false;
    for i := start to end
      invariant escape ==> inString
      invariant AfterObject(text[start..end], 0, Outside)
                == AfterObject(text[i..end], depth, if escape then Escaped else if inString then Inside else Outside)
    {
      var c := text[i];
      assert text[i..end][0] == c && text[i..end][1..] == text[i + 1..end];
      if inString {
        if escape {
          escape := false;
        } else if c == '\\' {
          escape := true;
        } else if c == '"' {
          inString := false;
        }
        continue;
      }
      if c == '"' {
        inString := true;
      } else if c == '{' {
        depth := depth + 1;
      } else if c == '}' {
        depth := depth - 1;
        if depth == 0 {
          return Some(i + 1);
        }
      }
    }
    assert text[end..end] == "";
    p := None;
  }

  // ---- find_top_level_key ----------------------------------------------------------------------------------

  function SkipSpace(t: string): string {
    if t != "" && IsSpace(t[0]) then SkipSpace(t[1..]) else t
  }

  /** A quoted key and a colon stand here; what is left behind the colon and white space. */
  function KeyHere(t: string, key: string): Option<string> {
    if |t| > |key| + 2 && t[1..|key| + 1] == key && t[|key| + 1] == '"' then
      var colon := SkipSpace(t[|key| + 2..]);
      if colon != "" && colon[0] == ':' then Some(SkipSpace(colon[1..])) else None
    else None
  }

  function ValueOf(t: string, depth: int, mode: Mode, key: string): Option<string> {
    if t == "" then None
    else if mode == Outside && t[0] == '"' && depth == 1 && KeyHere(t, key).Some? then KeyHere(t, key)
    else
      var depth' :=
        if mode != Outside then depth
        else if t[0] == '{' || t[0] == '[' then depth + 1
        else if t[0] == '}' || t[0] == ']' then depth - 1
        else depth;
      ValueOf(t[1..], depth', NextMode(mode, t[0]), key)
  }

  method SkipSpaces(text: string, start: nat, end: nat) returns (p: nat)
    requires start <= end <= |text|
    ensures start <= p <= end && text[p..end] == SkipSpace(text[start..end])
  {
    p := start;
    while p < end && IsSpace(text[p])
      invariant start <= p <= end && SkipSpace(text[p..end]) == SkipSpace(text[start..end])
    {
      assert text[p..end][1..] == text[p + 1..end];
      p := p + 1;
    }
  }

  lemma SliceOfSlice(text: string, p: nat, end: nat, a: nat, b: nat)
    requires p <= end <= |text| && a <= b <= end - p
    ensures text[p..end][a..b] == text[p + a..p + b]
  {
    var left, right := text[p..end][a..b], text[p + a..p + b];
    assert |left| == |right|;
    assert forall i | 0 <= i < |left| :: left[i] == text[p..end][a + i] == text[p + a + i] == right[i];
  }

  method MatchKey(text: string, p: nat, end: nat, key: string) returns (value: Option<nat>)
    requires p < end <= |text|
    ensures match KeyHere(text[p..end], key)
      case None => value == None
      case Some(left) => value.Some? && p < value.value <= end && text[value.value..end] == left
  {
    value := None;
    if p + |key| + 2 < end {
      SliceOfSlice(text, p, end, 1, |key| + 1);
      SliceOfSlice(text, p, end, |key| + 2, end - p);
      if text[p + 1..p + 1 + |key|] == key && text[p + |key| + 1] == '"' {
        var colon := SkipSpaces(text, p + |key| + 2, end);
        if colon < end && text[colon] == ':' {
          assert text[colon..end][1..] == text[colon + 1..end];
          var v := SkipSpaces(text, colon + 1, end);
          value := Some(v);
        }
      }
    }
  }

  method FindTopLevelKey(text: string, start: nat, end: nat, key: string) returns (value: Option<nat>)
    requires start <= end <= |text|
    ensures match ValueOf(text[start..end], 0, Outside, key)
      case None => value == None
      case Some(left) => value.Some? && start < value.value <= end && text[value.value..end] == left
  {
    var p, depth, inString, escape := start, 0, false, false;
    while p < end
      invariant start <= p <= end && (escape ==> inString)
      invariant ValueOf(text[start..end], 0, Outside, key)
                == ValueOf(text[p..end], depth, if escape then Escaped else if inString then Inside else Outside, key)
    {
      var c := text[p];
      ghost var t := text[p..end];
      assert t[0] == c && t[1..] == text[p + 1..end];
      if inString {
        if escape {
          escape := false;
        } else if c == '\\' {
          escape := true;
        } else if c == '"' {
          inString := false;
        }
        p := p + 1;
        continue;
      }
      if c == '"' {
        if depth == 1 {
          value := MatchKey(text, p, end, key);
          if value.Some? {
            return;
          }
        }
        inString := true;
      } else if c == '{' || c == '[' {
        depth := depth + 1;
      } else if c == '}' || c == ']' {
        depth := depth - 1;
      }
      p := p + 1;
    }
    assert text[end..end] == "";
    value := None;
  }

  // ---- parse_json_string -------------------------------------------------------------------------------------

  /** One character or escape sequence: what it decodes to, and how many characters it takes. */
  function Unit(t: string): (u: (string, nat))
    requires t != ""
    ensures |u.0| <= 1 && 1 <= u.1 <= |t|
  {
    if t[0] == '\\' && |t| > 1 then
      var c := t[1];
      if c == '"' || c == '\\' || c == '/' then ([c], 2)
      else if c == 'n' then (['\n'], 2)
      else if c == 'r' then (['\r'], 2)
      else if c == 't' then (['\t'], 2)
      else if c == 'u' && |t| > 5 then ([], 6)
      else ([], 2)
    else ([t[0]], 1)
  }

  /** The decoded characters of the text behind an opening quote, at most `room` of them. */
  function Decoded(t: string, room: nat): string
    decreases |t|
  {
    if t == "" || t[0] == '"' || room == 0 then ""
    else Unit(t).0 + Decoded(t[Unit(t).1..], room - |Unit(t).0|)
  }

  method ParseJsonString(text: string, value: Option<nat>, end: nat, outCount: int) returns (out: string)
    requires end <= |text|
    ensures if outCount <= 0 || value.None? || value.value >= end || text[value.value] != '"' then out == ""
      else out == Decoded(text[value.value + 1..end], outCount - 1)
  {
    out := "";
    if outCount <= 0 || value.None? || value.value >= end || text[value.value] != '"' {
      return;
    }
    out := DecodeFrom(text, value.value + 1, end, outCount - 1);
  }

  method DecodeFrom(text: string, start: nat, end: nat, room: nat) returns (out: string)
    requires start <= end <= |text|
    ensures out == Decoded(text[start..end], room)
  {
    out := "";
    var p := start;
    while p < end && text[p] != '"' && |out| < room
      invariant start <= p <= end && |out| <= room && DecodesTo(text, start, end, room, out, p)
    {
      var unit, taken := DecodeUnit(text, p, end);
      DecodesOn(text, start, end, room, out, p);
      out := out + unit;
      p := p + taken;
    }
  }

  /** Decoding from `start` gives what was written so far and then decodes from p. */
  ghost predicate DecodesTo(text: string, start: nat, end: nat, room: nat, out: string, p: nat)
    requires start <= p <= end <= |text| && |out| <= room
  {
    Decoded(text[start..end], room) == out + Decoded(text[p..end], room - |out|)
  }

  lemma DecodesOn(text: string, start: nat, end: nat, room: nat, out: string, p: nat)
    requires start <= p < end <= |text| && |out| < room && text[p] != '"' && DecodesTo(text, start, end, room, out, p)
    ensures var u := Unit(text[p..end]); DecodesTo(text, start, end, room, out + u.0, p + u.1)
  {
    var t := text[p..end];
    DecodeStep(t, room - |out|, out);
    SliceOfSlice(text, p, end, Unit(t).1, end - p);
  }

  lemma DecodeStep(t: string, room: nat, out: string)
    requires t != "" && t[0] != '"' && room > 0
    ensures out + Decoded(t, room) == out + Unit(t).0 + Decoded(t[Unit(t).1..], room - |Unit(t).0|)
  {
  }

  method DecodeUnit(text: string, p: nat, end: nat) returns (unit: string, taken: nat)
    requires p < end <= |text|
    ensures (unit, taken) == Unit(text[p..end])
  {
    if text[p] == '\\' && p + 1 < end {
      var c := text[p + 1];
      if c == '"' || c == '\\' || c == '/' {
        return [c], 2;
      } else if c == 'n' {
        return ['\n'], 2;
      } else if c == 'r' {
        return ['\r'], 2;
      } else if c == 't' {
        return ['\t'], 2;
      } else if c == 'u' && p + 5 < end {
        return [], 6;
      }
      return [], 2;
    }
    return [text[p]], 1;
  }

  // ---- the objects of the "sessions" array -------------------------------------------------------------------

  /** The objects the widget cuts out of the text behind the array's bracket, at most `room` of them. */
  function Objects(t: string, room: nat): seq<string>
    decreases |t|
  {
    if t == "" || room == 0 || t[0] == ']' then []
    else if IsSpace(t[0]) || t[0] != '{' then Objects(t[1..], room)
    else
      match AfterObject(t, 0, Outside)
      case None => []
      case Some(left) => [t[..|t| - |left|]] + Objects(left, room - 1)
  }

  lemma {:induction false} ObjectsSkipSpace(t: string, room: nat)
    ensures Objects(SkipSpace(t), room) == Objects(t, room)
  {
    if t != "" && IsSpace(t[0]) {
      ObjectsSkipSpace(t[1..], room);
    }
  }

  lemma NextObject(text: string, p: nat, end: nat, stop: nat, room: nat)
    requires p <= stop <= end <= |text| && p < end && text[p] == '{' && room > 0
    requires AfterObject(text[p..end], 0, Outside) == Some(text[stop..end])
    ensures Objects(text[p..end], room) == [text[p..stop]] + Objects(text[stop..end], room - 1)
  {
    SliceOfSlice(text, p, end, 0, stop - p);
  }

  method SplitObjects(text: string, start: nat, end: nat, maxSessions: nat) returns (objects: seq<string>)
    requires start <= end <= |text|
    ensures objects == Objects(text[start..end], maxSessions)
  {
    objects := [];
    var p := start;
    ghost var all := Objects(text[start..end], maxSessions);
    while p < end && |objects| < maxSessions
      invariant start <= p <= end && |objects| <= maxSessions
      invariant all == objects + Objects(text[p..end], maxSessions - |objects|)
      decreases end - p
    {
      ObjectsSkipSpace(text[p..end], maxSessions - |objects|);
      p := SkipSpaces(text, p, end);
      if p >= end || text[p] == ']' {
        break;
      }
      if text[p] != '{' {
        assert text[p..end][1..] == text[p + 1..end];
        p := p + 1;
        continue;
      }
      var objectEnd := MatchingBrace(text, p, end);
      if objectEnd.None? {
        break;
      }
      NextObject(text, p, end, objectEnd.value, maxSessions - |objects|);
      objects := objects + [text[p..objectEnd.value]];
      p := objectEnd.value;
    }
  }
}
