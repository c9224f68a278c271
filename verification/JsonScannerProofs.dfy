/** The scanner against printed JSON: what it finds, where it stops, and what it decodes. */
module JsonScannerProofs {
  import opened Sequences
  import opened JsonText
  import opened JsonScanner

  // ---- strings are skipped, whatever they contain ---------------------------------------------------------

  lemma OneInside(c: char, rest: string, depth: int, mode: Mode, key: string)
    requires mode != Outside
    ensures AfterObject([c] + rest, depth, mode) == AfterObject(rest, depth, NextMode(mode, c))
    ensures ValueOf([c] + rest, depth, mode, key) == ValueOf(rest, depth, NextMode(mode, c), key)
  {
    assert ([c] + rest)[1..] == rest;
  }

  lemma FourInside(a: char, b: char, c: char, d: char, tail: string, depth: int, key: string)
    requires a !in {'"', '\\'} && b !in {'"', '\\'} && c !in {'"', '\\'} && d !in {'"', '\\'}
    ensures var t := [a] + ([b] + ([c] + ([d] + tail)));
      && AfterObject(t, depth, Inside) == AfterObject(tail, depth, Inside)
      && ValueOf(t, depth, Inside, key) == ValueOf(tail, depth, Inside, key)
  {
    OneInside(a, [b] + ([c] + ([d] + tail)), depth, Inside, key);
    OneInside(b, [c] + ([d] + tail), depth, Inside, key);
    OneInside(c, [d] + tail, depth, Inside, key);
    OneInside(d, tail, depth, Inside, key);
  }

  lemma EscapedCharStaysInside(c: char, tail: string, depth: int, key: string)
    ensures AfterObject(EscapeChar(c) + tail, depth, Inside) == AfterObject(tail, depth, Inside)
    ensures ValueOf(EscapeChar(c) + tail, depth, Inside, key) == ValueOf(tail, depth, Inside, key)
  {
    var e := EscapeChar(c);
    if |e| == 1 {
      assert e + tail == [c] + tail;
      OneInside(c, tail, depth, Inside, key);
    } else {
      var behind := e[2..] + tail;
      assert e + tail == ['\\'] + ([e[1]] + behind);
      OneInside('\\', [e[1]] + behind, depth, Inside, key);
      OneInside(e[1], behind, depth, Escaped, key);
      if |e| > 2 {
        assert behind == ['0'] + (['0'] + ([e[4]] + ([e[5]] + tail)));
        FourInside('0', '0', e[4], e[5], tail, depth, key);
      } else {
        assert behind == tail;
      }
    }
  }

  lemma {:induction false} InsideString(s: string, rest: string, depth: int, key: string)
    ensures AfterObject(EscapeTo(s, ['"'] + rest), depth, Inside) == AfterObject(rest, depth, Outside)
    ensures ValueOf(EscapeTo(s, ['"'] + rest), depth, Inside, key) == ValueOf(rest, depth, Outside, key)
  {
    if s == "" {
      assert (['"'] + rest)[1..] == rest;
    } else {
      EscapedCharStaysInside(s[0], EscapeTo(s[1..], ['"'] + rest), depth, key);
      InsideString(s[1..], rest, depth, key);
    }
  }

  lemma OneOutside(c: char, rest: string, depth: int, key: string)
    requires AtomChar(c) || IsSpace(c) || c == ',' || c == ':'
    ensures AfterObject([c] + rest, depth, Outside) == AfterObject(rest, depth, Outside)
    ensures ValueOf([c] + rest, depth, Outside, key) == ValueOf(rest, depth, Outside, key)
  {
    assert ([c] + rest)[1..] == rest;
  }

  lemma {:induction false} PlainRun(x: string, rest: string, depth: int, key: string)
    requires forall c <- x :: AtomChar(c) || IsSpace(c)
    ensures AfterObject(x + rest, depth, Outside) == AfterObject(rest, depth, Outside)
    ensures ValueOf(x + rest, depth, Outside, key) == ValueOf(rest, depth, Outside, key)
  {
    if x == "" {
      assert x + rest == rest;
    } else {
      assert x + rest == [x[0]] + (x[1..] + rest) && x[0] in x;
      assert forall c <- x[1..] :: c in x;
      OneOutside(x[0], x[1..] + rest, depth, key);
      PlainRun(x[1..], rest, depth, key);
    }
  }

  // ---- matching_brace ----------------------------------------------------------------------------------------

  lemma QuotedIsSkipped(s: string, rest: string, depth: int)
    ensures AfterObject(QuoteTo(s, rest), depth, Outside) == AfterObject(rest, depth, Outside)
  {
    assert QuoteTo(s, rest)[1..] == EscapeTo(s, ['"'] + rest);
    InsideString(s, rest, depth, "");
  }

  lemma {:induction false} ValueIsBalanced(v: Json, gap: string, rest: string, depth: int)
    requires AtomsOk(v) && AllSpace(gap) && depth >= 1
    ensures AfterObject(PrintTo(v, gap, rest), depth, Outside) == AfterObject(rest, depth, Outside)
    decreases v, 1
  {
    match v
    case Atom(text) => PlainRun(text, rest, depth, "");
    case Str(text) => QuotedIsSkipped(text, rest, depth);
    case Arr(items) =>
      assert PrintTo(v, gap, rest)[1..] == ItemsTo(items, gap, [']'] + rest);
      ItemsAreBalanced(items, gap, [']'] + rest, depth);
      assert ([']'] + rest)[1..] == rest;
    case Obj(members) =>
      assert PrintTo(v, gap, rest)[1..] == MembersTo(members, gap, ['}'] + rest);
      MembersAreBalanced(members, gap, ['}'] + rest, depth + 1);
      assert (['}'] + rest)[1..] == rest;
  }

  lemma {:induction false} ItemsAreBalanced(items: seq<Json>, gap: string, rest: string, depth: int)
    requires (forall i | 0 <= i < |items| :: AtomsOk(items[i])) && AllSpace(gap) && depth >= 1
    ensures AfterObject(ItemsTo(items, gap, rest), depth, Outside) == AfterObject(rest, depth, Outside)
    decreases items, 0
  {
    if items != [] {
      var tail := gap + ItemsTo(items[1..], gap, rest);
      ValueIsBalanced(items[0], gap, if |items| == 1 then rest else [','] + tail, depth);
      if |items| > 1 {
        OneOutside(',', tail, depth, "");
        PlainRun(gap, ItemsTo(items[1..], gap, rest), depth, "");
        ItemsAreBalanced(items[1..], gap, rest, depth);
      }
    }
  }

  lemma {:induction false} MembersAreBalanced(members: seq<Member>, gap: string, rest: string, depth: int)
    requires (forall i | 0 <= i < |members| :: AtomsOk(members[i].value)) && AllSpace(gap) && depth >= 1
    ensures AfterObject(MembersTo(members, gap, rest), depth, Outside) == AfterObject(rest, depth, Outside)
    decreases members, 0
  {
    if members != [] {
      var m, tail := members[0], MembersTail(members, gap, rest);
      assert m in members;
      var value := gap + PrintTo(m.value, gap, tail);
      QuotedIsSkipped(m.key, [':'] + value, depth);
      OneOutside(':', value, depth, "");
      PlainRun(gap, PrintTo(m.value, gap, tail), depth, "");
      ValueIsBalanced(m.value, gap, tail, depth);
      if |members| > 1 {
        var others := MembersTo(members[1..], gap, rest);
        OneOutside(',', gap + others, depth, "");
        PlainRun(gap, others, depth, "");
        MembersAreBalanced(members[1..], gap, rest, depth);
      }
    }
  }

  /** For every printed object and any text behind it, `matching_brace` stops exactly at its end. */
  lemma MatchingBraceFindsTheEnd(members: seq<Member>, gap: string, rest: string)
    requires AtomsOk(Obj(members)) && AllSpace(gap)
    ensures AfterObject(Print(Obj(members), gap) + rest, 0, Outside) == Some(rest)
  {
    PrintInFront(Obj(members), gap, "", rest);
    var t := PrintTo(Obj(members), gap, rest);
    assert "" + rest == rest && t[1..] == MembersTo(members, gap, ['}'] + rest);
    MembersAreBalanced(members, gap, ['}'] + rest, 1);
    assert (['}'] + rest)[1..] == rest;
  }

  // ---- find_top_level_key ----------------------------------------------------------------------------------------

  /** A key the widget asks for: no character of it needs escaping. */
  ghost predicate Plain(key: string) {
    forall c <- key :: c >= ' ' && c != '"' && c != '\\'
  }

  /** `u` starts with the key and a closing quote. */
  predicate StartsWithKey(u: string, key: string) {
    |u| > |key| && u[..|key|] == key && u[|key|] == '"'
  }

  lemma StartsWithKeyStep(c: char, u: string, key: string)
    requires key != ""
    ensures StartsWithKey([c] + u, key) <==> c == key[0] && StartsWithKey(u, key[1..])
  {
    var t := [c] + u;
    if |t| > |key| {
      assert t[..|key|] == [c] + u[..|key| - 1];
      assert key == [key[0]] + key[1..];
      assert t[|key|] == u[|key| - 1];
      assert t[..|key|][0] == c && t[..|key|][1..] == u[..|key| - 1];
    }
  }

  lemma PlainIsUnescaped(c: char, k: char)
    requires k >= ' ' && k != '"' && k != '\\'
    ensures EscapeChar(c) != "" && (EscapeChar(c)[0] == k <==> c == k) && (c == k ==> EscapeChar(c) == [c])
  {
  }

  lemma {:induction false} PlainPrintsAsItself(key: string, tail: string)
    requires Plain(key)
    ensures EscapeTo(key, tail) == key + tail
  {
    if key != "" {
      var c, others := key[0], key[1..];
      assert key == [c] + others && c in key && forall d <- others :: d in key;
      PlainIsUnescaped(c, c);
      PlainPrintsAsItself(others, tail);
      assert EscapeTo(key, tail) == [c] + EscapeTo(others, tail);
    } else {
      assert key + tail == tail;
    }
  }

  /** Only the very key, unescaped, followed by its closing quote, looks like the key. */
  lemma {:induction false} OnlyTheKeyLooksLikeIt(s: string, after: string, key: string)
    requires Plain(key)
    ensures StartsWithKey(EscapeTo(s, ['"'] + after), key) <==> s == key
  {
    var tail := ['"'] + after;
    if key == "" {
      EmptyKey(s, tail);
    } else {
      assert key[0] in key && forall d <- key[1..] :: d in key;
      if s == "" {
        StartsWithKeyStep('"', after, key);
      } else {
        var e, u' := EscapeChar(s[0]), EscapeTo(s[1..], tail);
        PlainIsUnescaped(s[0], key[0]);
        assert e + u' == [e[0]] + (e[1..] + u');
        StartsWithKeyStep(e[0], e[1..] + u', key);
        OnlyTheKeyLooksLikeIt(s[1..], after, key[1..]);
        assert s == [s[0]] + s[1..] && key == [key[0]] + key[1..];
        if s[0] == key[0] {
          assert e[1..] + u' == u';
        }
      }
    }
  }

  lemma EmptyKey(s: string, tail: string)
    requires tail != "" && tail[0] == '"'
    ensures StartsWithKey(EscapeTo(s, tail), "") <==> s == ""
  {
    assert EscapeTo(s, tail)[..0] == "";
  }

  /** What the scanner reads behind a key it recognised. */
  function BehindKey(after: string): Option<string> {
    var colon := SkipSpace(after);
    if colon != "" && colon[0] == ':' then Some(SkipSpace(colon[1..])) else None
  }

  /** A quoted string is taken for the key exactly when it is the key and a colon follows. */
  lemma QuotedKey(s: string, after: string, key: string)
    requires Plain(key) && after != ""
    ensures KeyHere(QuoteTo(s, after), key) == if s == key then BehindKey(after) else None
  {
    var t, u := QuoteTo(s, after), EscapeTo(s, ['"'] + after);
    OnlyTheKeyLooksLikeIt(s, after, key);
    assert t[1..] == u;
    if |u| > |key| {
      assert t[1..|key| + 1] == u[..|key|] && t[|key| + 1] == u[|key|];
    }
    if s == key {
      PlainPrintsAsItself(key, ['"'] + after);
      var quoted := ['"'] + key + ['"'];
      assert t == quoted + after && |quoted| == |key| + 2;
      assert t[|quoted|..] == after;
    }
  }

  /** What may follow a value inside an object or array. */
  predicate EndsValue(rest: string) {
    rest != "" && (rest[0] == ',' || rest[0] == '}')
  }

  lemma StringValueIsNoKey(s: string, rest: string, depth: int, key: string)
    requires Plain(key) && (depth == 1 ==> EndsValue(rest))
    ensures ValueOf(QuoteTo(s, rest), depth, Outside, key) == ValueOf(rest, depth, Outside, key)
  {
    if depth == 1 {
      QuotedKey(s, rest, key);
    }
    assert QuoteTo(s, rest)[1..] == EscapeTo(s, ['"'] + rest);
    InsideString(s, rest, depth, key);
  }

  /** A value below the top level, or in value position at the top level, hides every look-alike. */
  lemma {:induction false} ValueHidesKeys(v: Json, gap: string, rest: string, depth: int, key: string)
    requires AtomsOk(v) && AllSpace(gap) && Plain(key) && depth >= 1 && (depth == 1 ==> EndsValue(rest))
    ensures ValueOf(PrintTo(v, gap, rest), depth, Outside, key) == ValueOf(rest, depth, Outside, key)
    decreases v, 1
  {
    match v
    case Atom(text) => PlainRun(text, rest, depth, key);
    case Str(text) => StringValueIsNoKey(text, rest, depth, key);
    case Arr(items) =>
      assert PrintTo(v, gap, rest)[1..] == ItemsTo(items, gap, [']'] + rest);
      ItemsHideKeys(items, gap, [']'] + rest, depth + 1, key);
      assert ([']'] + rest)[1..] == rest;
    case Obj(members) =>
      assert PrintTo(v, gap, rest)[1..] == MembersTo(members, gap, ['}'] + rest);
      MembersHideKeys(members, gap, ['}'] + rest, depth + 1, key);
      assert (['}'] + rest)[1..] == rest;
  }

  lemma {:induction false} ItemsHideKeys(items: seq<Json>, gap: string, rest: string, depth: int, key: string)
    requires (forall i | 0 <= i < |items| :: AtomsOk(items[i])) && AllSpace(gap) && Plain(key) && depth >= 2
    ensures ValueOf(ItemsTo(items, gap, rest), depth, Outside, key) == ValueOf(rest, depth, Outside, key)
    decreases items, 0
  {
    if items != [] {
      var tail := gap + ItemsTo(items[1..], gap, rest);
      ValueHidesKeys(items[0], gap, if |items| == 1 then rest else [','] + tail, depth, key);
      if |items| > 1 {
        OneOutside(',', tail, depth, key);
        PlainRun(gap, ItemsTo(items[1..], gap, rest), depth, key);
        ItemsHideKeys(items[1..], gap, rest, depth, key);
      }
    }
  }

  lemma {:induction false} MembersHideKeys(members: seq<Member>, gap: string, rest: string, depth: int, key: string)
    requires (forall i | 0 <= i < |members| :: AtomsOk(members[i].value)) && AllSpace(gap) && Plain(key) && depth >= 2
    ensures ValueOf(MembersTo(members, gap, rest), depth, Outside, key) == ValueOf(rest, depth, Outside, key)
    decreases members, 0
  {
    if members != [] {
      var m, tail := members[0], MembersTail(members, gap, rest);
      assert m in members;
      var value := gap + PrintTo(m.value, gap, tail);
      StringValueIsNoKey(m.key, [':'] + value, depth, key);
      OneOutside(':', value, depth, key);
      PlainRun(gap, PrintTo(m.value, gap, tail), depth, key);
      ValueHidesKeys(m.value, gap, tail, depth, key);
      if |members| > 1 {
        var others := MembersTo(members[1..], gap, rest);
        OneOutside(',', gap + others, depth, key);
        PlainRun(gap, others, depth, key);
        MembersHideKeys(members[1..], gap, rest, depth, key);
      }
    }
  }

  /** The position of the first member with this key, or the number of members. */
  function FirstMember(members: seq<Member>, key: string): (i: nat)
    ensures i <= |members|
    ensures i < |members| ==> members[i].key == key
    ensures forall j | 0 <= j < i :: members[j].key != key
  {
    if members == [] || members[0].key == key then 0 else 1 + FirstMember(members[1..], key)
  }

  lemma {:induction false} SkipsGap(gap: string, r: string)
    requires AllSpace(gap) && r != "" && !IsSpace(r[0])
    ensures SkipSpace(gap + r) == r
  {
    if gap == "" {
      assert gap + r == r;
    } else {
      assert gap[0] in gap && (gap + r)[1..] == gap[1..] + r && forall c <- gap[1..] :: c in gap;
      SkipsGap(gap[1..], r);
    }
  }

  lemma ValueStarts(v: Json, gap: string, rest: string)
    requires AtomsOk(v)
    ensures PrintTo(v, gap, rest) != "" && !IsSpace(PrintTo(v, gap, rest)[0])
  {
    if v.Atom? {
      assert v.text[0] in v.text;
    }
  }

  /** At a member with the key the scanner stops. */
  lemma StopsAtMember(members: seq<Member>, gap: string, rest: string, key: string)
    requires members != [] && AtomsOk(members[0].value) && AllSpace(gap) && Plain(key) && members[0].key == key
    ensures ValueOf(MembersTo(members, gap, rest), 1, Outside, key)
            == Some(PrintTo(members[0].value, gap, MembersTail(members, gap, rest)))
  {
    var m, tail := members[0], MembersTail(members, gap, rest);
    var value := PrintTo(m.value, gap, tail);
    var after := [':'] + (gap + value);
    ValueStarts(m.value, gap, tail);
    QuotedKey(m.key, after, key);
    assert after[1..] == gap + value && SkipSpace(after) == after;
    SkipsGap(gap, value);
  }

  lemma PassesOtherKey(s: string, after: string, key: string)
    requires Plain(key) && after != "" && s != key
    ensures ValueOf(QuoteTo(s, after), 1, Outside, key) == ValueOf(after, 1, Outside, key)
  {
    QuotedKey(s, after, key);
    assert QuoteTo(s, after)[1..] == EscapeTo(s, ['"'] + after);
    InsideString(s, after, 1, key);
  }

  lemma PassesSeparator(c: char, gap: string, rest: string, key: string)
    requires AllSpace(gap) && (c == ',' || c == ':')
    ensures ValueOf([c] + (gap + rest), 1, Outside, key) == ValueOf(rest, 1, Outside, key)
  {
    OneOutside(c, gap + rest, 1, key);
    PlainRun(gap, rest, 1, key);
  }

  /** Any other member it passes. */
  lemma PassesMember(members: seq<Member>, gap: string, rest: string, key: string)
    requires members != [] && AtomsOk(members[0].value) && AllSpace(gap) && Plain(key) && members[0].key != key
    requires rest != "" && rest[0] == '}'
    ensures ValueOf(MembersTo(members, gap, rest), 1, Outside, key)
            == ValueOf(MembersTail(members, gap, rest), 1, Outside, key)
  {
    var tail := MembersTail(members, gap, rest);
    var value := PrintTo(members[0].value, gap, tail);
    PassesOtherKey(members[0].key, [':'] + (gap + value), key);
    PassesSeparator(':', gap, value, key);
    assert EndsValue(tail);
    ValueHidesKeys(members[0].value, gap, tail, 1, key);
  }

  /** Among the members of the object at hand, the scanner stops at the value of the first one with the
      key, and passes over the whole object when there is none. */
  lemma {:induction false} FindsFirstMember(members: seq<Member>, gap: string, rest: string, key: string)
    requires (forall i | 0 <= i < |members| :: AtomsOk(members[i].value)) && AllSpace(gap) && Plain(key)
    requires rest != "" && rest[0] == '}'
    ensures var i := FirstMember(members, key);
      ValueOf(MembersTo(members, gap, rest), 1, Outside, key) ==
        if i < |members| then Some(PrintTo(members[i].value, gap, MembersTail(members[i..], gap, rest)))
        else ValueOf(rest, 1, Outside, key)
    decreases |members|
  {
    if members != [] {
      if members[0].key == key {
        StopsAtMember(members, gap, rest, key);
        assert members[0..] == members;
      } else {
        PassesMember(members, gap, rest, key);
        FindsInTail(members, gap, rest, key);
      }
    }
  }

  lemma {:induction false} FindsInTail(members: seq<Member>, gap: string, rest: string, key: string)
    requires (forall i | 0 <= i < |members| :: AtomsOk(members[i].value)) && AllSpace(gap) && Plain(key)
    requires rest != "" && rest[0] == '}' && members != [] && members[0].key != key
    ensures var i := FirstMember(members, key);
      ValueOf(MembersTail(members, gap, rest), 1, Outside, key) ==
        if i < |members| then Some(PrintTo(members[i].value, gap, MembersTail(members[i..], gap, rest)))
        else ValueOf(rest, 1, Outside, key)
    decreases |members|, 0
  {
    var others := members[1..];
    if others != [] {
      var text := MembersTo(others, gap, rest);
      PassesSeparator(',', gap, text, key);
      FindsFirstMember(others, gap, rest, key);
      var i := FirstMember(others, key);
      if i < |others| {
        assert others[i..] == members[i + 1..];
      }
    }
  }

  /** For every printed object and any text behind it, `find_top_level_key` returns the position of the
      value of the first member with the key, whatever nested or quoted look-alikes come before; when
      there is no such member it has passed the whole object and looks on behind it. */
  lemma FindsTopLevelKey(members: seq<Member>, gap: string, rest: string, key: string)
    requires AtomsOk(Obj(members)) && AllSpace(gap) && Plain(key)
    ensures var i := FirstMember(members, key);
      ValueOf(Print(Obj(members), gap) + rest, 0, Outside, key) ==
        if i < |members| then Some(PrintTo(members[i].value, gap, MembersTail(members[i..], gap, ['}'] + rest)))
        else ValueOf(rest, 0, Outside, key)
  {
    PrintInFront(Obj(members), gap, "", rest);
    var t := PrintTo(Obj(members), gap, rest);
    assert "" + rest == rest && t[1..] == MembersTo(members, gap, ['}'] + rest);
    FindsFirstMember(members, gap, ['}'] + rest, key);
    assert (['}'] + rest)[1..] == rest;
  }

  // ---- parse_json_string ------------------------------------------------------------------------------------------

  /** Characters whose printed form the widget decodes; of the control characters only three. */
  predicate Representable(c: char) { c >= ' ' || c in {'\n', '\r', '\t'} }

  function OnlyRepresentable(s: string): string {
    if s == "" then ""
    else if Representable(s[0]) then [s[0]] + OnlyRepresentable(s[1..])
    else OnlyRepresentable(s[1..])
  }

  function Take(s: string, n: nat): string { if |s| <= n then s else s[..n] }

  lemma UnitOfEscape(c: char, tail: string)
    requires tail != ""
    ensures Unit(EscapeChar(c) + tail) == (if Representable(c) then [c] else "", |EscapeChar(c)|)
    ensures (EscapeChar(c) + tail)[0] != '"'
  {
  }

  /** Decoding a printed string gives its representable characters, as many as the buffer has room for. */
  lemma {:induction false} DecodesPrintedString(s: string, rest: string, room: nat)
    ensures Decoded(EscapeTo(s, ['"'] + rest), room) == Take(OnlyRepresentable(s), room)
  {
    if s != "" && room > 0 {
      var tail := EscapeTo(s[1..], ['"'] + rest);
      TailNotEmpty(s[1..], ['"'] + rest);
      DecodesOneChar(s[0], tail, room);
      DecodesPrintedString(s[1..], rest, if Representable(s[0]) then room - 1 else room);
      TakePush(s[0], OnlyRepresentable(s[1..]), room);
    }
  }

  lemma DecodesOneChar(c: char, tail: string, room: nat)
    requires tail != "" && room > 0
    ensures Decoded(EscapeChar(c) + tail, room) ==
      if Representable(c) then [c] + Decoded(tail, room - 1) else Decoded(tail, room)
  {
    var e := EscapeChar(c);
    UnitOfEscape(c, tail);
    assert (e + tail)[|e|..] == tail;
    DecodesUnit(e + tail, if Representable(c) then [c] else "", tail, room);
  }

  lemma DecodesUnit(t: string, unit: string, tail: string, room: nat)
    requires t != "" && t[0] != '"' && room > 0 && Unit(t).0 == unit && t[Unit(t).1..] == tail
    ensures Decoded(t, room) == if unit == "" then Decoded(tail, room) else unit + Decoded(tail, room - 1)
  {
    assert "" + Decoded(tail, room) == Decoded(tail, room);
  }

  lemma TakePush(c: char, s: string, n: nat)
    requires n > 0
    ensures Take([c] + s, n) == [c] + Take(s, n - 1)
  {
  }

  lemma {:induction false} TailNotEmpty(s: string, rest: string)
    requires rest != ""
    ensures EscapeTo(s, rest) != ""
  {
  }

  lemma {:induction false} RepresentableOnly(s: string)
    ensures |OnlyRepresentable(s)| <= |s|
    ensures OnlyRepresentable(s) == s <==> forall c <- s :: Representable(c)
    ensures |OnlyRepresentable(s)| == |s| ==> OnlyRepresentable(s) == s
  {
    if s != "" {
      RepresentableOnly(s[1..]);
      assert s == [s[0]] + s[1..];
    }
  }

  /** The decoder inverts the printer exactly for the strings that fit the buffer and contain no control
      characters other than the three it knows. */
  lemma DecodingInvertsPrinting(s: string, rest: string, room: nat)
    ensures Decoded(EscapeTo(s, ['"'] + rest), room) == s <==> |s| <= room && forall c <- s :: Representable(c)
  {
    DecodesPrintedString(s, rest, room);
    RepresentableOnly(s);
  }

  /** Field lookup end to end: the first member with the key, when it is a string, is read back. */
  lemma FieldIsReadBack(members: seq<Member>, gap: string, rest: string, key: string, room: nat)
    requires AtomsOk(Obj(members)) && AllSpace(gap) && Plain(key)
    requires FirstMember(members, key) < |members| && members[FirstMember(members, key)].value.Str?
    ensures var found := ValueOf(Print(Obj(members), gap) + rest, 0, Outside, key);
      && found.Some? && found.value != "" && found.value[0] == '"'
      && Decoded(found.value[1..], room) == Take(OnlyRepresentable(members[FirstMember(members, key)].value.text), room)
  {
    var i := FirstMember(members, key);
    FindsTopLevelKey(members, gap, rest, key);
    var tail := MembersTail(members[i..], gap, ['}'] + rest);
    var text := members[i].value.text;
    assert QuoteTo(text, tail)[1..] == EscapeTo(text, ['"'] + tail);
    DecodesPrintedString(text, tail, room);
  }

  // ---- the sessions array -----------------------------------------------------------------------------------------

  lemma OneObject(members: seq<Member>, gap: string, tail: string, room: nat)
    requires AtomsOk(Obj(members)) && AllSpace(gap) && room > 0
    ensures Objects(PrintTo(Obj(members), gap, tail), room) == [Print(Obj(members), gap)] + Objects(tail, room - 1)
  {
    var whole, t := Print(Obj(members), gap), PrintTo(Obj(members), gap, tail);
    PrintInFront(Obj(members), gap, "", tail);
    assert "" + tail == tail;
    assert t == whole + tail;
    MatchingBraceFindsTheEnd(members, gap, tail);
    assert AfterObject(whole + tail, 0, Outside) == Some(tail);
    assert t[0] == '{' && t[..|t| - |tail|] == whole;
    CutsObject(t, tail, room);
  }

  lemma CutsObject(t: string, tail: string, room: nat)
    requires t != "" && t[0] == '{' && AfterObject(t, 0, Outside) == Some(tail) && room > 0
    ensures |tail| < |t| && Objects(t, room) == [t[..|t| - |tail|]] + Objects(tail, room - 1)
  {
  }

  lemma {:induction false} SkipsToObject(gap: string, t: string, room: nat)
    requires AllSpace(gap) && room > 0
    ensures Objects(gap + t, room) == Objects(t, room)
    ensures Objects([','] + (gap + t), room) == Objects(t, room)
  {
    if gap == "" {
      assert gap + t == t;
    } else {
      assert gap[0] in gap && (gap + t)[1..] == gap[1..] + t && forall c <- gap[1..] :: c in gap;
      SkipsToObject(gap[1..], t, room);
    }
    assert ([','] + (gap + t))[1..] == gap + t;
  }

  function PrintAll(objects: seq<Json>, gap: string, n: nat): seq<string>
    requires n <= |objects|
  {
    seq(n, i requires 0 <= i < n => Print(objects[i], gap))
  }

  /** The widget cuts a printed array of objects into exactly its objects, in order, up to its limit. */
  lemma {:induction false} SplitsSessionsArray(objects: seq<Json>, gap: string, rest: string, room: nat)
    requires (forall i | 0 <= i < |objects| :: objects[i].Obj? && AtomsOk(objects[i])) && AllSpace(gap)
    ensures Objects(ItemsTo(objects, gap, [']'] + rest), room) == PrintAll(objects, gap, Min(room, |objects|))
    decreases |objects|
  {
    if objects != [] && room > 0 {
      var others := ItemsTo(objects[1..], gap, [']'] + rest);
      var tail := if |objects| == 1 then [']'] + rest else [','] + (gap + others);
      OneObject(objects[0].members, gap, tail, room);
      if |objects| > 1 && room > 1 {
        SkipsToObject(gap, others, room - 1);
        SplitsSessionsArray(objects[1..], gap, rest, room - 1);
        assert PrintAll(objects, gap, Min(room, |objects|)) ==
          [Print(objects[0], gap)] + PrintAll(objects[1..], gap, Min(room - 1, |objects| - 1));
      }
    }
  }
}
