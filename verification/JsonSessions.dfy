/** Reading a whole response of the server: the search for the sessions array and its objects
    (windows/CodexMonitorWidget/src/main.c, `parse_sessions_json`). */
module JsonSessions {
  import opened Sequences
  import opened JsonText
  import opened JsonScanner
  import opened JsonScannerProofs

  const WORD := "sessions"

  // ---- what the widget does ------------------------------------------------------------------------------------

  /** The quoted word stands here. */
  predicate WordHere(t: string) { t != "" && t[0] == '"' && StartsWithKey(t[1..], WORD) }

  /** `strstr(json, "\"sessions\"")`: the text from the first occurrence on. */
  function FindWord(t: string): (found: Option<string>)
    ensures found.Some? ==> |found.value| <= |t|
  {
    if t == "" then None else if WordHere(t) then Some(t) else FindWord(t[1..])
  }

  /** `memchr(sessions, '[', ...)`: the text behind the first bracket. */
  function BehindBracket(t: string): (left: Option<string>)
    ensures left.Some? ==> |left.value| < |t|
  {
    if t == "" then None else if t[0] == '[' then Some(t[1..]) else BehindBracket(t[1..])
  }

  /** The text from which the objects are read. */
  function ArrayText(t: string): Option<string> {
    match FindWord(t)
    case None => None
    case Some(found) => BehindBracket(found)
  }

  function SessionObjects(t: string, room: nat): Option<seq<string>> {
    match ArrayText(t)
    case None => None
    case Some(left) => Some(Objects(left, room))
  }

  method ParseSessionsJson(json: string, maxSessions: nat) returns (objects: Option<seq<string>>)
    ensures objects == SessionObjects(json, maxSessions)
  {
    var sessions := 0;
    while sessions < |json| && !WordHere(json[sessions..])
      invariant 0 <= sessions <= |json| && FindWord(json[sessions..]) == FindWord(json)
    {
      assert json[sessions..][1..] == json[sessions + 1..];
      sessions := sessions + 1;
    }
    if sessions == |json| {
      return None;
    }
    var p := sessions;
    while p < |json| && json[p] != '['
      invariant sessions <= p <= |json| && BehindBracket(json[p..]) == BehindBracket(json[sessions..])
    {
      assert json[p..][1..] == json[p + 1..];
      p := p + 1;
    }
    if p == |json| {
      return None;
    }
    var found := SplitObjects(json, p + 1, |json|, maxSessions);
    assert json[p..][1..] == json[p + 1..] == json[p + 1..|json|];
    objects := Some(found);
  }

  // ---- text that does not look like the word ---------------------------------------------------------------------

  /** The printed string holds no quoted word: it is not the word, and does not end in a quote and the word. */
  predicate Quiet(s: string) {
    s != WORD && forall i | 0 <= i < |s| :: s[i] == '"' ==> s[i + 1..] != WORD
  }

  ghost predicate AllQuiet(v: Json)
    decreases v
  {
    match v
    case Atom(_) => true
    case Str(text) => Quiet(text)
    case Arr(items) => forall i | 0 <= i < |items| :: AllQuiet(items[i])
    case Obj(members) => forall i | 0 <= i < |members| :: Quiet(members[i].key) && AllQuiet(members[i].value)
  }

  /** What follows a string or value does not complete the word. */
  predicate Apart(rest: string) { rest == "" || rest[0] != 's' }

  lemma ApartIsNoWord(rest: string)
    requires Apart(rest)
    ensures !StartsWithKey(rest, WORD)
  {
    if |rest| > |WORD| {
      assert rest[..|WORD|][0] == rest[0] && WORD[0] == 's';
    }
  }

  lemma Passes(c: char, rest: string)
    requires c != '"' || !StartsWithKey(rest, WORD)
    ensures FindWord([c] + rest) == FindWord(rest)
  {
    assert ([c] + rest)[1..] == rest;
  }

  lemma {:induction false} PassesRun(x: string, rest: string)
    requires forall c <- x :: c != '"'
    ensures FindWord(x + rest) == FindWord(rest)
  {
    if x == "" {
      assert x + rest == rest;
    } else {
      assert x[0] in x && forall c <- x[1..] :: c in x;
      PassesRun(x[1..], rest);
      Passes(x[0], x[1..] + rest);
      assert x + rest == [x[0]] + (x[1..] + rest);
    }
  }

  /** Behind an escaped quote the word may stand; behind any other character it cannot. */
  lemma PassesEscaped(c: char, rest: string)
    requires c != '"' || !StartsWithKey(rest, WORD)
    ensures FindWord(EscapeChar(c) + rest) == FindWord(rest)
  {
    if c == '"' {
      Passes('"', rest);
      Passes('\\', ['"'] + rest);
      assert EscapeChar(c) + rest == ['\\'] + (['"'] + rest);
    } else {
      PassesRun(EscapeChar(c), rest);
    }
  }

  lemma {:induction false} PassesInside(s: string, rest: string)
    requires Apart(rest) && forall i | 0 <= i < |s| :: s[i] == '"' ==> s[i + 1..] != WORD
    ensures FindWord(EscapeTo(s, ['"'] + rest)) == FindWord(rest)
  {
    if s == "" {
      ApartIsNoWord(rest);
      Passes('"', rest);
    } else {
      var u := s[1..];
      assert forall i | 0 <= i < |u| :: u[i] == s[i + 1] && u[i + 1..] == s[i + 2..];
      PassesInside(u, rest);
      OnlyTheKeyLooksLikeIt(u, rest, WORD);
      PassesEscaped(s[0], EscapeTo(u, ['"'] + rest));
    }
  }

  lemma PassesString(s: string, rest: string)
    requires Quiet(s) && Apart(rest)
    ensures FindWord(QuoteTo(s, rest)) == FindWord(rest)
  {
    OnlyTheKeyLooksLikeIt(s, rest, WORD);
    Passes('"', EscapeTo(s, ['"'] + rest));
    PassesInside(s, rest);
  }

  lemma {:induction false} PassesValue(v: Json, gap: string, rest: string)
    requires AtomsOk(v) && AllQuiet(v) && AllSpace(gap) && Apart(rest)
    ensures FindWord(PrintTo(v, gap, rest)) == FindWord(rest)
    decreases v, 1
  {
    match v
    case Atom(text) => PassesRun(text, rest);
    case Str(text) => PassesString(text, rest);
    case Arr(items) =>
      Passes('[', ItemsTo(items, gap, [']'] + rest));
      PassesItems(items, gap, [']'] + rest);
      Passes(']', rest);
    case Obj(members) =>
      Passes('{', MembersTo(members, gap, ['}'] + rest));
      PassesMembers(members, gap, ['}'] + rest, |members|);
      Passes('}', rest);
  }

  lemma PassesGap(c: char, gap: string, rest: string)
    requires AllSpace(gap) && (c == ',' || c == ':')
    ensures FindWord([c] + (gap + rest)) == FindWord(rest)
  {
    PassesRun(gap, rest);
    Passes(c, gap + rest);
  }

  lemma {:induction false} PassesItems(items: seq<Json>, gap: string, rest: string)
    requires (forall i | 0 <= i < |items| :: AtomsOk(items[i]) && AllQuiet(items[i])) && AllSpace(gap) && Apart(rest)
    ensures FindWord(ItemsTo(items, gap, rest)) == FindWord(rest)
    decreases items, 0
  {
    if items != [] {
      var others := ItemsTo(items[1..], gap, rest);
      var tail := if |items| == 1 then rest else [','] + (gap + others);
      assert items[0] in items;
      PassesValue(items[0], gap, tail);
      if |items| > 1 {
        PassesGap(',', gap, others);
        PassesItems(items[1..], gap, rest);
      }
    }
  }

  /** Passing the first n members. */
  lemma {:induction false} PassesMembers(members: seq<Member>, gap: string, rest: string, n: nat)
    requires n <= |members| && AllSpace(gap) && Apart(rest) && (n > 0 ==> AtomsOk(Obj(members)))
    requires forall i | 0 <= i < n :: AtomsOk(members[i].value) && Quiet(members[i].key) && AllQuiet(members[i].value)
    ensures FindWord(MembersTo(members, gap, rest)) == FindWord(MembersTo(members[n..], gap, rest))
    decreases members, 0
  {
    if n > 0 {
      var value := PrintTo(members[0].value, gap, MembersTail(members, gap, rest));
      assert members[0] in members;
      PassesString(members[0].key, [':'] + (gap + value));
      PassesGap(':', gap, value);
      PassesValue(members[0].value, gap, MembersTail(members, gap, rest));
      assert members[1..][n - 1..] == members[n..];
      if |members| > 1 {
        PassesGap(',', gap, MembersTo(members[1..], gap, rest));
        PassesMembers(members[1..], gap, rest, n - 1);
      }
    } else {
      assert members[n..] == members;
    }
  }

  // ---- the array behind the word -----------------------------------------------------------------------------------

  lemma {:induction false} BracketBehindRun(x: string, rest: string)
    requires forall c <- x :: c != '['
    ensures BehindBracket(x + rest) == BehindBracket(rest)
  {
    if x == "" {
      assert x + rest == rest;
    } else {
      assert x[0] in x && forall c <- x[1..] :: c in x;
      BracketBehindRun(x[1..], rest);
      assert x + rest == [x[0]] + (x[1..] + rest);
      assert (x + rest)[1..] == x[1..] + rest;
    }
  }

  lemma ArrayBehindWord(items: seq<Json>, gap: string, tail: string)
    requires AllSpace(gap)
    ensures var t := QuoteTo(WORD, [':'] + (gap + PrintTo(Arr(items), gap, tail)));
      FindWord(t) == Some(t) && BehindBracket(t) == Some(ItemsTo(items, gap, [']'] + tail))
  {
    var list := PrintTo(Arr(items), gap, tail);
    var after := [':'] + (gap + list);
    var t := QuoteTo(WORD, after);
    OnlyTheKeyLooksLikeIt(WORD, after, WORD);
    PlainPrintsAsItself(WORD, ['"'] + after);
    var x := "\"sessions\":" + gap;
    assert t == x + list;
    BracketBehindRun(x, list);
    assert list[1..] == ItemsTo(items, gap, [']'] + tail);
  }

  /** From a printed response with any text behind it, whose first member that mentions the word is the
      sessions array, the widget reads exactly the array's objects, in order, up to its limit. What may come
      first are members of any shape no string of which is the word or ends in a quote and the word. */
  lemma ReadsTheSessions(members: seq<Member>, gap: string, rest: string, i: nat, room: nat)
    requires AtomsOk(Obj(members)) && AllSpace(gap) && i < |members|
    requires forall k | 0 <= k < i :: Quiet(members[k].key) && AllQuiet(members[k].value)
    requires members[i].key == WORD && members[i].value.Arr? && forall o <- members[i].value.items :: o.Obj?
    ensures var objects := members[i].value.items;
      SessionObjects(Print(Obj(members), gap) + rest, room) == Some(PrintAll(objects, gap, Min(room, |objects|)))
  {
    var objects := members[i].value.items;
    var end := ['}'] + rest;
    PrintInFront(Obj(members), gap, "", rest);
    assert "" + rest == rest;
    Passes('{', MembersTo(members, gap, end));
    PassesMembers(members, gap, end, i);
    var tail := MembersTail(members[i..], gap, end);
    assert members[i..][0] == members[i] && AtomsOk(members[i].value);
    ArrayBehindWord(objects, gap, tail);
    SplitsSessionsArray(objects, gap, tail, room);
  }

  // ---- exactly when the widget reads from the array's own bracket --------------------------------------------------

  lemma {:induction false} WordIsLong(t: string)
    ensures FindWord(t).Some? ==> |t| >= |WORD| + 2
  {
    if t != "" && !WordHere(t) {
      WordIsLong(t[1..]);
    }
  }

  lemma SameWordHere(t: string, more: string)
    requires |t| >= |WORD| + 2
    ensures WordHere(t + more) <==> WordHere(t)
  {
    var u, v := t[1..], (t + more)[1..];
    assert v == u + more && v[..|WORD|] == u[..|WORD|] && v[|WORD|] == u[|WORD|];
  }

  lemma {:induction false} FoundInFront(front: string, more: string)
    requires FindWord(front).Some?
    ensures FindWord(front + more) == Some(FindWord(front).value + more)
  {
    WordIsLong(front);
    SameWordHere(front, more);
    if !WordHere(front) {
      FoundInFront(front[1..], more);
      assert (front + more)[1..] == front[1..] + more;
    }
  }

  lemma {:induction false} FoundBehind(front: string, more: string)
    requires FindWord(more).Some?
    ensures FindWord(front + more).Some?
  {
    if front == "" {
      assert front + more == more;
    } else {
      FoundBehind(front[1..], more);
      assert (front + more)[1..] == front[1..] + more;
    }
  }

  lemma {:induction false} FirstBracketIff(x: string, own: string)
    ensures BehindBracket(x + (['['] + own)) == Some(own) <==> '[' !in x
  {
    var t := x + (['['] + own);
    if x == "" {
      assert t == ['['] + own && t[1..] == own;
    } else {
      assert t[1..] == x[1..] + (['['] + own) && x == [x[0]] + x[1..];
      if x[0] == '[' {
        assert |t[1..]| > |own|;
      } else {
        FirstBracketIff(x[1..], own);
      }
    }
  }

  /** Behind a text that holds the word, the widget reads from a bracket if and only if no other bracket stands
      between the word's first occurrence and it. */
  lemma OwnBracketIff(front: string, own: string)
    requires FindWord(front).Some?
    ensures ArrayText(front + (['['] + own)) == Some(own) <==> '[' !in FindWord(front).value
  {
    FoundInFront(front, ['['] + own);
    FirstBracketIff(FindWord(front).value, own);
  }

  lemma QuoteInFront(s: string, a: string, b: string)
    ensures QuoteTo(s, a + b) == QuoteTo(s, a) + b
  {
    EscapeInFront(s, ['"'] + a, b);
    assert ['"'] + (a + b) == ['"'] + a + b;
  }

  /** One member and the text up to the next one. */
  function FirstPart(m: Member, gap: string): string {
    QuoteTo(m.key, [':'] + (gap + PrintTo(m.value, gap, [','] + gap)))
  }

  /** What is printed in front of the i-th member's value. */
  function InFrontOf(members: seq<Member>, gap: string, i: nat): string
    requires i < |members|
  {
    if i == 0 then QuoteTo(members[0].key, [':'] + gap)
    else FirstPart(members[0], gap) + InFrontOf(members[1..], gap, i - 1)
  }

  lemma FirstMemberParts(members: seq<Member>, gap: string, rest: string)
    requires members != []
    ensures MembersTo(members, gap, rest)
            == QuoteTo(members[0].key, [':'] + gap) + PrintTo(members[0].value, gap, MembersTail(members, gap, rest))
  {
    var value := PrintTo(members[0].value, gap, MembersTail(members, gap, rest));
    Regroup([':'], gap, value);
    QuoteInFront(members[0].key, [':'] + gap, value);
  }

  lemma NextMembers(members: seq<Member>, gap: string, rest: string)
    requires |members| > 1
    ensures MembersTo(members, gap, rest) == FirstPart(members[0], gap) + MembersTo(members[1..], gap, rest)
  {
    FirstPartInFront(members[0], gap, MembersTo(members[1..], gap, rest));
  }

  lemma FirstPartInFront(m: Member, gap: string, others: string)
    ensures QuoteTo(m.key, [':'] + (gap + PrintTo(m.value, gap, [','] + (gap + others)))) == FirstPart(m, gap) + others
  {
    var a := PrintTo(m.value, gap, [','] + gap);
    Regroup([','], gap, others);
    PrintInFront(m.value, gap, [','] + gap, others);
    Regroup(gap, a, others);
    Regroup([':'], gap + a, others);
    QuoteInFront(m.key, [':'] + (gap + a), others);
  }

  lemma {:induction false} PrintedParts(members: seq<Member>, gap: string, rest: string, i: nat)
    requires i < |members|
    ensures MembersTo(members, gap, rest)
            == InFrontOf(members, gap, i) + PrintTo(members[i].value, gap, MembersTail(members[i..], gap, rest))
    decreases i
  {
    if i == 0 {
      assert members[0..] == members;
      FirstMemberParts(members, gap, rest);
    } else {
      var others := members[1..];
      NextMembers(members, gap, rest);
      PrintedParts(others, gap, rest, i - 1);
      LaterMember(members, i);
      var value := PrintTo(members[i].value, gap, MembersTail(members[i..], gap, rest));
      Regroup(FirstPart(members[0], gap), InFrontOf(others, gap, i - 1), value);
    }
  }

  lemma LaterMember(members: seq<Member>, i: nat)
    requires 0 < i < |members|
    ensures members[1..][i - 1..] == members[i..] && members[1..][i - 1] == members[i]
  {
  }

  lemma {:induction false} NamesTheWord(members: seq<Member>, gap: string, i: nat)
    requires i < |members| && members[i].key == WORD
    ensures FindWord(InFrontOf(members, gap, i)).Some?
    decreases i
  {
    if i == 0 {
      OnlyTheKeyLooksLikeIt(WORD, [':'] + gap, WORD);
    } else {
      NamesTheWord(members[1..], gap, i - 1);
      FoundBehind(FirstPart(members[0], gap), InFrontOf(members[1..], gap, i - 1));
    }
  }

  /** The printed response up to the i-th member's value, which is an array, and from behind its bracket on. */
  lemma ResponseParts(members: seq<Member>, gap: string, rest: string, i: nat)
    requires i < |members| && members[i].value.Arr?
    ensures Print(Obj(members), gap) + rest == ['{'] + InFrontOf(members, gap, i)
              + (['['] + ItemsTo(members[i].value.items, gap, [']'] + MembersTail(members[i..], gap, ['}'] + rest)))
  {
    PrintInFront(Obj(members), gap, "", rest);
    assert "" + rest == rest;
    PrintedParts(members, gap, ['}'] + rest, i);
    Regroup(['{'], InFrontOf(members, gap, i),
      PrintTo(members[i].value, gap, MembersTail(members[i..], gap, ['}'] + rest)));
  }

  /** From a printed response the widget reads from the bracket of a member `sessions` if and only if no bracket
      stands between the first quoted mention of the word, in whatever string, and that one; and then exactly
      the array's objects, in order, up to its limit. */
  lemma ReadsTheSessionsIff(members: seq<Member>, gap: string, rest: string, i: nat, room: nat)
    requires AtomsOk(Obj(members)) && AllSpace(gap) && i < |members|
    requires members[i].key == WORD && members[i].value.Arr? && forall o <- members[i].value.items :: o.Obj?
    ensures var objects, text := members[i].value.items, Print(Obj(members), gap) + rest;
      var tail := MembersTail(members[i..], gap, ['}'] + rest);
      var mention := FindWord(['{'] + InFrontOf(members, gap, i));
      && mention.Some?
      && (ArrayText(text) == Some(ItemsTo(objects, gap, [']'] + tail)) <==> '[' !in mention.value)
      && ('[' !in mention.value ==> SessionObjects(text, room) == Some(PrintAll(objects, gap, Min(room, |objects|))))
  {
    var front, tail := ['{'] + InFrontOf(members, gap, i), MembersTail(members[i..], gap, ['}'] + rest);
    ResponseParts(members, gap, rest, i);
    NamesTheWord(members, gap, i);
    FoundBehind(['{'], InFrontOf(members, gap, i));
    OwnBracketIff(front, ItemsTo(members[i].value.items, gap, [']'] + tail));
    assert AtomsOk(members[i].value);
    SplitsSessionsArray(members[i].value.items, gap, tail, room);
  }

  /** A response that mentions the word in front of another array: all sessions are lost. */
  function Mentioning(objects: seq<Json>): seq<Member> {
    [Member("note", Str(WORD)), Member("tags", Arr([])), Member(WORD, Arr(objects))]
  }

  lemma MentionLosesTheSessions(objects: seq<Json>, gap: string, rest: string, room: nat)
    requires AllSpace(gap)
    ensures SessionObjects(Print(Obj(Mentioning(objects)), gap) + rest, room) == Some([])
  {
    var members := Mentioning(objects);
    var front, tail := ['{'] + InFrontOf(members, gap, 1), MembersTail(members[1..], gap, ['}'] + rest);
    ResponseParts(members, gap, rest, 1);
    MentionIsFound(objects, gap);
    OwnBracketIff(front, ItemsTo([], gap, [']'] + tail));
    SplitsSessionsArray([], gap, tail, room);
  }

  lemma PassesNote(gap: string, t: string)
    requires AllSpace(gap)
    ensures FindWord(['{'] + QuoteTo("note", [':'] + (gap + t))) == FindWord(t)
  {
    Passes('{', QuoteTo("note", [':'] + (gap + t)));
    PassesString("note", [':'] + (gap + t));
    PassesGap(':', gap, t);
  }

  lemma NoteInFront(objects: seq<Json>, gap: string)
    ensures InFrontOf(Mentioning(objects), gap, 1)
            == QuoteTo("note", [':'] + (gap + (QuoteTo(WORD, [','] + gap) + QuoteTo("tags", [':'] + gap))))
  {
    var members, word, next := Mentioning(objects), QuoteTo(WORD, [','] + gap), QuoteTo("tags", [':'] + gap);
    assert InFrontOf(members[1..], gap, 0) == next;
    Regroup(gap, word, next);
    Regroup([':'], gap + word, next);
    QuoteInFront("note", [':'] + (gap + word), next);
  }

  lemma MentionIsFound(objects: seq<Json>, gap: string)
    requires AllSpace(gap)
    ensures var found := FindWord(['{'] + InFrontOf(Mentioning(objects), gap, 1));
      found.Some? && '[' !in found.value
  {
    var word, next := QuoteTo(WORD, [','] + gap), QuoteTo("tags", [':'] + gap);
    NoteInFront(objects, gap);
    PassesNote(gap, word + next);
    OnlyTheKeyLooksLikeIt(WORD, [','] + gap, WORD);
    FoundInFront(word, next);
    NoBrackets(WORD, [','] + gap);
    NoBrackets("tags", [':'] + gap);
  }

  lemma NoBrackets(s: string, rest: string)
    requires Plain(s) && '[' !in s && '[' !in rest
    ensures '[' !in QuoteTo(s, rest)
  {
    PlainPrintsAsItself(s, ['"'] + rest);
    assert QuoteTo(s, rest) == ['"'] + (s + (['"'] + rest));
  }
}
