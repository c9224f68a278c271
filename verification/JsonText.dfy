/** JSON values and their printed form, as the monitor's server emits it (RFC 8259, section 7, for
    strings). */
module JsonText {
  /** Numbers and the three literals are atoms: nonempty text without structural characters. */
  datatype Json = Atom(text: string) | Str(text: string) | Arr(items: seq<Json>) | Obj(members: seq<Member>)

  datatype Member = Member(key: string, value: Json)

  predicate IsSpace(c: char) { c == ' ' || '\t' <= c <= '\r' }

  predicate AtomChar(c: char) { c !in {'"', '{', '}', '[', ']', ',', ':'} && !IsSpace(c) }

  ghost predicate AtomsOk(v: Json)
    decreases v
  {
    match v
    case Atom(text) => text != "" && forall c <- text :: AtomChar(c)
    case Str(_) => true
    case Arr(items) => forall i | 0 <= i < |items| :: AtomsOk(items[i])
    case Obj(members) => forall i | 0 <= i < |members| :: AtomsOk(members[i].value)
  }

  ghost predicate AllSpace(gap: string) { forall c <- gap :: IsSpace(c) }

  function HexDigit(n: nat): char requires n < 16 { "0123456789abcdef"[n] }

  function EscapeChar(c: char): string {
    if c == '"' then "\\\""
    else if c == '\\' then "\\\\"
    else if c == '\n' then "\\n"
    else if c == '\r' then "\\r"
    else if c == '\t' then "\\t"
    else if c == 8 as char then "\\b"
    else if c == 12 as char then "\\f"
    else if c < ' ' then "\\u00" + [HexDigit(c as nat / 16), HexDigit(c as nat % 16)]
    else [c]
  }

  /** The escaped string followed by `rest`. */
  function EscapeTo(s: string, rest: string): string {
    if s == "" then rest else EscapeChar(s[0]) + EscapeTo(s[1..], rest)
  }

  function QuoteTo(s: string, rest: string): string { ['"'] + EscapeTo(s, ['"'] + rest) }

  /** The printed value followed by `rest`; `gap` is the white space behind each comma and colon. */
  function PrintTo(v: Json, gap: string, rest: string): string
    decreases v, 1
  {
    match v
    case Atom(text) => text + rest
    case Str(text) => QuoteTo(text, rest)
    case Arr(items) => ['['] + ItemsTo(items, gap, [']'] + rest)
    case Obj(members) => ['{'] + MembersTo(members, gap, ['}'] + rest)
  }

  function ItemsTo(items: seq<Json>, gap: string, rest: string): string
    decreases items, 0
  {
    if items == [] then rest
    else PrintTo(items[0], gap, if |items| == 1 then rest else [','] + (gap + ItemsTo(items[1..], gap, rest)))
  }

  function MembersTo(members: seq<Member>, gap: string, rest: string): string
    decreases members, 0
  {
    if members == [] then rest
    else
      assert members[0] in members;
      QuoteTo(members[0].key, [':'] + (gap + PrintTo(members[0].value, gap, MembersTail(members, gap, rest))))
  }

  /** What follows the first member's value. */
  function MembersTail(members: seq<Member>, gap: string, rest: string): string
    requires members != []
    decreases members[1..], 1
  {
    if |members| == 1 then rest else [','] + (gap + MembersTo(members[1..], gap, rest))
  }

  function Print(v: Json, gap: string): string { PrintTo(v, gap, "") }

  // ---- printing in front of a text is printing and then the text ---------------------------------------

  lemma {:induction false} EscapeInFront(s: string, a: string, b: string)
    ensures EscapeTo(s, a + b) == EscapeTo(s, a) + b
  {
    if s != "" {
      EscapeInFront(s[1..], a, b);
    }
  }

  lemma {:induction false} PrintInFront(v: Json, gap: string, a: string, b: string)
    ensures PrintTo(v, gap, a + b) == PrintTo(v, gap, a) + b
    decreases v, 1
  {
    match v
    case Atom(text) =>
    case Str(text) =>
      EscapeInFront(text, ['"'] + a, b);
      assert ['"'] + (a + b) == ['"'] + a + b;
    case Arr(items) =>
      ItemsInFront(items, gap, [']'] + a, b);
      assert [']'] + (a + b) == [']'] + a + b;
    case Obj(members) =>
      MembersInFront(members, gap, ['}'] + a, b);
      assert ['}'] + (a + b) == ['}'] + a + b;
  }

  lemma {:induction false} ItemsInFront(items: seq<Json>, gap: string, a: string, b: string)
    ensures ItemsTo(items, gap, a + b) == ItemsTo(items, gap, a) + b
    decreases items, 0
  {
    if |items| == 1 {
      PrintInFront(items[0], gap, a, b);
    } else if items != [] {
      ItemsInFront(items[1..], gap, a, b);
      var tail := [','] + (gap + ItemsTo(items[1..], gap, a));
      assert [','] + (gap + ItemsTo(items[1..], gap, a + b)) == tail + b;
      PrintInFront(items[0], gap, tail, b);
    }
  }

  lemma {:induction false} MembersInFront(members: seq<Member>, gap: string, a: string, b: string)
    ensures MembersTo(members, gap, a + b) == MembersTo(members, gap, a) + b
    decreases members, 0
  {
    if members != [] {
      var m, tail := members[0], MembersTail(members, gap, a);
      if |members| > 1 {
        MembersInFront(members[1..], gap, a, b);
        assert [','] + (gap + MembersTo(members[1..], gap, a + b)) == tail + b;
      }
      assert m in members;
      PrintInFront(m.value, gap, tail, b);
      var value := [':'] + (gap + PrintTo(m.value, gap, tail));
      assert [':'] + (gap + PrintTo(m.value, gap, tail + b)) == value + b;
      EscapeInFront(m.key, ['"'] + value, b);
      assert ['"'] + (value + b) == ['"'] + value + b;
    }
  }
}
