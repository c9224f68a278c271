/** Giving neighbouring servers contrasting colours, with in-place compaction and repair
    (windows/CodexMonitorWidget/src/main.c, `choose_server_color_index`, `sync_server_colors`). */
module ServerColors {
  import opened Sequences

  const MAX_SESSIONS := 128
  const COLOR_COUNT := 5
  const MIN_DISTANCE_SQUARED := 240 * 240

  datatype Rgb = Rgb(red: int, green: int, blue: int)

  function Color(i: int): Rgb
    requires 0 <= i < COLOR_COUNT
  {
    if i == 0 then Rgb(247, 247, 242)
    else if i == 1 then Rgb(240, 58, 200)
    else if i == 2 then Rgb(0, 216, 200)
    else if i == 3 then Rgb(200, 50, 255)
    else Rgb(230, 150, 255)
  }

  predicate InRange(i: int) { 0 <= i < COLOR_COUNT }

  function DistanceSquared(a: Rgb, b: Rgb): int {
    var r, g, b' := a.red - b.red, a.green - b.green, a.blue - b.blue;
    r * r + g * g + b' * b'
  }

  predicate HighContrast(left: int, right: int) {
    InRange(left) && InRange(right) && DistanceSquared(Color(left), Color(right)) >= MIN_DISTANCE_SQUARED
  }

  /** Of the five colours only one contrasts with the others, and it with all of them. */
  lemma ContrastTable(i: int, j: int)
    requires InRange(i) && InRange(j)
    ensures HighContrast(i, j) <==> (i == 2) != (j == 2)
  {
  }

  datatype Assignment = Assignment(key: string, color: int)

  // ---- choosing one colour -----------------------------------------------------------------------------

  predicate FitsPrevious(previous: int, c: int) { previous < 0 || HighContrast(previous, c) }

  /** Some colour that fits the previous one is unused. */
  predicate HasUnused(previous: int, used: seq<int>)
    requires |used| == COLOR_COUNT
  {
    exists c | 0 <= c < COLOR_COUNT :: FitsPrevious(previous, c) && used[c] == 0
  }

  predicate Preferred(previous: int, used: seq<int>, c: int)
    requires |used| == COLOR_COUNT && InRange(c)
  {
    FitsPrevious(previous, c) && (HasUnused(previous, used) ==> used[c] == 0)
  }

  /** The colour fits the previous one; among those it is unused if one is; and among those it
      contrasts with the next one if one does. */
  ghost predicate Choice(previous: int, next: int, used: seq<int>, chosen: int)
    requires |used| == COLOR_COUNT
  {
    && InRange(chosen) && Preferred(previous, used, chosen)
    && ((exists c | 0 <= c < COLOR_COUNT :: Preferred(previous, used, c) && HighContrast(c, next)) ==>
      HighContrast(chosen, next))
  }

  method ChooseServerColorIndex(previousColor: int, nextColor: int, used: seq<int>, roll: nat) returns (chosen: int)
    requires |used| == COLOR_COUNT && (previousColor < 0 || InRange(previousColor))
    ensures Choice(previousColor, nextColor, used, chosen)
  {
    var preferUnused, preferNextContrast := false, false;
    for color := 0 to COLOR_COUNT
      invariant preferUnused <==> exists c | 0 <= c < color :: FitsPrevious(previousColor, c) && used[c] == 0
    {
      if FitsPrevious(previousColor, color) && used[color] == 0 {
        preferUnused := true;
      }
    }
    assert preferUnused == HasUnused(previousColor, used);
    if nextColor >= 0 {
      for color := 0 to COLOR_COUNT
        invariant preferNextContrast <==>
          exists c | 0 <= c < color :: Preferred(previousColor, used, c) && HighContrast(c, nextColor)
      {
        if FitsPrevious(previousColor, color) && (!preferUnused || used[color] == 0) && HighContrast(color, nextColor) {
          preferNextContrast := true;
        }
      }
    }
    var candidates: seq<int> := [];
    for color := 0 to COLOR_COUNT
      invariant forall c :: c in candidates <==>
        (0 <= c < color && Preferred(previousColor, used, c) && (preferNextContrast ==> HighContrast(c, nextColor)))
    {
      if !FitsPrevious(previousColor, color) || (preferUnused && used[color] != 0)
        || (preferNextContrast && !HighContrast(color, nextColor))
      {
        continue;
      }
      candidates := candidates + [color];
    }
    var pool := if |candidates| > 0 then candidates else [0, 1, 2, 3, 4];
    chosen := pool[roll % |pool|];
    SomeCandidate(previousColor, used);
    assert candidates != [] && chosen in candidates;
  }

  lemma SomeCandidate(previous: int, used: seq<int>)
    requires |used| == COLOR_COUNT && (previous < 0 || InRange(previous))
    ensures exists c | 0 <= c < COLOR_COUNT :: Preferred(previous, used, c)
  {
    if previous >= 0 {
      var c := if previous == 2 then 0 else 2;
      ContrastTable(previous, c);
      if !HasUnused(previous, used) {
        assert Preferred(previous, used, c);
      }
    } else if !HasUnused(previous, used) {
      assert Preferred(previous, used, 0);
    }
    if HasUnused(previous, used) {
      var d :| 0 <= d < COLOR_COUNT && FitsPrevious(previous, d) && used[d] == 0;
      assert Preferred(previous, used, d);
    }
  }

  // ---- the table of assignments ----------------------------------------------------------------------------

  function KeyOf(a: Assignment): string { a.key }

  /** `find_server_color_assignment_index`, or the length when the server has none. */
  function IndexOf(table: seq<Assignment>, key: string): (i: nat)
    ensures i <= |table|
    ensures i < |table| ==> table[i].key == key
    ensures forall j | 0 <= j < i :: table[j].key != key
  {
    if table == [] || table[0].key == key then 0 else 1 + IndexOf(table[1..], key)
  }

  /** `find_server_color_index` */
  function ColorOf(table: seq<Assignment>, key: string): int {
    var i := IndexOf(table, key);
    if i < |table| then table[i].color else -1
  }

  function Uses(table: seq<Assignment>, color: int): nat {
    if table == [] then 0 else Uses(Front(table), color) + if Last(table).color == color then 1 else 0
  }

  /** `used` counts the assignments of each colour. */
  ghost predicate Counts(used: seq<int>, table: seq<Assignment>) {
    |used| == COLOR_COUNT && forall c | 0 <= c < COLOR_COUNT :: used[c] == Uses(table, c)
  }

  lemma {:induction false} UsesAfterChange(table: seq<Assignment>, i: nat, a: Assignment, c: int)
    requires i < |table|
    ensures Uses(table[i := a], c)
        == Uses(table, c) - (if table[i].color == c then 1 else 0) + (if a.color == c then 1 else 0)
  {
    var after := table[i := a];
    if i == |table| - 1 {
      assert Front(after) == Front(table);
    } else {
      assert Front(after) == Front(table)[i := a] && Last(after) == Last(table);
      UsesAfterChange(Front(table), i, a, c);
    }
  }

  /** Recolouring one assignment changes no other server's colour. */
  lemma ColorOfAfterChange(table: seq<Assignment>, i: nat, color: int, key: string)
    requires i < |table| && Distinct(table, KeyOf)
    ensures var after := table[i := table[i].(color := color)];
      Distinct(after, KeyOf) && ColorOf(after, key) == if key == table[i].key then color else ColorOf(table, key)
  {
    var after := table[i := table[i].(color := color)];
    assert forall j | 0 <= j < |table| :: KeyOf(after[j]) == KeyOf(table[j]);
    SameIndex(after, table, key);
    if IndexOf(table, key) < |table| && IndexOf(table, key) != i {
      assert KeyOf(table[IndexOf(table, key)]) != KeyOf(table[i]);
    }
  }

  lemma SameIndex(a: seq<Assignment>, b: seq<Assignment>, key: string)
    requires |a| == |b| && forall j | 0 <= j < |a| :: a[j].key == b[j].key
    ensures IndexOf(a, key) == IndexOf(b, key)
  {
    var i, j := IndexOf(a, key), IndexOf(b, key);
    assert i < |b| ==> b[i].key == key;
    assert j < |a| ==> a[j].key == key;
  }

  lemma IndexIs(table: seq<Assignment>, key: string, i: nat)
    requires i <= |table| && (forall j | 0 <= j < i :: table[j].key != key) && (i < |table| ==> table[i].key == key)
    ensures IndexOf(table, key) == i
  {
  }

  lemma DistinctAfterAppend(table: seq<Assignment>, a: Assignment)
    requires Distinct(table, KeyOf) && IndexOf(table, a.key) == |table|
    ensures Distinct(table + [a], KeyOf)
  {
    assert forall j | 0 <= j < |table| :: KeyOf(table[j]) != KeyOf(a);
  }

  lemma ColorOfAfterAppend(table: seq<Assignment>, a: Assignment, key: string)
    requires IndexOf(table, a.key) == |table|
    ensures ColorOf(table + [a], key) == if key == a.key then a.color else ColorOf(table, key)
    ensures IndexOf(table + [a], a.key) == |table|
  {
    IndexIs(table + [a], a.key, |table|);
    if key != a.key {
      var i := IndexOf(table, key);
      IndexIs(table + [a], key, if i < |table| then i else |table| + 1);
    }
  }

  // ---- rows and their servers --------------------------------------------------------------------------------

  /** `collect_ordered_server_keys`: the rows' servers in order, a run of rows counted once. */
  function OrderedKeys(rows: seq<string>): seq<string> {
    if rows == [] then []
    else if |rows| > 1 && Last(Front(rows)) == Last(rows) then OrderedKeys(Front(rows))
    else OrderedKeys(Front(rows)) + [Last(rows)]
  }

  function Same(k: string): string { k }

  ghost predicate NoNeighbourRepeats(keys: seq<string>) { forall i | 0 < i < |keys| :: keys[i - 1] != keys[i] }

  lemma {:induction false} NeighboursDiffer(rows: seq<string>)
    ensures NoNeighbourRepeats(OrderedKeys(rows))
    ensures rows != [] ==> OrderedKeys(rows) != [] && Last(OrderedKeys(rows)) == Last(rows)
  {
    if rows != [] {
      NeighboursDiffer(Front(rows));
    }
  }

  lemma {:induction false} OrderedKeysAreRows(rows: seq<string>)
    ensures forall k :: k in OrderedKeys(rows) <==> k in rows
    ensures |OrderedKeys(rows)| <= |rows|
  {
    if rows != [] {
      OrderedKeysAreRows(Front(rows));
      assert rows == Front(rows) + [Last(rows)];
      assert |rows| > 1 ==> Last(Front(rows)) in Front(rows);
    }
  }

  /** Neighbouring servers up to the n-th have contrasting colours. */
  ghost predicate Contrasting(table: seq<Assignment>, keys: seq<string>, n: nat)
    requires n <= |keys|
  {
    && (forall i | 0 <= i < n :: InRange(ColorOf(table, keys[i])))
    && (forall i | 1 <= i < n :: HighContrast(ColorOf(table, keys[i - 1]), ColorOf(table, keys[i])))
  }

  /** Nothing is left to do: only servers with rows are in the table, and neighbours contrast. */
  ghost predicate Settled(table: seq<Assignment>, rows: seq<string>) {
    (forall a <- table :: a.key in rows) && Contrasting(table, OrderedKeys(rows), |OrderedKeys(rows)|)
  }

  /** The colour of the first server from position `from` on that has one in range. */
  function NextColorOf(table: seq<Assignment>, keys: seq<string>, from: nat): int
    requires from <= |keys|
    decreases |keys| - from
  {
    if from == |keys| then -1
    else if InRange(ColorOf(table, keys[from])) then ColorOf(table, keys[from])
    else NextColorOf(table, keys, from + 1)
  }

  method NextColor(table: seq<Assignment>, keys: seq<string>, from: nat) returns (nextColor: int)
    requires from <= |keys|
    ensures if InRange(NextColorOf(table, keys, from)) then nextColor == NextColorOf(table, keys, from)
      else !InRange(nextColor)
  {
    nextColor := -1;
    var i := from;
    while i < |keys|
      invariant from <= i <= |keys| && !InRange(nextColor)
      invariant NextColorOf(table, keys, i) == NextColorOf(table, keys, from)
    {
      nextColor := ColorOf(table, keys[i]);
      if InRange(nextColor) {
        break;
      }
      i := i + 1;
    }
  }

  lemma {:induction false} SameNextColor(a: seq<Assignment>, b: seq<Assignment>, keys: seq<string>, from: nat)
    requires from <= |keys| && forall k :: ColorOf(a, k) == ColorOf(b, k)
    ensures NextColorOf(a, keys, from) == NextColorOf(b, keys, from)
    decreases |keys| - from
  {
    if from < |keys| {
      SameNextColor(a, b, keys, from + 1);
    }
  }

  lemma SameChoice(previous: int, next: int, other: int, used: seq<int>, chosen: int)
    requires |used| == COLOR_COUNT && Choice(previous, next, used, chosen)
    requires if InRange(other) then next == other else !InRange(next)
    ensures Choice(previous, other, used, chosen)
  {
  }

  lemma AppendUncoloured(table: seq<Assignment>, key: string)
    requires Distinct(table, KeyOf) && IndexOf(table, key) == |table|
    ensures var after := table + [Assignment(key, -1)];
      && Distinct(after, KeyOf) && IndexOf(after, key) == |table|
      && (forall k :: ColorOf(after, k) == ColorOf(table, k))
      && (forall c :: InRange(c) ==> Uses(after, c) == Uses(table, c))
  {
    var a := Assignment(key, -1);
    forall k ensures ColorOf(table + [a], k) == if k == key then -1 else ColorOf(table, k) {
      ColorOfAfterAppend(table, a, k);
    }
    ColorOfAfterAppend(table, a, key);
    DistinctAfterAppend(table, a);
    assert Front(table + [a]) == table;
  }

  /** The counts without one use of the colour. */
  function Freed(used: seq<int>, color: int): (r: seq<int>)
    requires |used| == COLOR_COUNT
    ensures |r| == COLOR_COUNT
  {
    if InRange(color) then used[color := used[color] - 1] else used
  }

  lemma RepairCounts(before: seq<Assignment>, at: nat, chosen: int, used: seq<int>)
    requires at < |before| && InRange(chosen) && Counts(used, before)
    ensures var without := Freed(used, before[at].color);
      Counts(without[chosen := without[chosen] + 1], before[at := before[at].(color := chosen)])
  {
    forall c | InRange(c) ensures Uses(before[at := before[at].(color := chosen)], c)
      == Uses(before, c) - (if before[at].color == c then 1 else 0) + (if chosen == c then 1 else 0)
    {
      UsesAfterChange(before, at, before[at].(color := chosen), c);
    }
  }

  function PreviousColor(table: seq<Assignment>, keys: seq<string>, i: nat): int
    requires i <= |keys|
  {
    if i == 0 then -1 else ColorOf(table, keys[i - 1])
  }

  /** No server's rows come back at an odd distance in the order of servers; in particular when each
      server's rows form one block. */
  ghost predicate Alternating(keys: seq<string>) {
    forall i, j | 0 <= i < j < |keys| :: keys[i] == keys[j] ==> (j - i) % 2 == 0
  }

  predicate IsHub(color: int) { color == 2 }

  /** Along contrasting servers every second one has the one colour all others contrast with. */
  lemma {:induction false} HubAlternates(table: seq<Assignment>, keys: seq<string>, n: nat, i: nat, j: nat)
    requires i <= j < n <= |keys| && Contrasting(table, keys, n)
    ensures (IsHub(ColorOf(table, keys[i])) == IsHub(ColorOf(table, keys[j]))) <==> (j - i) % 2 == 0
    decreases j
  {
    if i < j {
      HubAlternates(table, keys, n, i, j - 1);
      ContrastTable(ColorOf(table, keys[j - 1]), ColorOf(table, keys[j]));
    }
  }

  /** A server that returns at an even distance already contrasts with its new predecessor. */
  lemma ReturningServerFits(table: seq<Assignment>, keys: seq<string>, i: nat)
    requires i < |keys| && Alternating(keys) && Contrasting(table, keys, i) && keys[i] in keys[..i]
    ensures InRange(ColorOf(table, keys[i])) && HighContrast(ColorOf(table, keys[i - 1]), ColorOf(table, keys[i]))
  {
    var j :| 0 <= j < i && keys[j] == keys[i];
    HubAlternates(table, keys, i, j, i - 1);
    ContrastTable(ColorOf(table, keys[i - 1]), ColorOf(table, keys[i]));
  }

  /** When a server returns at an odd distance, no assignment of colours makes all neighbours contrast. */
  lemma OddReturnCannotSettle(table: seq<Assignment>, keys: seq<string>)
    requires !Alternating(keys)
    ensures !Contrasting(table, keys, |keys|)
  {
    var i, j :| 0 <= i < j < |keys| && keys[i] == keys[j] && (j - i) % 2 != 0;
    if Contrasting(table, keys, |keys|) {
      HubAlternates(table, keys, |keys|, i, j);
    }
  }

  /** The colour a server had already suits its predecessor. */
  predicate Suits(previousColor: int, color: int) {
    InRange(color) && FitsPrevious(previousColor, color)
  }

  ghost predicate OneBlockPerServer(rows: seq<string>) {
    forall i, j, k | 0 <= i < j < k < |rows| && rows[i] == rows[k] :: rows[j] == rows[i]
  }

  lemma {:induction false} BlocksAreDistinct(rows: seq<string>)
    requires OneBlockPerServer(rows)
    ensures Distinct(OrderedKeys(rows), Same)
  {
    if rows != [] {
      BlocksAreDistinct(Front(rows));
      OrderedKeysAreRows(Front(rows));
      if |rows| > 1 && Last(Front(rows)) != Last(rows) {
        assert forall i | 0 <= i < |rows| - 1 :: rows[i] != rows[|rows| - 1];
        var keys := OrderedKeys(Front(rows));
        assert OrderedKeys(rows) == keys + [Last(rows)];
        forall i | 0 <= i < |keys| ensures Same(keys[i]) != Same(Last(rows)) {
          assert keys[i] in keys;
        }
      }
    }
  }

  lemma BlocksAlternate(rows: seq<string>)
    requires OneBlockPerServer(rows)
    ensures Alternating(OrderedKeys(rows))
  {
    BlocksAreDistinct(rows);
    var keys := OrderedKeys(rows);
    assert forall i, j | 0 <= i < j < |keys| :: Same(keys[i]) != Same(keys[j]);
  }

  /** One repair, as a relation between the tables before and after. */
  ghost predicate Repaired(table: seq<Assignment>, after: seq<Assignment>, key: string, previousColor: int) {
    && Suits(previousColor, ColorOf(after, key))
    && (forall k :: k != key ==> ColorOf(after, k) == ColorOf(table, k))
    && (Suits(previousColor, ColorOf(table, key)) ==> after == table)
  }

  lemma OthersKeepTheirs(table: seq<Assignment>, after: seq<Assignment>, keys: seq<string>, i: nat)
    requires i < |keys| && Alternating(keys) && Contrasting(table, keys, i)
    requires Repaired(table, after, keys[i], PreviousColor(table, keys, i))
    ensures forall j | 0 <= j < i :: ColorOf(after, keys[j]) == ColorOf(table, keys[j])
  {
    if keys[i] in keys[..i] {
      ReturningServerFits(table, keys, i);
    } else {
      forall j | 0 <= j < i ensures keys[j] != keys[i] {
        assert keys[j] in keys[..i];
      }
    }
  }

  /** A repair extends the contrasting prefix. */
  lemma RepairExtends(table: seq<Assignment>, after: seq<Assignment>, keys: seq<string>, i: nat)
    requires i < |keys| && Alternating(keys) && Contrasting(table, keys, i)
    requires Repaired(table, after, keys[i], PreviousColor(table, keys, i))
    ensures Contrasting(after, keys, i + 1)
    ensures forall j | 0 <= j < i :: ColorOf(after, keys[j]) == ColorOf(table, keys[j])
  {
    OthersKeepTheirs(table, after, keys, i);
    ExtendsByOne(table, after, keys, i);
  }

  lemma ExtendsByOne(table: seq<Assignment>, after: seq<Assignment>, keys: seq<string>, i: nat)
    requires i < |keys| && Contrasting(table, keys, i)
    requires forall j | 0 <= j < i :: ColorOf(after, keys[j]) == ColorOf(table, keys[j])
    requires Suits(PreviousColor(table, keys, i), ColorOf(after, keys[i]))
    ensures Contrasting(after, keys, i + 1)
  {
    forall j | 1 <= j < i ensures HighContrast(ColorOf(after, keys[j - 1]), ColorOf(after, keys[j])) {
      assert HighContrast(ColorOf(table, keys[j - 1]), ColorOf(table, keys[j]));
    }
  }

  /** Where a repair paints. */
  lemma Painted(before: seq<Assignment>, at: nat, chosen: int, key: string)
    requires Distinct(before, KeyOf) && at == IndexOf(before, key) && at < |before|
    ensures var after := before[at := before[at].(color := chosen)];
      Distinct(after, KeyOf) && ColorOf(after, key) == chosen
      && forall k :: k != key ==> ColorOf(after, k) == ColorOf(before, k)
  {
    forall k
      ensures ColorOf(before[at := before[at].(color := chosen)], k) == if k == key then chosen else ColorOf(before, k)
    {
      ColorOfAfterChange(before, at, chosen, k);
    }
    ColorOfAfterChange(before, at, chosen, key);
  }

  // ---- the table in place --------------------------------------------------------------------------------------

  function Keys(table: seq<Assignment>): set<string> {
    set a | a in table :: a.key
  }

  lemma KeysAfterChange(table: seq<Assignment>, at: nat, color: int)
    requires at < |table|
    ensures Keys(table[at := table[at].(color := color)]) == Keys(table)
  {
    var after := table[at := table[at].(color := color)];
    forall a <- table ensures a.key in Keys(after) {
      var i :| 0 <= i < |table| && table[i] == a;
      assert after[i] in after && after[i].key == a.key;
    }
    forall a <- after ensures a.key in Keys(table) {
      var i :| 0 <= i < |after| && after[i] == a;
      assert table[i] in table && table[i].key == a.key;
    }
  }

  function HasRow(rows: seq<string>): Assignment -> bool {
    (a: Assignment) => a.key in rows
  }

  predicate FirstSeen(keys: seq<string>, j: nat)
    requires j < |keys|
  {
    keys[j] !in keys[..j]
  }

  /** Server j's colour at the start suits the colour its predecessor has in the table, and it keeps it. */
  predicate Kept(start: seq<Assignment>, table: seq<Assignment>, keys: seq<string>, j: nat)
    requires j < |keys|
  {
    Suits(PreviousColor(table, keys, j), ColorOf(start, keys[j])) ==> ColorOf(table, keys[j]) == ColorOf(start, keys[j])
  }

  /** Servers up to the n-th keep their colour wherever it suits the colour their predecessor ended with. */
  ghost predicate KeepsColors(start: seq<Assignment>, table: seq<Assignment>, keys: seq<string>, n: nat)
    requires n <= |keys|
  {
    forall j | 0 <= j < n && FirstSeen(keys, j) :: Kept(start, table, keys, j)
  }

  ghost predicate Progress(start: seq<Assignment>, table: seq<Assignment>, keys: seq<string>, n: nat)
    requires n <= |keys|
  {
    && Contrasting(table, keys, n)
    && KeepsColors(start, table, keys, n)
    && (forall k :: k !in keys[..n] ==> ColorOf(table, k) == ColorOf(start, k))
    && (Contrasting(start, keys, n) ==> table == start)
  }

  lemma KeepsColorsStep(
      start: seq<Assignment>, table: seq<Assignment>, after: seq<Assignment>, keys: seq<string>, i: nat)
    requires i < |keys| && KeepsColors(start, table, keys, i)
    requires forall j | 0 <= j < i :: ColorOf(after, keys[j]) == ColorOf(table, keys[j])
    requires FirstSeen(keys, i) ==> ColorOf(table, keys[i]) == ColorOf(start, keys[i])
    requires Suits(PreviousColor(table, keys, i), ColorOf(table, keys[i])) ==> after == table
    ensures KeepsColors(start, after, keys, i + 1)
  {
    forall j | 0 <= j < i + 1 && FirstSeen(keys, j)
      ensures Kept(start, after, keys, j)
    {
      assert PreviousColor(after, keys, j) == PreviousColor(table, keys, j);
      assert j < i ==> Kept(start, table, keys, j);
    }
  }

  lemma UntouchedStep(start: seq<Assignment>, table: seq<Assignment>, after: seq<Assignment>, keys: seq<string>, i: nat)
    requires i < |keys| && forall k :: k !in keys[..i] ==> ColorOf(table, k) == ColorOf(start, k)
    requires forall k :: k != keys[i] ==> ColorOf(after, k) == ColorOf(table, k)
    ensures forall k :: k !in keys[..i + 1] ==> ColorOf(after, k) == ColorOf(start, k)
  {
    assert keys[..i + 1] == keys[..i] + [keys[i]];
  }

  lemma ProgressStep(start: seq<Assignment>, table: seq<Assignment>, after: seq<Assignment>, keys: seq<string>, i: nat)
    requires i < |keys| && Alternating(keys) && Progress(start, table, keys, i)
    requires Repaired(table, after, keys[i], PreviousColor(table, keys, i))
    ensures Progress(start, after, keys, i + 1)
  {
    RepairExtends(table, after, keys, i);
    KeepsColorsStep(start, table, after, keys, i);
    UntouchedStep(start, table, after, keys, i);
    if Contrasting(start, keys, i + 1) {
      assert Suits(PreviousColor(table, keys, i), ColorOf(table, keys[i]));
    }
  }

  /** Neither server of the pair that ends at position j comes again before n. */
  ghost predicate FreshPair(keys: seq<string>, j: nat, n: nat)
    requires 0 < j < n <= |keys|
  {
    forall m | j < m < n :: keys[m] != keys[j - 1] && keys[m] != keys[j]
  }

  /** Every server has a colour, and neighbours contrast wherever neither is painted again. */
  ghost predicate AllPainted(table: seq<Assignment>, keys: seq<string>, n: nat)
    requires n <= |keys|
  {
    && (forall j | 0 <= j < n :: InRange(ColorOf(table, keys[j])))
    && forall j | 0 < j < n && FreshPair(keys, j, n) ::
         FitsPrevious(ColorOf(table, keys[j - 1]), ColorOf(table, keys[j]))
  }

  lemma AllPaintedStep(table: seq<Assignment>, after: seq<Assignment>, keys: seq<string>, i: nat, previousColor: int)
    requires i < |keys| && AllPainted(table, keys, i) && previousColor == PreviousColor(table, keys, i)
    requires Repaired(table, after, keys[i], previousColor) && (i > 0 ==> keys[i - 1] != keys[i])
    ensures AllPainted(after, keys, i + 1)
  {
    forall j | 0 < j < i && FreshPair(keys, j, i + 1)
      ensures FitsPrevious(ColorOf(after, keys[j - 1]), ColorOf(after, keys[j]))
    {
      assert FreshPair(keys, j, i);
    }
  }

  /** What the repair loop keeps: the first n servers are in the table, and have made progress if they can. */
  ghost predicate Repairing(
    start: seq<Assignment>, table: seq<Assignment>, rows: seq<string>, keys: seq<string>, n: nat, previousColor: int)
    requires n <= |keys|
  {
    && previousColor == PreviousColor(table, keys, n) && (if n > 0 then InRange(previousColor) else previousColor < 0)
    && Keys(table) <= RowKeys(rows) && (forall j | 0 <= j < n :: keys[j] in Keys(table)) && AllPainted(table, keys, n)
    && (Alternating(keys) ==> Progress(start, table, keys, n))
  }

  lemma RepairingStep(
    start: seq<Assignment>, table: seq<Assignment>, after: seq<Assignment>, rows: seq<string>, keys: seq<string>,
    i: nat, previousColor: int, color: int)
    requires i < |keys| && keys[i] in rows && Repairing(start, table, rows, keys, i, previousColor)
    requires Repaired(table, after, keys[i], previousColor) && color == ColorOf(after, keys[i]) && InRange(color)
    requires Keys(after) == Keys(table) + {keys[i]} && (i > 0 ==> keys[i - 1] != keys[i])
    ensures Repairing(start, after, rows, keys, i + 1, color)
  {
    AllPaintedStep(table, after, keys, i, previousColor);
    if Alternating(keys) {
      ProgressStep(start, table, after, keys, i);
    }
  }

  /** Dropping servers without rows keeps the colours of the others. */
  lemma {:induction false} ColorOfCompacted(table: seq<Assignment>, rows: seq<string>, key: string)
    requires Distinct(table, KeyOf) && key in rows
    ensures ColorOf(Filter(table, HasRow(rows)), key) == ColorOf(table, key)
  {
    var kept := Filter(table, HasRow(rows));
    FilterMembers(table, HasRow(rows));
    FilterDistinct(table, HasRow(rows), KeyOf);
    var i, j := IndexOf(table, key), IndexOf(kept, key);
    if i < |table| {
      assert table[i] in kept;
      var m :| 0 <= m < |kept| && kept[m] == table[i];
      assert kept[j].key == key && KeyOf(kept[j]) == KeyOf(kept[m]);
    } else {
      assert forall m | 0 <= m < |kept| :: kept[m] in kept && kept[m].key != key;
    }
  }

  lemma {:induction false} NothingToDrop(table: seq<Assignment>, rows: seq<string>)
    requires forall a <- table :: a.key in rows
    ensures Filter(table, HasRow(rows)) == table
  {
    if table != [] {
      forall a <- Front(table) ensures a.key in rows {
        assert a in table;
      }
      NothingToDrop(Front(table), rows);
      assert HasRow(rows)(Last(table)) && table == Front(table) + [Last(table)];
    }
  }

  function RowKeys(rows: seq<string>): set<string> {
    set k | k in rows
  }

  lemma {:induction false} FewKeys(rows: seq<string>)
    ensures |RowKeys(rows)| <= |rows|
  {
    if rows == [] {
      assert RowKeys(rows) == {};
    } else {
      FewKeys(Front(rows));
      assert rows == Front(rows) + [Last(rows)];
      assert RowKeys(rows) == RowKeys(Front(rows)) + {Last(rows)};
    }
  }

  lemma {:induction false} OneRowPerKey(table: seq<Assignment>)
    requires Distinct(table, KeyOf)
    ensures |Keys(table)| == |table|
  {
    if table != [] {
      var last := Last(table);
      OneRowPerKey(Front(table));
      assert table == Front(table) + [last];
      assert Keys(table) == Keys(Front(table)) + {last.key};
      assert forall j | 0 <= j < |table| - 1 :: KeyOf(table[j]) != KeyOf(last);
    }
  }

  /** A table of servers with rows has room for one more server with rows. */
  lemma RoomForOneMore(table: seq<Assignment>, rows: seq<string>, key: string)
    requires Distinct(table, KeyOf) && Keys(table) <= RowKeys(rows) && key in rows
    ensures IndexOf(table, key) == |table| ==> |table| < |rows|
  {
    OneRowPerKey(table);
    FewKeys(rows);
    if IndexOf(table, key) == |table| {
      assert key !in Keys(table) && Keys(table) + {key} <= RowKeys(rows);
      Cardinality(Keys(table) + {key}, RowKeys(rows));
    }
  }

  lemma {:induction false} Cardinality(a: set<string>, b: set<string>)
    requires a <= b
    ensures |a| <= |b|
    decreases |a|
  {
    if a != {} {
      var x :| x in a;
      Cardinality(a - {x}, b - {x});
    }
  }

  class ServerColorTable {
    const colors: array<Assignment>
    var count: nat

    ghost predicate Valid() reads this, colors {
      colors.Length == MAX_SESSIONS && count <= MAX_SESSIONS && Distinct(colors[..count], KeyOf)
    }

    function Contents(): seq<Assignment>
      requires count <= colors.Length
      reads this, colors
    {
      colors[..count]
    }

    constructor ()
      ensures Valid() && fresh(colors) && Contents() == []
    {
      colors := new Assignment[MAX_SESSIONS](_ => Assignment("", -1));
      count := 0;
    }

    /** Drops the servers without rows, moving the others together. */
    method Compact(rows: seq<string>)
      requires Valid()
      modifies this`count, colors
      ensures Valid() && Contents() == Filter(old(Contents()), HasRow(rows))
    {
      ghost var before := colors[..count];
      var writeIndex := 0;
      for readIndex := 0 to count
        invariant 0 <= writeIndex <= readIndex && count == old(count)
        invariant colors[..writeIndex] == Filter(before[..readIndex], HasRow(rows))
        invariant forall j | readIndex <= j < count :: colors[j] == before[j]
      {
        ghost var kept := colors[..writeIndex];
        FilterOneMore(before, readIndex, HasRow(rows));
        if colors[readIndex].key in rows {
          if writeIndex != readIndex {
            colors[writeIndex] := colors[readIndex];
          }
          writeIndex := writeIndex + 1;
          assert colors[..writeIndex] == kept + [before[readIndex]];
        }
      }
      assert before[..count] == before;
      FilterDistinct(before, HasRow(rows), KeyOf);
      count := writeIndex;
    }

    method CountUses() returns (used: array<int>)
      requires Valid()
      ensures fresh(used) && Counts(used[..], Contents())
    {
      used := new int[COLOR_COUNT](_ => 0);
      for i := 0 to count
        invariant used.Length == COLOR_COUNT && Counts(used[..], colors[..i])
      {
        assert Front(colors[..i + 1]) == colors[..i];
        var color := colors[i].color;
        if InRange(color) {
          used[color] := used[color] + 1;
        }
      }
    }

    /** The repair loop on one server: a colour that contrasts with the previous server's stays;
        otherwise the assignment leaves the counts, gets a chosen colour and is counted again. */
    method RepairOne(keys: seq<string>, i: nat, previousColor: int, used: array<int>, roll: nat) returns (color: int)
      requires Valid() && used != colors as object && Counts(used[..], Contents())
      requires i < |keys| && (previousColor < 0 || InRange(previousColor))
      requires IndexOf(Contents(), keys[i]) == count ==> count < MAX_SESSIONS
      modifies this`count, colors, used
      ensures Valid() && Counts(used[..], Contents()) && color == ColorOf(Contents(), keys[i])
      ensures Repaired(old(Contents()), Contents(), keys[i], previousColor)
      ensures var before := old(ColorOf(Contents(), keys[i]));
        Suits(previousColor, before) ||
        Choice(previousColor, old(NextColorOf(Contents(), keys, i + 1)), Freed(old(used[..]), before), color)
      ensures Keys(Contents()) == Keys(old(Contents())) + {keys[i]}
    {
      ghost var table := Contents();
      var at := EntryFor(keys[i], used[..]);
      color := colors[at].color;
      assert color == ColorOf(Contents(), keys[i]);
      if Suits(previousColor, color) {
        return;
      }
      SameNextColor(table, Contents(), keys, i + 1);
      color := Repaint(keys, i, at, previousColor, used, roll);
    }

    method Repaint(keys: seq<string>, i: nat, at: nat, previousColor: int, used: array<int>, roll: nat)
      returns (color: int)
      requires Valid() && used != colors as object && Counts(used[..], Contents())
      requires i < |keys| && (previousColor < 0 || InRange(previousColor))
      requires at < count && at == IndexOf(Contents(), keys[i])
      modifies colors, used
      ensures Valid() && Counts(used[..], Contents())
      ensures color == ColorOf(Contents(), keys[i])
      ensures Choice(previousColor, old(NextColorOf(Contents(), keys, i + 1)),
        Freed(old(used[..]), old(colors[at].color)), color)
      ensures forall k :: k != keys[i] ==> ColorOf(Contents(), k) == ColorOf(old(Contents()), k)
      ensures Keys(Contents()) == Keys(old(Contents()))
    {
      ghost var before, counts := Contents(), used[..];
      color := colors[at].color;
      if InRange(color) {
        used[color] := used[color] - 1;
      }
      var nextColor := NextColor(Contents(), keys, i + 1);
      assert used[..] == Freed(counts, before[at].color);
      color := ChooseServerColorIndex(previousColor, nextColor, used[..], roll);
      SameChoice(previousColor, nextColor, NextColorOf(before, keys, i + 1), used[..], color);
      RepairCounts(before, at, color, counts);
      Painted(before, at, color, keys[i]);
      KeysAfterChange(before, at, color);
      Recolour(at, color);
      used[color] := used[color] + 1;
    }

    /** The server's place in the table, appended without a colour when it has none. */
    method EntryFor(key: string, ghost used: seq<int>) returns (at: nat)
      requires Valid() && (IndexOf(Contents(), key) == count ==> count < MAX_SESSIONS) && Counts(used, Contents())
      modifies this`count, colors
      ensures Valid() && at < count && at == IndexOf(Contents(), key)
      ensures Contents() == if IndexOf(old(Contents()), key) < old(count) then old(Contents())
        else old(Contents()) + [Assignment(key, -1)]
      ensures forall k :: ColorOf(Contents(), k) == ColorOf(old(Contents()), k)
      ensures Counts(used, Contents()) && Keys(Contents()) == Keys(old(Contents())) + {key}
    {
      ghost var table := Contents();
      at := IndexOf(Contents(), key);
      if at == count {
        AppendUncoloured(table, key);
        colors[count] := Assignment(key, -1);
        count := count + 1;
        assert Contents() == table + [Assignment(key, -1)];
      } else {
        assert colors[at] in table;
      }
    }

    method Recolour(at: nat, color: int)
      requires Valid() && at < count && Distinct(Contents()[at := Contents()[at].(color := color)], KeyOf)
      modifies colors
      ensures Valid() && Contents() == old(Contents())[at := old(Contents())[at].(color := color)]
    {
      colors[at] := colors[at].(color := color);
      assert Contents() == old(Contents())[at := old(Contents())[at].(color := color)];
    }

    /** `collect_ordered_server_keys`, `sync_server_colors`. Neighbouring servers end with contrasting colours
        exactly when no server's rows come back at an odd distance; in any case every server has a colour, and
        neighbours contrast wherever neither comes again. */
    method SyncServerColors(rows: seq<string>, rolls: nat -> nat)
      requires Valid() && |rows| <= MAX_SESSIONS
      modifies this`count, colors
      ensures Valid()
      ensures Settled(Contents(), rows) <==> Alternating(OrderedKeys(rows))
      ensures Alternating(OrderedKeys(rows)) ==>
        KeepsColors(old(Contents()), Contents(), OrderedKeys(rows), |OrderedKeys(rows)|)
      ensures Keys(Contents()) == RowKeys(rows) && AllPainted(Contents(), OrderedKeys(rows), |OrderedKeys(rows)|)
      ensures old(Settled(Contents(), rows)) ==> Contents() == old(Contents())
    {
      ghost var before := Contents();
      Compact(rows);
      ghost var start := Contents();
      AfterCompaction(before, rows);
      var used := CountUses();
      var keys := CollectOrderedServerKeys(rows);
      OrderedKeysAreRows(rows);
      NeighboursDiffer(rows);
      RepairAll(rows, keys, used, rolls);
      Conclude(before, Contents(), rows);
    }

    /** The repair loop. */
    method RepairAll(rows: seq<string>, keys: seq<string>, used: array<int>, rolls: nat -> nat)
      requires Valid() && |rows| <= MAX_SESSIONS && used != colors as object && Counts(used[..], Contents())
      requires Keys(Contents()) <= RowKeys(rows) && (forall k <- keys :: k in rows) && NoNeighbourRepeats(keys)
      modifies this`count, colors, used
      ensures Valid() && Counts(used[..], Contents())
      ensures Keys(Contents()) <= RowKeys(rows) && forall k <- keys :: k in Keys(Contents())
      ensures AllPainted(Contents(), keys, |keys|)
      ensures Alternating(keys) ==> Progress(old(Contents()), Contents(), keys, |keys|)
    {
      ghost var start := Contents();
      var previousColor := -1;
      for i := 0 to |keys|
        invariant Valid() && Counts(used[..], Contents())
        invariant Repairing(start, Contents(), rows, keys, i, previousColor)
      {
        ghost var table, color := Contents(), previousColor;
        RoomForOneMore(table, rows, keys[i]);
        previousColor := RepairOne(keys, i, previousColor, used, rolls(i));
        RepairingStep(start, table, Contents(), rows, keys, i, color, previousColor);
      }
    }
  }

  method CollectOrderedServerKeys(rows: seq<string>) returns (keys: seq<string>)
    ensures keys == OrderedKeys(rows)
  {
    keys := [];
    for row := 0 to |rows|
      invariant keys == OrderedKeys(rows[..row])
      invariant row > 0 ==> keys != [] && Last(keys) == rows[row - 1]
    {
      assert Front(rows[..row + 1]) == rows[..row];
      if |keys| > 0 && Last(keys) == rows[row] {
        continue;
      }
      keys := keys + [rows[row]];
    }
    assert rows[..|rows|] == rows;
  }

  lemma AfterCompaction(before: seq<Assignment>, rows: seq<string>)
    requires Distinct(before, KeyOf)
    ensures var start := Filter(before, HasRow(rows));
      && Keys(start) <= RowKeys(rows)
      && (forall k <- rows :: ColorOf(start, k) == ColorOf(before, k))
      && ((forall a <- before :: a.key in rows) ==> start == before)
  {
    FilterMembers(before, HasRow(rows));
    forall k <- rows ensures ColorOf(Filter(before, HasRow(rows)), k) == ColorOf(before, k) {
      ColorOfCompacted(before, rows, k);
    }
    if forall a <- before :: a.key in rows {
      NothingToDrop(before, rows);
    }
  }

  lemma Conclude(before: seq<Assignment>, table: seq<Assignment>, rows: seq<string>)
    requires Distinct(before, KeyOf) && Keys(table) <= RowKeys(rows)
    requires Alternating(OrderedKeys(rows)) ==>
      Progress(Filter(before, HasRow(rows)), table, OrderedKeys(rows), |OrderedKeys(rows)|)
    ensures Settled(table, rows) <==> Alternating(OrderedKeys(rows))
    ensures Alternating(OrderedKeys(rows)) ==> KeepsColors(before, table, OrderedKeys(rows), |OrderedKeys(rows)|)
    ensures Settled(before, rows) ==> table == before
  {
    var keys := OrderedKeys(rows);
    OrderedKeysAreRows(rows);
    AfterCompaction(before, rows);
    if Alternating(keys) {
      assert forall a <- table :: a.key in Keys(table);
      forall i | 0 <= i < |keys| ensures keys[i] in rows {
        assert keys[i] in keys;
      }
    } else {
      OddReturnCannotSettle(table, keys);
      OddReturnCannotSettle(before, keys);
    }
  }
}
