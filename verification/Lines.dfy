/** Newline-terminated records in an append-only file, and how reading the file in pieces
    relates to reading it whole. */
module Lines {
  import opened Sequences

  type Byte = b: int | 0 <= b < 256

  const NEWLINE: Byte := 10

  /** The complete lines of a byte string, without their newlines. */
  function Complete(data: seq<Byte>): seq<seq<Byte>> {
    if data == [] then []
    else if Last(data) == NEWLINE then Complete(Front(data)) + [Rest(Front(data))]
    else Complete(Front(data))
  }

  /** The unterminated remainder behind the last newline. */
  function Rest(data: seq<Byte>): seq<Byte> {
    if data == [] || Last(data) == NEWLINE then [] else Rest(Front(data)) + [Last(data)]
  }

  /** `data.split(b"\n")` */
  function Split(data: seq<Byte>): seq<seq<Byte>> {
    Complete(data) + [Rest(data)]
  }

  /** Reading on from any point: the lines of a + b are those of a, then those of a's remainder + b. */
  lemma {:induction false} ReadOn(a: seq<Byte>, b: seq<Byte>)
    ensures Complete(a + b) == Complete(a) + Complete(Rest(a) + b)
    ensures Rest(a + b) == Rest(Rest(a) + b)
  {
    if b == [] {
      assert a + b == a && Rest(a) + b == Rest(a);
      NoNewline(Rest(a), a);
    } else {
      ReadOn(a, Front(b));
      assert Front(a + b) == a + Front(b) && Front(Rest(a) + b) == Rest(a) + Front(b);
    }
  }

  lemma {:induction false} NoNewline(x: seq<Byte>, a: seq<Byte>)
    requires x == Rest(a)
    ensures Complete(x) == [] && Rest(x) == x
    decreases a
  {
    if a == [] || Last(a) == NEWLINE {
    } else {
      NoNewline(Rest(Front(a)), Front(a));
      assert Front(x) == Rest(Front(a));
    }
  }

  /** Losing the start x of a line damages the first line read and nothing else. */
  lemma {:induction false} LostStart(x: seq<Byte>, d: seq<Byte>)
    requires Complete(x) == [] && Rest(x) == x
    ensures if Complete(d) == [] then Complete(x + d) == [] && Rest(x + d) == x + Rest(d)
      else Complete(x + d) == [x + Complete(d)[0]] + Complete(d)[1..] && Rest(x + d) == Rest(d)
  {
    if d == [] {
      assert x + d == x;
    } else {
      LostStart(x, Front(d));
      assert Front(x + d) == x + Front(d);
      if Last(d) != NEWLINE && Complete(d) == [] {
        assert x + Rest(Front(d)) + [Last(d)] == x + Rest(d);
      }
    }
  }
}
