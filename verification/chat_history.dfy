/** The conversation memory of main.py: a list of role/content turns that is
    cut back to its last ten entries after every append. */
module ChatHistory {
  import opened SeqLemmas

  /** One chat message, a {"role": ..., "content": ...} dictionary. */
  datatype Turn = Turn(role: string, content: string)

  /** How many turns the history keeps. */
  const Capacity: nat := 10

  /** The slice h[-10:]: the last min(|h|, 10) turns of h, in their order. */
  function Truncate(h: seq<Turn>): (r: seq<Turn>)
    ensures |r| == if |h| <= Capacity then |h| else Capacity
    ensures r == h[|h| - |r|..]
  {
    if |h| <= Capacity then h else h[|h| - Capacity..]
  }

  /** Append one turn, then keep the last ten. */
  function Append(h: seq<Turn>, t: Turn): seq<Turn>
  {
    Truncate(h + [t])
  }

  /** After an append the history is non-empty and at most ten long, ends
      with the new turn, and before it holds the most recent turns of the
      previous history, in order. */
  lemma AppendKeepsLastTen(h: seq<Turn>, t: Turn)
    ensures var r := Append(h, t);
            && 0 < |r| <= Capacity
            && |r| == (if |h| < Capacity then |h| + 1 else Capacity)
            && r[|r| - 1] == t
            && r[..|r| - 1] == h[|h| - (|r| - 1)..]
  {
  }

  /** Truncating early loses nothing that a later truncation would keep. */
  lemma TruncateAbsorbs(x: seq<Turn>, y: seq<Turn>)
    ensures Truncate(Truncate(x) + y) == Truncate(x + y)
  {
    if |x| <= Capacity {
      assert Truncate(x) == x;
    } else {
      var a := |x| - Capacity;
      var s := (x + y)[a..];
      assert Truncate(x) + y == s by {
        TailConcat(x, y, a);
      }
      assert Truncate(s) == s[|y|..];
      assert Truncate(x + y) == (x + y)[a + |y|..];
      TailTail(x + y, a, |y|);
    }
  }

  /** Appending the given turns one at a time. */
  function AppendAll(h: seq<Turn>, ts: seq<Turn>): seq<Turn>
    decreases |ts|
  {
    if ts == [] then h else AppendAll(Append(h, ts[0]), ts[1..])
  }

  /** Whatever the number of appends, the history holds exactly the most
      recent (at most ten) turns, in the order they were appended. */
  lemma {:induction false} AppendAllKeepsMostRecent(h: seq<Turn>, ts: seq<Turn>)
    requires |h| <= Capacity
    ensures AppendAll(h, ts) == Truncate(h + ts)
    ensures |AppendAll(h, ts)| <= Capacity
    decreases |ts|
  {
    if ts == [] {
      assert h + ts == h;
    } else {
      var h1 := Append(h, ts[0]);
      AppendAllKeepsMostRecent(h1, ts[1..]);
      assert Truncate(h1 + ts[1..]) == Truncate(h + ts) by {
        TruncateAbsorbs(h + [ts[0]], ts[1..]);
        SplitFirst(h, ts);
      }
    }
  }
}
