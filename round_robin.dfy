/** A round-robin group: the samples assigned to one note, and the cursor that rotates over them. */
module RoundRobin {
  import opened KitTypes

  /** The value of a group: its samples, rotation cursor, output bus and choke id (0 = none). */
  datatype GroupState = GroupState(samples: seq<Sample>, cursor: nat, output: int, chokeGroup: int)

  /** A non-empty group's cursor is a valid index, and every sample is well formed. */
  predicate GroupOk(g: GroupState)
  {
    && (|g.samples| > 0 ==> g.cursor < |g.samples|)
    && forall i | 0 <= i < |g.samples| :: WellFormed(g.samples[i])
  }

  /** One selection: the sample handed out (None exactly for an empty group) and the group afterwards. */
  function Pick(g: GroupState): (r: (Option<Sample>, GroupState))
    requires GroupOk(g)
    ensures GroupOk(r.1)
    ensures r.0.None? <==> |g.samples| == 0
    ensures r.0.Some? ==> r.0.value == g.samples[g.cursor] && WellFormed(r.0.value)
    ensures r.1.samples == g.samples && r.1.output == g.output && r.1.chokeGroup == g.chokeGroup
    ensures |g.samples| == 0 ==> r.1 == g
  {
    if |g.samples| == 0 then (None, g)
    else (Some(g.samples[g.cursor]), g.(cursor := (g.cursor + 1) % |g.samples|))
  }

  /** The samples handed out by `k` consecutive selections starting from `g`. */
  function Picks(g: GroupState, k: nat): seq<Sample>
    requires GroupOk(g) && |g.samples| > 0
    decreases k
  {
    if k == 0 then [] else [Pick(g).0.value] + Picks(Pick(g).1, k - 1)
  }

  /** The group after `k` consecutive selections. */
  function After(g: GroupState, k: nat): GroupState
    requires GroupOk(g)
    decreases k
  {
    if k == 0 then g else After(Pick(g).1, k - 1)
  }

  /** The index `i` places past `c` in a ring of `n` slots, for `i` at most one lap. */
  function Rotated(c: nat, i: nat, n: nat): nat
  {
    if c + i < n then c + i else c + i - n
  }

  /** The cursor update of a non-empty group moves it one place round the ring. */
  lemma NextCursor(c: nat, n: nat)
    requires c < n
    ensures (c + 1) % n == Rotated(c, 1, n)
  {
  }

  /** Selection is a rotation: within one lap, the i-th selection hands out the sample `i`
      places past the cursor, and `k` selections leave the cursor `k` places further on. */
  lemma {:induction false} PicksRotate(g: GroupState, k: nat)
    requires GroupOk(g) && |g.samples| > 0 && k <= |g.samples|
    ensures |Picks(g, k)| == k
    ensures forall i | 0 <= i < k :: Picks(g, k)[i] == g.samples[Rotated(g.cursor, i, |g.samples|)]
    ensures After(g, k) == g.(cursor := Rotated(g.cursor, k, |g.samples|))
    decreases k
  {
    var n := |g.samples|;
    if k > 0 {
      var g' := Pick(g).1;
      NextCursor(g.cursor, n);
      var c' := Rotated(g.cursor, 1, n);
      assert g' == g.(cursor := c');
      PicksRotate(g', k - 1);
      assert Picks(g, k) == [g.samples[g.cursor]] + Picks(g', k - 1);
      forall i | 0 <= i < k
        ensures Picks(g, k)[i] == g.samples[Rotated(g.cursor, i, n)]
      {
        if i > 0 {
          assert Picks(g, k)[i] == Picks(g', k - 1)[i - 1];
          assert Rotated(c', i - 1, n) == Rotated(g.cursor, i, n);
        }
      }
      assert After(g, k) == After(g', k - 1);
      assert Rotated(c', k - 1, n) == Rotated(g.cursor, k, n);
    }
  }

  /** Over as many selections as the group has samples, every sample is handed out exactly once,
      in assignment order starting at the cursor, and the group returns to where it started, so
      the next selection repeats the first. */
  lemma FullCycle(g: GroupState)
    requires GroupOk(g) && |g.samples| > 0
    ensures Picks(g, |g.samples|) == g.samples[g.cursor..] + g.samples[..g.cursor]
    ensures After(g, |g.samples|) == g
  {
    var n, c := |g.samples|, g.cursor;
    PicksRotate(g, n);
    assert After(g, n) == g;
    var rot := g.samples[c..] + g.samples[..c];
    forall i | 0 <= i < n
      ensures Picks(g, n)[i] == rot[i]
    {
      RotatedIndex(g.samples, c, i);
    }
  }

  /** Moving the first `c` elements to the back puts at index `i` the element `i` places past `c`. */
  lemma RotatedIndex<T>(a: seq<T>, c: nat, i: nat)
    requires c < |a| && i < |a|
    ensures (a[c..] + a[..c])[i] == a[Rotated(c, i, |a|)]
  {
    if i < |a| - c {
      assert (a[c..] + a[..c])[i] == a[c..][i];
    } else {
      assert (a[c..] + a[..c])[i] == a[..c][i - (|a| - c)];
    }
  }

  /** A group whose cursor is still at its initial 0 hands its samples out in assignment order. */
  lemma FreshGroupCycle(g: GroupState)
    requires GroupOk(g) && |g.samples| > 0 && g.cursor == 0
    ensures Picks(g, |g.samples|) == g.samples
  {
    FullCycle(g);
    assert g.samples[0..] + g.samples[..0] == g.samples;
  }

  /** A full lap hands out each of the group's samples exactly as often as it occurs in the group. */
  lemma FullCyclePermutes(g: GroupState)
    requires GroupOk(g) && |g.samples| > 0
    ensures multiset(Picks(g, |g.samples|)) == multiset(g.samples)
  {
    FullCycle(g);
    RotationPermutes(g.samples, g.cursor);
  }

  /** Moving a prefix to the back permutes a sequence. */
  lemma RotationPermutes<T>(a: seq<T>, c: nat)
    requires c <= |a|
    ensures multiset(a[c..] + a[..c]) == multiset(a)
  {
    assert a == a[..c] + a[c..];
  }

  /** A group whose samples, output and choke id are fixed at setup and whose cursor rotates. */
  class RRGroup {
    var samples: seq<Sample>
    var currentRR: nat
    var output: int
    var chokeGroup: int

    ghost function State(): GroupState
      reads this
    {
      GroupState(samples, currentRR, output, chokeGroup)
    }

    ghost predicate Valid()
      reads this
    {
      GroupOk(State())
    }

    /** A group as setup leaves it: its samples in assignment order, the cursor at 0. */
    constructor (samples: seq<Sample>, output: int, chokeGroup: int)
      requires forall i | 0 <= i < |samples| :: WellFormed(samples[i])
      ensures Valid()
      ensures State() == GroupState(samples, 0, output, chokeGroup)
    {
      this.samples := samples;
      this.currentRR := 0;
      this.output := output;
      this.chokeGroup := chokeGroup;
    }

    /** Hands out the sample at the cursor and advances the cursor modulo the group size. */
    method GetNextSample() returns (s: Option<Sample>)
      requires Valid()
      modifies this`currentRR
      ensures Valid()
      ensures (s, State()) == Pick(old(State()))
      ensures s.None? <==> |samples| == 0
      ensures s.Some? ==> s.value == samples[old(currentRR)] && currentRR == (old(currentRR) + 1) % |samples|
    {
      if |samples| == 0 {
        return None;
      }
      s := Some(samples[currentRR]);
      currentRR := (currentRR + 1) % |samples|;
    }
  }
}
