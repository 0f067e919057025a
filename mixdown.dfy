/** The mixdown of one block: what each voice adds to each output bus, how far it advances, and
    which voices remain in the pool afterwards. */
module Mixdown {
  import opened KitTypes
  import opened VoicePool

  /** The frames a voice renders in a block of `n`: the whole block, or what is left of its sample. */
  function Frames(v: Voice, n: nat): (r: nat)
    ensures r <= n
    ensures v.pos <= v.length ==> v.pos + r <= v.length
    ensures v.pos < v.length ==> r == n || v.pos + r == v.length
    ensures v.pos >= v.length ==> r == 0
  {
    if v.pos < v.length then (if n < v.length - v.pos then n else v.length - v.pos) else 0
  }

  /** The voice after rendering a block of `n` frames. */
  function Advanced(v: Voice, n: nat): (r: Voice)
    requires VoiceOk(v)
    ensures VoiceOk(r) && r.pos == v.pos + Frames(v, n)
    ensures r == v.(pos := r.pos)
  {
    v.(pos := v.pos + Frames(v, n))
  }

  /** A voice is removed at the end of a block when it cannot play or has reached its length. */
  predicate Finishes(v: Voice, n: nat)
    requires VoiceOk(v)
    ensures Playable(v) ==> (Finishes(v, n) <==> v.length - v.pos <= n)
  {
    !Playable(v) || Advanced(v, n).pos >= v.length
  }

  /** The buses a voice may write: its own bus if that is an output, and the next one, if that is
      an output too, when its sample is stereo. A mono voice never writes the next bus. */
  predicate RoutesTo(v: Voice, b: int)
    ensures RoutesTo(v, b) ==> 0 <= b < NUM_OUTPUTS
    ensures v.sample.None? || !v.sample.value.isStereo ==> (RoutesTo(v, b) <==> 0 <= b == v.output < NUM_OUTPUTS)
  {
    || (0 <= v.output < NUM_OUTPUTS && b == v.output)
    || (v.sample.Some? && v.sample.value.isStereo && 0 <= v.output && v.output + 1 < NUM_OUTPUTS && b == v.output + 1)
  }

  /** What voice `v` adds to bus `b` at frame `i` of a block of `n` frames. */
  function Contribution(v: Voice, b: int, i: nat, n: nat): (r: real)
    requires VoiceOk(v)
    ensures r != 0.0 ==> Playable(v) && i < Frames(v, n) && RoutesTo(v, b)
    ensures Playable(v) && i < Frames(v, n) && 0 <= b == v.output < NUM_OUTPUTS
            ==> r == v.sample.value.dataL[v.pos + i] * v.velocity
    ensures Playable(v) && i < Frames(v, n) && v.sample.value.isStereo && 0 <= v.output && b == v.output + 1 < NUM_OUTPUTS
            ==> r == v.sample.value.dataR[v.pos + i] * v.velocity
  {
    if !Playable(v) || i >= Frames(v, n) then 0.0
    else
      var s := v.sample.value;
      (if 0 <= v.output < NUM_OUTPUTS && b == v.output then s.dataL[v.pos + i] * v.velocity else 0.0)
      + (if s.isStereo && 0 <= v.output && v.output + 1 < NUM_OUTPUTS && b == v.output + 1
         then s.dataR[v.pos + i] * v.velocity else 0.0)
  }

  /** Bus `b` at frame `i` once the voices `vs` are mixed, in pool order, into a cleared block of
      `n` frames. Nothing lands at or past the end of the block. */
  function MixAt(vs: seq<Voice>, b: int, i: nat, n: nat): (r: real)
    requires forall v | v in vs :: VoiceOk(v)
    ensures i >= n ==> r == 0.0
    decreases |vs|
  {
    if |vs| == 0 then 0.0 else MixAt(vs[..|vs| - 1], b, i, n) + Contribution(vs[|vs| - 1], b, i, n)
  }

  /** Mixing one more voice after the pool `vs` adds exactly its contribution. */
  lemma MixAtAppend(vs: seq<Voice>, v: Voice, n: nat)
    requires forall w | w in vs :: VoiceOk(w)
    requires VoiceOk(v)
    ensures forall w | w in vs + [v] :: VoiceOk(w)
    ensures forall b, i: nat :: MixAt(vs + [v], b, i, n) == MixAt(vs, b, i, n) + Contribution(v, b, i, n)
  {
    assert (vs + [v])[..|vs|] == vs;
  }

  /** A voice that cannot play adds nothing to the mix. */
  lemma SilentVoice(vs: seq<Voice>, v: Voice, n: nat)
    requires forall w | w in vs :: VoiceOk(w)
    requires VoiceOk(v) && !Playable(v)
    ensures forall w | w in vs + [v] :: VoiceOk(w)
    ensures forall b, i: nat :: MixAt(vs + [v], b, i, n) == MixAt(vs, b, i, n)
  {
    MixAtAppend(vs, v, n);
  }

  /** A prefix of a pool of well-formed voices grows by one well-formed voice at a time. */
  lemma PrefixOk(vs: seq<Voice>, k: nat)
    requires forall v | v in vs :: VoiceOk(v)
    requires k < |vs|
    ensures VoiceOk(vs[k]) && vs[..k + 1] == vs[..k] + [vs[k]]
    ensures forall v | v in vs[..k + 1] :: VoiceOk(v)
  {
    assert vs[k] in vs;
    assert forall v | v in vs[..k + 1] :: v in vs;
  }

  /** A bus that no voice routes to (an unassigned bus, or the bus after a mono voice's) stays silent. */
  lemma {:induction false} UnroutedBusIsSilent(vs: seq<Voice>, b: int, i: nat, n: nat)
    requires forall v | v in vs :: VoiceOk(v)
    requires forall v | v in vs :: !RoutesTo(v, b)
    ensures MixAt(vs, b, i, n) == 0.0
    decreases |vs|
  {
    if |vs| > 0 {
      UnroutedBusIsSilent(vs[..|vs| - 1], b, i, n);
    }
  }

  /** The pool after the mixdown: every voice advanced by its frames, those that finish erased. */
  function Survivors(vs: seq<Voice>, n: nat): (r: seq<Voice>)
    requires forall v | v in vs :: VoiceOk(v)
    ensures |r| <= |vs|
    ensures forall w | w in r :: VoiceOk(w) && Playable(w) && w.pos < w.length
    decreases |vs|
  {
    if |vs| == 0 then []
    else
      var rest := Survivors(vs[..|vs| - 1], n);
      var v := vs[|vs| - 1];
      if Finishes(v, n) then rest else rest + [Advanced(v, n)]
  }

  /** One step of the in-place erase: with the survivors of the first `k` voices followed by the
      untouched rest as the pool, erasing or advancing the voice at the boundary gives the
      survivors of the first `k + 1` voices followed by the rest. */
  lemma MixdownStep(vs: seq<Voice>, k: nat, n: nat, before: seq<Voice>, after: seq<Voice>)
    requires forall v | v in vs :: VoiceOk(v)
    requires k < |vs| && before == Survivors(vs[..k], n) + vs[k..]
    requires var j := |Survivors(vs[..k], n)|;
             if Finishes(vs[k], n) then after == before[..j] + before[j + 1..]
             else after == before[j := Advanced(vs[k], n)]
    ensures after == Survivors(vs[..k + 1], n) + vs[k + 1..]
    ensures |Survivors(vs[..k + 1], n)| == |Survivors(vs[..k], n)| + if Finishes(vs[k], n) then 0 else 1
  {
    var done := Survivors(vs[..k], n);
    assert vs[..k + 1][..k] == vs[..k] && vs[..k + 1][k] == vs[k];
    assert vs[k..] == [vs[k]] + vs[k + 1..];
    var j := |done|;
    if Finishes(vs[k], n) {
      assert before[..j] == done && before[j + 1..] == vs[k + 1..];
    } else {
      assert Survivors(vs[..k + 1], n) == done + [Advanced(vs[k], n)];
      assert after == done + [Advanced(vs[k], n)] + vs[k + 1..];
    }
  }

  /** The positions of the old pool whose voices survive the block, in pool order. */
  function Kept(vs: seq<Voice>, n: nat): (r: seq<nat>)
    requires forall v | v in vs :: VoiceOk(v)
    ensures forall i | 0 <= i < |r| :: r[i] < |vs|
    decreases |vs|
  {
    if |vs| == 0 then []
    else
      var rest := Kept(vs[..|vs| - 1], n);
      if Finishes(vs[|vs| - 1], n) then rest else rest + [|vs| - 1]
  }

  lemma {:induction false} KeptSelects(vs: seq<Voice>, n: nat)
    requires forall v | v in vs :: VoiceOk(v)
    ensures |Kept(vs, n)| == |Survivors(vs, n)|
    ensures forall i | 0 <= i < |Kept(vs, n)| :: Survivors(vs, n)[i] == Advanced(vs[Kept(vs, n)[i]], n)
    decreases |vs|
  {
    if |vs| > 0 {
      var last := |vs| - 1;
      KeptSelects(vs[..last], n);
      var f, f' := Kept(vs, n), Kept(vs[..last], n);
      var s, s' := Survivors(vs, n), Survivors(vs[..last], n);
      if Finishes(vs[last], n) {
        assert f == f' && s == s';
      } else {
        assert f == f' + [last] && s == s' + [Advanced(vs[last], n)];
      }
      forall i | 0 <= i < |f'|
        ensures s[i] == Advanced(vs[f[i]], n)
      {
        assert s[i] == s'[i] && f[i] == f'[i];
        assert vs[..last][f'[i]] == vs[f[i]];
      }
    }
  }

  lemma {:induction false} KeptIncreasing(vs: seq<Voice>, n: nat)
    requires forall v | v in vs :: VoiceOk(v)
    ensures Increasing(Kept(vs, n))
    decreases |vs|
  {
    if |vs| > 0 {
      KeptIncreasing(vs[..|vs| - 1], n);
    }
  }

  lemma {:induction false} KeptExactly(vs: seq<Voice>, n: nat)
    requires forall v | v in vs :: VoiceOk(v)
    ensures forall j | 0 <= j < |vs| :: j in Kept(vs, n) <==> !Finishes(vs[j], n)
    decreases |vs|
  {
    if |vs| > 0 {
      var last := |vs| - 1;
      KeptExactly(vs[..last], n);
      var f' := Kept(vs[..last], n);
      forall j | 0 <= j < |vs|
        ensures j in Kept(vs, n) <==> !Finishes(vs[j], n)
      {
        if j < last {
          assert vs[..last][j] == vs[j];
        } else {
          assert j !in f';
        }
      }
    }
  }

  /** The mixdown erases in place and keeps order: the survivors are the advanced voices that do
      not finish, found at increasing positions of the old pool, and a voice survives exactly when
      it does not finish. */
  lemma SurvivorsKeepOrder(vs: seq<Voice>, n: nat) returns (f: seq<nat>)
    requires forall v | v in vs :: VoiceOk(v)
    ensures |f| == |Survivors(vs, n)| && Increasing(f)
    ensures forall i | 0 <= i < |f| :: f[i] < |vs| && Survivors(vs, n)[i] == Advanced(vs[f[i]], n)
    ensures forall j | 0 <= j < |vs| :: j in f <==> !Finishes(vs[j], n)
  {
    f := Kept(vs, n);
    KeptSelects(vs, n);
    KeptIncreasing(vs, n);
    KeptExactly(vs, n);
  }

  /** The frames `v` renders over the consecutive blocks of `n` frames in which it stays in the
      pool, when nothing chokes or evicts it. */
  function PlayedFrames(v: Voice, n: nat): nat
    requires n > 0 && VoiceOk(v)
    decreases v.length - v.pos
  {
    if !Playable(v) then 0
    else if Finishes(v, n) then Frames(v, n)
    else Frames(v, n) + PlayedFrames(Advanced(v, n), n)
  }

  /** Left alone, a voice renders exactly the frames from its position to its length, across
      however many blocks that takes, and then leaves the pool. */
  lemma {:induction false} PlaysToTheEnd(v: Voice, n: nat)
    requires n > 0 && VoiceOk(v) && Playable(v)
    ensures PlayedFrames(v, n) == v.length - v.pos
    decreases v.length - v.pos
  {
    if !Finishes(v, n) {
      PlaysToTheEnd(Advanced(v, n), n);
    }
  }
}
