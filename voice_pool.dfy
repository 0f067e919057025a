/** The voice pool policy of the note-on dispatch: choke removal, FIFO admission with eviction of
    the oldest voice, velocity scaling, and the effect of a block's MIDI events on bank and pool. */
module VoicePool {
  import opened KitTypes
  import opened RoundRobin

  predicate Increasing(f: seq<nat>)
  {
    forall i, j | 0 <= i < j < |f| :: f[i] < f[j]
  }

  /** The voices whose choke id differs from `id`, in pool order (`remove_if` then `erase`). */
  function Without(vs: seq<Voice>, id: int): (r: seq<Voice>)
    ensures |r| <= |vs|
    ensures forall v | v in r :: v in vs && v.chokeGroup != id
    ensures forall v | v in vs && v.chokeGroup != id :: v in r
  {
    if |vs| == 0 then []
    else
      var rest := Without(vs[..|vs| - 1], id);
      if vs[|vs| - 1].chokeGroup == id then rest else rest + [vs[|vs| - 1]]
  }

  /** The positions of the voices whose choke id differs from `id`, in pool order. */
  function Unchoked(vs: seq<Voice>, id: int): (r: seq<nat>)
    ensures forall i | 0 <= i < |r| :: r[i] < |vs|
  {
    if |vs| == 0 then []
    else
      var rest := Unchoked(vs[..|vs| - 1], id);
      if vs[|vs| - 1].chokeGroup == id then rest else rest + [|vs| - 1]
  }

  lemma {:induction false} UnchokedSelects(vs: seq<Voice>, id: int)
    ensures |Unchoked(vs, id)| == |Without(vs, id)|
    ensures forall i | 0 <= i < |Unchoked(vs, id)| :: Without(vs, id)[i] == vs[Unchoked(vs, id)[i]]
  {
    if |vs| > 0 {
      var last := |vs| - 1;
      UnchokedSelects(vs[..last], id);
      var f, f' := Unchoked(vs, id), Unchoked(vs[..last], id);
      var w, w' := Without(vs, id), Without(vs[..last], id);
      if vs[last].chokeGroup == id {
        assert f == f' && w == w';
      } else {
        assert f == f' + [last] && w == w' + [vs[last]];
      }
      forall i | 0 <= i < |f'|
        ensures w[i] == vs[f[i]]
      {
        assert w[i] == w'[i] && f[i] == f'[i];
        assert vs[..last][f'[i]] == vs[f[i]];
      }
    }
  }

  lemma {:induction false} UnchokedIncreasing(vs: seq<Voice>, id: int)
    ensures Increasing(Unchoked(vs, id))
  {
    if |vs| > 0 {
      UnchokedIncreasing(vs[..|vs| - 1], id);
    }
  }

  lemma {:induction false} UnchokedExactly(vs: seq<Voice>, id: int)
    ensures forall j | 0 <= j < |vs| :: j in Unchoked(vs, id) <==> vs[j].chokeGroup != id
  {
    if |vs| > 0 {
      var last := |vs| - 1;
      UnchokedExactly(vs[..last], id);
      var f' := Unchoked(vs[..last], id);
      forall j | 0 <= j < |vs|
        ensures j in Unchoked(vs, id) <==> vs[j].chokeGroup != id
      {
        if j < last {
          assert vs[..last][j] == vs[j];
        } else {
          assert j !in f';
        }
      }
    }
  }

  /** Choke removal is stable: the survivors are the voices of the other choke ids, found at
      increasing positions of the original pool, and a voice survives exactly when its id differs. */
  lemma WithoutKeepsOrder(vs: seq<Voice>, id: int) returns (f: seq<nat>)
    ensures |f| == |Without(vs, id)| && Increasing(f)
    ensures forall i | 0 <= i < |f| :: f[i] < |vs| && Without(vs, id)[i] == vs[f[i]]
    ensures forall j | 0 <= j < |vs| :: j in f <==> vs[j].chokeGroup != id
  {
    f := Unchoked(vs, id);
    UnchokedSelects(vs, id);
    UnchokedIncreasing(vs, id);
    UnchokedExactly(vs, id);
  }

  /** The voices left after a trigger of choke id `id`: with a positive id none of that id remains;
      id 0 (no choke) leaves the pool as it is. */
  function Choke(vs: seq<Voice>, id: int): (r: seq<Voice>)
    ensures id > 0 ==> forall v | v in r :: v.chokeGroup != id
    ensures forall v | v in r :: v in vs
    ensures id <= 0 ==> r == vs
  {
    if id > 0 then Without(vs, id) else vs
  }

  /** `push_back` of a new voice, then erasure of the front when the pool exceeds MAX_VOICES:
      the pool stays within capacity, the new voice is last, and at most the oldest voice goes. */
  function Admit(vs: seq<Voice>, v: Voice): (r: seq<Voice>)
    ensures |vs| <= MAX_VOICES ==> |r| <= MAX_VOICES
    ensures |r| > 0 && r[|r| - 1] == v
    ensures |vs| < MAX_VOICES ==> r == vs + [v]
    ensures |vs| >= MAX_VOICES ==> r == vs[1..] + [v]
  {
    var w := vs + [v];
    if |w| > MAX_VOICES then w[1..] else w
  }

  /** Admission of the voices `ws`, one after another, into the pool `vs`. */
  function AdmitMany(vs: seq<Voice>, ws: seq<Voice>): seq<Voice>
    decreases |ws|
  {
    if |ws| == 0 then vs else Admit(AdmitMany(vs, ws[..|ws| - 1]), ws[|ws| - 1])
  }

  /** The newest MAX_VOICES voices of `all`, or all of them if there are fewer. */
  function Newest(all: seq<Voice>): (r: seq<Voice>)
    ensures |r| <= MAX_VOICES
  {
    if |all| > MAX_VOICES then all[|all| - MAX_VOICES..] else all
  }

  /** Admitting one voice into the newest voices of `all` gives the newest voices of `all` and it. */
  lemma AdmitNewest(all: seq<Voice>, x: Voice)
    ensures Admit(Newest(all), x) == Newest(all + [x])
  {
    var p := Newest(all);
    if |all| >= MAX_VOICES {
      var d := |all| - MAX_VOICES;
      assert p == all[d..] && |p| == MAX_VOICES;
      assert Admit(p, x) == p[1..] + [x];
      assert p[1..] == all[d + 1..];
      assert Newest(all + [x]) == (all + [x])[d + 1..];
      assert (all + [x])[d + 1..] == all[d + 1..] + [x];
    } else {
      assert Admit(p, x) == all + [x];
    }
  }

  /** Eviction is FIFO by insertion: after any run of insertions the pool holds exactly the
      newest MAX_VOICES voices (or all of them, if fewer) of the old pool followed by the new ones. */
  lemma {:induction false} AdmitManyKeepsNewest(vs: seq<Voice>, ws: seq<Voice>)
    requires |vs| <= MAX_VOICES
    ensures AdmitMany(vs, ws) == Newest(vs + ws)
    decreases |ws|
  {
    if |ws| == 0 {
      assert vs + ws == vs;
    } else {
      var ws', x := ws[..|ws| - 1], ws[|ws| - 1];
      calc {
        AdmitMany(vs, ws);
        Admit(AdmitMany(vs, ws'), x);
        { AdmitManyKeepsNewest(vs, ws'); }
        Admit(Newest(vs + ws'), x);
        { AdmitNewest(vs + ws', x); }
        Newest((vs + ws') + [x]);
        { assert (vs + ws') + [x] == vs + ws; }
        Newest(vs + ws);
      }
    }
  }

  /** The capacity bound: inserting MAX_VOICES + 1 voices into an empty pool leaves exactly
      MAX_VOICES of them, the first (oldest) one being the only one evicted. */
  lemma OverflowEvictsOldest(ws: seq<Voice>)
    requires |ws| == MAX_VOICES + 1
    ensures AdmitMany([], ws) == ws[1..]
    ensures |AdmitMany([], ws)| == MAX_VOICES
  {
    AdmitManyKeepsNewest([], ws);
    assert [] + ws == ws;
  }

  /** The gain of a note-on: `vel / 127`, clamped into [0, 1]. */
  function Velocity(vel: bv8): (r: real)
    ensures 0.0 <= r <= 1.0
    ensures vel as int <= 127 ==> r == (vel as int) as real / 127.0
    ensures vel as int > 127 ==> r == 1.0
  {
    var v := (vel as int) as real / 127.0;
    if v < 0.0 then 0.0 else if v > 1.0 then 1.0 else v
  }

  /** A note-on (status 0x9n on any channel) with positive velocity; only these are dispatched. */
  predicate IsNoteOn(e: MidiEvent)
    ensures IsNoteOn(e) <==> 0x90 <= e.status as int <= 0x9F && e.vel as int > 0
  {
    (e.status & 0xF0) == 0x90 && e.vel > 0
  }

  /** The voice a note-on spawns from sample `s` for a group on bus `output` with choke id `chokeGroup`. */
  function Spawn(s: Sample, output: int, chokeGroup: int, vel: bv8): (v: Voice)
    requires WellFormed(s)
    ensures VoiceOk(v) && v.pos == 0 && v.sample == Some(s)
    ensures v.length == |s.dataL| % U32
    ensures |s.dataL| < U32 ==> v.length == |s.dataL|
    ensures v.output == output && v.chokeGroup == chokeGroup && v.velocity == Velocity(vel)
  {
    Voice(Some(s), 0, |s.dataL| % U32, output, Velocity(vel), chokeGroup)
  }

  /** The pool after a note-on spawns a voice: the choke removal, then the admission of the new
      voice; the pool invariant is kept. */
  function Spawned(vs: seq<Voice>, s: Sample, output: int, chokeGroup: int, vel: bv8): (r: seq<Voice>)
    requires PoolOk(vs) && WellFormed(s)
    ensures PoolOk(r)
    ensures |r| > 0 && r[|r| - 1] == Spawn(s, output, chokeGroup, vel)
  {
    var c := Choke(vs, chokeGroup);
    var r := Admit(c, Spawn(s, output, chokeGroup, vel));
    assert forall w | w in r :: w in c || w == Spawn(s, output, chokeGroup, vel) by {
      if |c| >= MAX_VOICES {
        assert forall w | w in c[1..] :: w in c;
      }
    }
    r
  }

  /** The state the MIDI part of a block works on: the note -> group bank and the voice pool. */
  datatype KitState = KitState(bank: map<int, GroupState>, voices: seq<Voice>)

  predicate BankOk(bank: map<int, GroupState>)
  {
    forall k | k in bank :: GroupOk(bank[k])
  }

  /** The pool invariant: at most MAX_VOICES voices, each keeping the voice invariant. */
  predicate PoolOk(vs: seq<Voice>)
  {
    |vs| <= MAX_VOICES && forall v | v in vs :: VoiceOk(v)
  }

  predicate KitOk(k: KitState)
  {
    BankOk(k.bank) && PoolOk(k.voices)
  }

  /** One MIDI event: a note-on for a known note asks its group for the next sample; a non-empty
      sample chokes the group's choke id, and the new voice is admitted to the pool. */
  function Step(k: KitState, e: MidiEvent): (r: KitState)
    requires KitOk(k)
    ensures KitOk(r)
    ensures r.bank.Keys == k.bank.Keys
  {
    var note := e.note as int;
    if !IsNoteOn(e) || note !in k.bank then k
    else
      var g := k.bank[note];
      var p := Pick(g);
      if p.0.Some? && |p.0.value.dataL| > 0 then
        KitState(k.bank[note := p.1], Spawned(k.voices, p.0.value, g.output, g.chokeGroup, e.vel))
      else
        KitState(k.bank[note := p.1], k.voices)
  }

  /** The events of a block, applied in arrival order. */
  function StepAll(k: KitState, events: seq<MidiEvent>): (r: KitState)
    requires KitOk(k)
    ensures KitOk(r)
    ensures r.bank.Keys == k.bank.Keys
    decreases |events|
  {
    if |events| == 0 then k else Step(StepAll(k, events[..|events| - 1]), events[|events| - 1])
  }

  /** A block of events is dispatched one event after the other: dispatching it in two parts
      gives the same state as dispatching it whole. */
  lemma {:induction false} StepAllAppend(k: KitState, e1: seq<MidiEvent>, e2: seq<MidiEvent>)
    requires KitOk(k)
    ensures StepAll(k, e1 + e2) == StepAll(StepAll(k, e1), e2)
    decreases |e2|
  {
    if |e2| == 0 {
      assert e1 + e2 == e1;
    } else {
      var e2', x := e2[..|e2| - 1], e2[|e2| - 1];
      calc {
        StepAll(k, e1 + e2);
        { assert (e1 + e2)[..|e1 + e2| - 1] == e1 + e2' && (e1 + e2)[|e1 + e2| - 1] == x; }
        Step(StepAll(k, e1 + e2'), x);
        { StepAllAppend(k, e1, e2'); }
        Step(StepAll(StepAll(k, e1), e2'), x);
        StepAll(StepAll(k, e1), e2);
      }
    }
  }

  /** A block holding no note-on with positive velocity for a note of the bank changes neither
      the bank nor the pool. */
  lemma {:induction false} StepAllIgnores(k: KitState, events: seq<MidiEvent>)
    requires KitOk(k)
    requires forall i | 0 <= i < |events| :: !IsNoteOn(events[i]) || events[i].note as int !in k.bank
    ensures StepAll(k, events) == k
    decreases |events|
  {
    if |events| > 0 {
      var events', x := events[..|events| - 1], events[|events| - 1];
      assert forall i | 0 <= i < |events'| :: events'[i] == events[i];
      StepAllIgnores(k, events');
      StepIgnores(k, x);
    }
  }

  /** Anything but a note-on with positive velocity for a note of the bank changes nothing. */
  lemma StepIgnores(k: KitState, e: MidiEvent)
    requires KitOk(k)
    requires !IsNoteOn(e) || e.note as int !in k.bank
    ensures Step(k, e) == k
  {
  }

  /** A note-on for a known note advances that note's cursor once, and no other group changes,
      whether or not a voice results. */
  lemma StepAdvancesCursor(k: KitState, e: MidiEvent)
    requires KitOk(k) && IsNoteOn(e) && e.note as int in k.bank
    ensures Step(k, e).bank == k.bank[e.note as int := Pick(k.bank[e.note as int]).1]
  {
  }

  /** Proof step of `HandleEvent`: `Step`'s note-on branch for a known note, split into its effect
      on the bank and on the pool. */
  lemma StepParts(k: KitState, e: MidiEvent)
    requires KitOk(k) && IsNoteOn(e) && e.note as int in k.bank
    ensures var g := k.bank[e.note as int];
            var p := Pick(g);
            && Step(k, e).bank == k.bank[e.note as int := p.1]
            && Step(k, e).voices == if p.0.Some? && |p.0.value.dataL| > 0
                                    then Spawned(k.voices, p.0.value, g.output, g.chokeGroup, e.vel)
                                    else k.voices
  {
  }

  /** An empty group, or an empty sample at the cursor, spawns nothing: the pool is unchanged. */
  lemma StepWithoutSample(k: KitState, e: MidiEvent)
    requires KitOk(k) && IsNoteOn(e) && e.note as int in k.bank
    requires var g := k.bank[e.note as int];
             |g.samples| == 0 || |g.samples[g.cursor].dataL| == 0
    ensures Step(k, e).voices == k.voices
  {
  }

  /** A note-on whose group hands out a non-empty sample: the new voice, last in the pool, starts
      at 0, spans the sample, carries the group's bus and choke id and a gain in [0, 1]; before it
      stand the choke survivors in their old order, less the oldest if the pool was full; with a
      positive choke id no other voice of that id remains, and with id 0 no voice is choked. */
  lemma StepSpawns(k: KitState, e: MidiEvent)
    requires KitOk(k) && IsNoteOn(e) && e.note as int in k.bank
    requires var g := k.bank[e.note as int];
             |g.samples| > 0 && |g.samples[g.cursor].dataL| > 0
    ensures var g := k.bank[e.note as int];
            var s := g.samples[g.cursor];
            var r := Step(k, e).voices;
            var c := Choke(k.voices, g.chokeGroup);
            && |r| > 0
            && r[|r| - 1] == Voice(Some(s), 0, |s.dataL| % U32, g.output, Velocity(e.vel), g.chokeGroup)
            && 0.0 <= r[|r| - 1].velocity <= 1.0
            && (|s.dataL| < U32 ==> r[|r| - 1].length == |s.dataL|)
            && r[..|r| - 1] == (if |c| < MAX_VOICES then c else c[1..])
            && (g.chokeGroup > 0 ==> forall i | 0 <= i < |r| - 1 :: r[i].chokeGroup != g.chokeGroup)
            && (g.chokeGroup <= 0 ==> r[..|r| - 1] == if |k.voices| < MAX_VOICES then k.voices else k.voices[1..])
  {
    var g := k.bank[e.note as int];
    var s := g.samples[g.cursor];
    var r := Step(k, e).voices;
    var c := Choke(k.voices, g.chokeGroup);
    assert r == Admit(c, Spawn(s, g.output, g.chokeGroup, e.vel));
    if g.chokeGroup > 0 {
      forall i | 0 <= i < |r| - 1
        ensures r[i].chokeGroup != g.chokeGroup
      {
        assert r[i] in r[..|r| - 1];
        if |c| < MAX_VOICES {
          assert r[i] in c;
        } else {
          assert r[i] in c[1..];
        }
      }
    }
  }
}
