/** The plugin instance: its note -> group bank, its voice pool and its ports, and the LV2 entry
    points that connect a port and run one block. */
module Plugin {
  import opened KitTypes
  import opened RoundRobin
  import opened VoicePool
  import opened Mixdown

  /** What a host connects to a port: nothing (a null pointer), the MIDI atom sequence of the
      block, or a float buffer. */
  datatype PortBuffer = Null | Atoms(events: seq<MidiEvent>) | Audio(frames: array<real>)

  /** The float buffers connected among the output ports `ports`. */
  ghost function BuffersOf(ports: seq<PortBuffer>): set<array<real>>
  {
    set b | 0 <= b < |ports| && ports[b].Audio? :: ports[b].frames
  }

  /** The twelve output ports of a block of `n` frames: every connected buffer holds at least the
      block, and no two ports share a buffer. */
  predicate Writable(ports: seq<PortBuffer>, n: nat)
  {
    && |ports| == NUM_OUTPUTS
    && (forall b | 0 <= b < |ports| && ports[b].Audio? :: ports[b].frames.Length >= n)
    && (forall b1, b2 | 0 <= b1 < b2 < |ports| && ports[b1].Audio? && ports[b2].Audio? ::
          ports[b1].frames != ports[b2].frames)
  }

  /** The bank and pool once the MIDI input of a block has been dispatched: its events in arrival
      order when the port is connected, nothing otherwise. */
  function Triggered(k: KitState, midi: PortBuffer): (r: KitState)
    requires KitOk(k)
    ensures KitOk(r) && r.bank.Keys == k.bank.Keys
  {
    if midi.Atoms? then StepAll(k, midi.events) else k
  }

  /** Zeroes the first `n` frames of every connected output. */
  method ClearOutputs(ports: seq<PortBuffer>, n: nat)
    requires Writable(ports, n)
    modifies BuffersOf(ports)
    ensures forall b, i | 0 <= b < NUM_OUTPUTS && ports[b].Audio? && 0 <= i < ports[b].frames.Length ::
              ports[b].frames[i] == if i < n then 0.0 else old(ports[b].frames[i])
  {
    var b := 0;
    while b < NUM_OUTPUTS
      invariant 0 <= b <= NUM_OUTPUTS
      invariant forall c, i | 0 <= c < NUM_OUTPUTS && ports[c].Audio? && 0 <= i < ports[c].frames.Length ::
                  ports[c].frames[i] == if c < b && i < n then 0.0 else old(ports[c].frames[i])
    {
      if ports[b].Audio? {
        var buf := ports[b].frames;
        assert buf in BuffersOf(ports);
        forall i | 0 <= i < n {
          buf[i] := 0.0;
        }
      }
      b := b + 1;
    }
  }

  /** Adds `x` to frame `i` of output `b`; no other frame of any output changes. */
  method AddInto(ports: seq<PortBuffer>, b: int, i: nat, x: real)
    requires Writable(ports, 0)
    requires 0 <= b < NUM_OUTPUTS && ports[b].Audio? && i < ports[b].frames.Length
    modifies BuffersOf(ports)
    ensures forall c, j | 0 <= c < NUM_OUTPUTS && ports[c].Audio? && 0 <= j < ports[c].frames.Length ::
              ports[c].frames[j] == old(ports[c].frames[j]) + (if c == b && j == i then x else 0.0)
  {
    var buf := ports[b].frames;
    assert buf in BuffersOf(ports);
    buf[i] := buf[i] + x;
  }

  /** Renders frame `i` of a block for voice `v`, whose position then is `v.pos + i`: the left
      (or mono) value into its bus, the right value into the next bus when stereo, each only
      when that bus is an output with a buffer connected. */
  method RenderFrame(ports: seq<PortBuffer>, v: Voice, i: nat, n: nat)
    requires Writable(ports, n)
    requires VoiceOk(v) && Playable(v) && i < n && v.pos + i < v.length
    modifies BuffersOf(ports)
    ensures forall b, j | 0 <= b < NUM_OUTPUTS && ports[b].Audio? && 0 <= j < ports[b].frames.Length ::
              ports[b].frames[j] == old(ports[b].frames[j]) + (if j == i then Contribution(v, b, j, n) else 0.0)
  {
    var s := v.sample.value;
    var xL, xR := 0.0, 0.0;
    if 0 <= v.output < NUM_OUTPUTS && ports[v.output].Audio? {
      xL := s.dataL[v.pos + i] * v.velocity;
      AddInto(ports, v.output, i, xL);
    }
    label Left:
    if s.isStereo && v.output >= 0 && v.output + 1 < NUM_OUTPUTS && ports[v.output + 1].Audio? {
      xR := s.dataR[v.pos + i] * v.velocity;
      AddInto(ports, v.output + 1, i, xR);
    }
    forall b, j | 0 <= b < NUM_OUTPUTS && ports[b].Audio? && 0 <= j < ports[b].frames.Length
      ensures ports[b].frames[j] == old(ports[b].frames[j]) + (if j == i then Contribution(v, b, j, n) else 0.0)
    {
      assert ports[b].frames[j] == old@Left(ports[b].frames[j]) + (if b == v.output + 1 && j == i then xR else 0.0);
      assert old@Left(ports[b].frames[j]) == old(ports[b].frames[j]) + (if b == v.output && j == i then xL else 0.0);
      if j == i {
        assert i < Frames(v, n);
        if b == v.output {
          assert Contribution(v, b, j, n) == xL;
        } else if b == v.output + 1 {
          assert Contribution(v, b, j, n) == xR;
        } else {
          assert Contribution(v, b, j, n) == 0.0;
        }
      }
    }
  }

  /** Renders one playable voice into the outputs for up to `n` frames, returning it advanced. */
  method RenderVoice(ports: seq<PortBuffer>, v: Voice, n: nat) returns (w: Voice)
    requires Writable(ports, n)
    requires VoiceOk(v) && Playable(v)
    modifies BuffersOf(ports)
    ensures w == Advanced(v, n)
    ensures forall b, i | 0 <= b < NUM_OUTPUTS && ports[b].Audio? && 0 <= i < ports[b].frames.Length ::
              ports[b].frames[i] == old(ports[b].frames[i]) + Contribution(v, b, i, n)
  {
    w := v;
    var i := 0;
    while i < n && w.pos < w.length
      invariant 0 <= i <= n
      invariant w == v.(pos := v.pos + i) && w.pos <= w.length
      invariant forall b, j | 0 <= b < NUM_OUTPUTS && ports[b].Audio? && 0 <= j < ports[b].frames.Length ::
                  ports[b].frames[j] == old(ports[b].frames[j]) + (if j < i then Contribution(v, b, j, n) else 0.0)
    {
      RenderFrame(ports, v, i, n);
      w := w.(pos := w.pos + 1);
      i := i + 1;
    }
  }

  /** The frames of every output port as values, empty for a port without a buffer. */
  ghost function Snapshot(ports: seq<PortBuffer>): (r: seq<seq<real>>)
    reads BuffersOf(ports)
    ensures |r| == |ports|
    ensures forall b | 0 <= b < |ports| && ports[b].Audio? :: r[b] == ports[b].frames[..]
  {
    seq(|ports|, b reads BuffersOf(ports) =>
      if 0 <= b < |ports| && ports[b].Audio? then
        assert ports[b].frames in BuffersOf(ports); ports[b].frames[..]
      else [])
  }

  /** Proof step of `MixVoice`: `SilentVoice` lifted to the output buffers. A voice that cannot
      play leaves the outputs holding `base` plus the mix of the voices before it. */
  lemma MixesSilentVoice(ports: seq<PortBuffer>, base: seq<seq<real>>, done: seq<Voice>, v: Voice, n: nat)
    requires |ports| == NUM_OUTPUTS && |base| == NUM_OUTPUTS
    requires forall w | w in done :: VoiceOk(w)
    requires VoiceOk(v) && !Playable(v)
    requires forall b | 0 <= b < NUM_OUTPUTS && ports[b].Audio? :: |base[b]| == ports[b].frames.Length
    requires forall b, i | 0 <= b < NUM_OUTPUTS && ports[b].Audio? && 0 <= i < ports[b].frames.Length ::
               ports[b].frames[i] == base[b][i] + MixAt(done, b, i, n)
    ensures forall b, i | 0 <= b < NUM_OUTPUTS && ports[b].Audio? && 0 <= i < ports[b].frames.Length ::
              ports[b].frames[i] == base[b][i] + MixAt(done + [v], b, i, n)
  {
    SilentVoice(done, v, n);
  }

  /** One step of the mixdown over the voice at `j` of the pool `vs`: a voice that cannot play is
      erased; any other is rendered, then erased if it reached its length and kept, advanced,
      otherwise. The outputs, which held `base` plus the mix of the voices `done`, then hold
      `base` plus the mix of `done` and this voice. */
  method MixVoice(ports: seq<PortBuffer>, vs: seq<Voice>, j: nat, n: nat, ghost base: seq<seq<real>>, ghost done: seq<Voice>)
    returns (vs': seq<Voice>, kept: bool)
    requires Writable(ports, n)
    requires j < |vs| && VoiceOk(vs[j]) && |base| == NUM_OUTPUTS
    requires forall v | v in done :: VoiceOk(v)
    requires forall b | 0 <= b < NUM_OUTPUTS && ports[b].Audio? :: |base[b]| == ports[b].frames.Length
    requires forall b, i | 0 <= b < NUM_OUTPUTS && ports[b].Audio? && 0 <= i < ports[b].frames.Length ::
               ports[b].frames[i] == base[b][i] + MixAt(done, b, i, n)
    modifies BuffersOf(ports)
    ensures kept == !Finishes(vs[j], n)
    ensures kept ==> vs' == vs[j := Advanced(vs[j], n)]
    ensures !kept ==> vs' == vs[..j] + vs[j + 1..]
    ensures forall b, i | 0 <= b < NUM_OUTPUTS && ports[b].Audio? && 0 <= i < ports[b].frames.Length ::
              ports[b].frames[i] == base[b][i] + MixAt(done + [vs[j]], b, i, n)
  {
    var v := vs[j];
    if v.sample.Some? && |v.sample.value.dataL| > 0 {
      var w := RenderVoice(ports, v, n);
      MixAtAppend(done, v, n);
      if w.pos >= w.length {
        vs', kept := vs[..j] + vs[j + 1..], false;
      } else {
        vs', kept := vs[j := w], true;
      }
    } else {
      MixesSilentVoice(ports, base, done, v, n);
      vs', kept := vs[..j] + vs[j + 1..], false;
    }
  }

  /** The mixdown: every voice of the pool `vs`, in pool order, is rendered into the outputs and
      erased in place when it finished; the pool that remains is returned. */
  method MixPool(ports: seq<PortBuffer>, vs: seq<Voice>, n: nat) returns (vs': seq<Voice>)
    requires Writable(ports, n)
    requires PoolOk(vs)
    modifies BuffersOf(ports)
    ensures vs' == Survivors(vs, n)
    ensures forall b, i | 0 <= b < NUM_OUTPUTS && ports[b].Audio? && 0 <= i < ports[b].frames.Length ::
              ports[b].frames[i] == old(ports[b].frames[i]) + MixAt(vs, b, i, n)
  {
    ghost var base := Snapshot(ports);
    vs' := vs;
    ghost var k := 0;
    var j := 0;
    while j < |vs'|
      invariant 0 <= k <= |vs|
      invariant forall v | v in vs[..k] :: VoiceOk(v)
      invariant vs' == Survivors(vs[..k], n) + vs[k..]
      invariant j == |Survivors(vs[..k], n)|
      invariant forall b | 0 <= b < NUM_OUTPUTS && ports[b].Audio? :: |base[b]| == ports[b].frames.Length
      invariant forall b, i | 0 <= b < NUM_OUTPUTS && ports[b].Audio? && 0 <= i < ports[b].frames.Length ::
                  ports[b].frames[i] == base[b][i] + MixAt(vs[..k], b, i, n)
      decreases |vs| - k
    {
      ghost var before := vs';
      assert vs'[j] == vs[k];
      PrefixOk(vs, k);
      var kept;
      vs', kept := MixVoice(ports, vs', j, n, base, vs[..k]);
      MixdownStep(vs, k, n, before, vs');
      if kept {
        j := j + 1;
      }
      k := k + 1;
    }
    assert vs[..k] == vs;
  }

  class MyDrumKit {
    /** MIDI note -> round-robin group; the groups are fixed at setup, only their cursors move. */
    const rrGroups: map<int, RRGroup>
    var voices: seq<Voice>
    /** The twelve output ports, in port order 1..12. */
    const outputs: array<PortBuffer>
    var midiIn: PortBuffer

    /** The value of every group of the bank. */
    ghost function Bank(): map<int, GroupState>
      reads rrGroups.Values
    {
      map k | k in rrGroups :: rrGroups[k].State()
    }

    ghost function Kit(): KitState
      reads this`voices, rrGroups.Values
    {
      KitState(Bank(), voices)
    }

    /** Twelve outputs, each port holding data of its own kind. */
    ghost predicate PortsOk()
      reads this`midiIn, outputs
    {
      && outputs.Length == NUM_OUTPUTS
      && !midiIn.Audio?
      && (forall b | 0 <= b < outputs.Length :: !outputs[b].Atoms?)
    }

    /** One group object per note, and every group and voice well formed. */
    ghost predicate KitValid()
      reads this`voices, rrGroups.Values
    {
      && (forall k1, k2 | k1 in rrGroups && k2 in rrGroups && k1 != k2 :: rrGroups[k1] != rrGroups[k2])
      && KitOk(Kit())
    }

    ghost predicate Valid()
      reads this, outputs, rrGroups.Values
    {
      PortsOk() && KitValid()
    }

    /** A new instance over the groups set up for it: no voices, every port unconnected. */
    constructor (groups: map<int, RRGroup>)
      requires forall k1, k2 | k1 in groups && k2 in groups && k1 != k2 :: groups[k1] != groups[k2]
      requires forall k | k in groups :: groups[k].Valid()
      ensures Valid()
      ensures rrGroups == groups && voices == [] && midiIn == Null
      ensures fresh(outputs) && forall b | 0 <= b < outputs.Length :: outputs[b] == Null
    {
      rrGroups := groups;
      voices := [];
      outputs := new PortBuffer[NUM_OUTPUTS](_ => Null);
      midiIn := Null;
    }

    /** Port 0 is the MIDI input, ports 1..12 are the outputs 0..11; any other port is ignored. */
    method ConnectPort(port: nat, data: PortBuffer)
      requires Valid()
      requires port == 0 ==> !data.Audio?
      requires 1 <= port <= NUM_OUTPUTS ==> !data.Atoms?
      modifies this`midiIn, outputs
      ensures Valid()
      ensures port == 0 ==> midiIn == data && outputs[..] == old(outputs[..])
      ensures 1 <= port <= NUM_OUTPUTS ==> midiIn == old(midiIn) && outputs[..] == old(outputs[..])[port - 1 := data]
      ensures port > NUM_OUTPUTS ==> midiIn == old(midiIn) && outputs[..] == old(outputs[..])
    {
      if port == 0 {
        midiIn := data;
      } else if 1 <= port <= NUM_OUTPUTS {
        outputs[port - 1] := data;
      }
    }

    /** The group lookup of a note-on for a known note: asks that note's group for its next
        sample; only that group's cursor moves. */
    method NextSample(note: int) returns (sample: Option<Sample>)
      requires KitValid() && note in rrGroups
      modifies rrGroups[note]
      ensures KitValid()
      ensures sample == Pick(old(Bank())[note]).0
      ensures Bank() == old(Bank())[note := Pick(old(Bank())[note]).1]
    {
      ghost var b0 := Bank();
      var group := rrGroups[note];
      assert b0[note] == group.State();
      sample := group.GetNextSample();
      forall k | k in rrGroups
        ensures Bank()[k] == b0[note := group.State()][k]
      {
        if k != note {
          assert rrGroups[k] != group;
        }
      }
    }

    /** One MIDI event: the note-on dispatch. */
    method HandleEvent(e: MidiEvent)
      requires Valid()
      modifies this`voices, rrGroups.Values
      ensures Valid()
      ensures Kit() == Step(old(Kit()), e)
    {
      ghost var k0 := Kit();
      var status := e.status & 0xF0;
      var note := e.note as int;
      var vel := e.vel;
      if status != 0x90 || vel == 0 || note !in rrGroups {
        StepIgnores(k0, e);
        return;
      }
      var sample := NextSample(note);
      StepParts(k0, e);
      var group := rrGroups[note];
      if sample.Some? && |sample.value.dataL| > 0 {
        Trigger(sample.value, group.output, group.chokeGroup, vel);
      }
    }

    /** The pool side of a note-on that produced a non-empty sample `s`: a positive choke id
        removes every voice of that id, the new voice is appended, and the oldest voice is
        erased when the pool then exceeds MAX_VOICES. */
    method Trigger(s: Sample, output: int, chokeGroup: int, vel: bv8)
      requires PoolOk(voices) && WellFormed(s)
      modifies this`voices
      ensures voices == Spawned(old(voices), s, output, chokeGroup, vel)
    {
      if chokeGroup > 0 {
        voices := Without(voices, chokeGroup);
      }
      ghost var c := voices;
      assert c == Choke(old(voices), chokeGroup);
      var velocity := (vel as int) as real / 127.0;
      if velocity < 0.0 {
        velocity := 0.0;
      }
      if velocity > 1.0 {
        velocity := 1.0;
      }
      assert velocity == Velocity(vel);
      var v := Voice(Some(s), 0, |s.dataL| % U32, output, velocity, chokeGroup);
      assert v == Spawn(s, output, chokeGroup, vel);
      voices := voices + [v];
      if |voices| > MAX_VOICES {
        voices := voices[1..];
      }
      assert voices == Admit(c, v);
    }

    /** The MIDI events of a block, dispatched in arrival order. */
    method ProcessEvents(events: seq<MidiEvent>)
      requires Valid()
      modifies this`voices, rrGroups.Values
      ensures Valid()
      ensures Kit() == StepAll(old(Kit()), events)
    {
      var i := 0;
      while i < |events|
        invariant 0 <= i <= |events|
        invariant Valid()
        invariant Kit() == StepAll(old(Kit()), events[..i])
      {
        HandleEvent(events[i]);
        assert events[..i + 1][..i] == events[..i];
        i := i + 1;
      }
      assert events[..|events|] == events;
    }

    /** The mixdown of the pool into the outputs; the bank is left as it is. */
    method Mixdown(ports: seq<PortBuffer>, n: nat)
      requires KitValid() && Writable(ports, n)
      modifies this`voices, BuffersOf(ports)
      ensures KitValid()
      ensures Kit() == KitState(old(Bank()), Survivors(old(voices), n))
      ensures forall b, i | 0 <= b < NUM_OUTPUTS && ports[b].Audio? && 0 <= i < ports[b].frames.Length ::
                ports[b].frames[i] == old(ports[b].frames[i]) + MixAt(old(voices), b, i, n)
    {
      voices := MixPool(ports, voices, n);
    }

    /** One block of `n` frames: clear the outputs, dispatch the MIDI input, mix the pool. Every
        connected output then holds, in its first `n` frames, the mix of the pool as the MIDI
        input left it, and the pool holds the voices that survive the block. */
    method Run(n: nat)
      requires Valid() && Writable(outputs[..], n)
      modifies this`voices, rrGroups.Values, BuffersOf(outputs[..])
      ensures Valid()
      ensures var mid := Triggered(old(Kit()), midiIn);
              Kit() == KitState(mid.bank, Survivors(mid.voices, n))
      ensures forall b, i | 0 <= b < NUM_OUTPUTS && outputs[b].Audio? && 0 <= i < outputs[b].frames.Length ::
                outputs[b].frames[i] ==
                  if i < n then MixAt(Triggered(old(Kit()), midiIn).voices, b, i, n) else old(outputs[b].frames[i])
      ensures Triggered(old(Kit()), midiIn).voices == [] ==>
                forall b, i | 0 <= b < NUM_OUTPUTS && outputs[b].Audio? && 0 <= i < n && i < outputs[b].frames.Length ::
                  outputs[b].frames[i] == 0.0
    {
      ghost var k0 := Kit();
      var ports := outputs[..];
      ClearOutputs(ports, n);
      assert Kit() == k0;
      if midiIn.Atoms? {
        ProcessEvents(midiIn.events);
      }
      ghost var mid := Kit();
      assert mid == Triggered(k0, midiIn);
      Mixdown(ports, n);
      assert outputs[..] == ports;
    }
  }
}
