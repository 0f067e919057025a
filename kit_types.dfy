/** Entities shared by the drum-kit engine: samples, voices and MIDI note events. */
module KitTypes {

  /** Number of audio output ports of the plugin (NUM_OUTPUTS). */
  const NUM_OUTPUTS: int := 12

  /** Capacity of the voice pool (MAX_VOICES). */
  const MAX_VOICES: int := 64

  /** 2^32: a `uint32_t` field that is assigned a larger count keeps it modulo this. */
  const U32: int := 0x1_0000_0000

  datatype Option<T> = None | Some(value: T)

  /** A decoded sample: the left (or mono) channel, the right channel (empty unless stereo),
      the channel count and sample rate reported by the loader, and the stereo flag. */
  datatype Sample = Sample(dataL: seq<real>, dataR: seq<real>, channels: int, sampleRate: int, isStereo: bool)

  /** What the loader guarantees of every sample it registers: a stereo sample has a right
      channel exactly as long as its left channel. */
  predicate WellFormed(s: Sample)
  {
    s.isStereo ==> |s.dataR| == |s.dataL|
  }

  /** One playing instance of a sample. `sample` is None for the null sample pointer. */
  datatype Voice = Voice(sample: Option<Sample>, pos: nat, length: nat, output: int, velocity: real, chokeGroup: int)

  /** The invariant every voice in the pool keeps: its position is within its length, the length
      fits a `uint32_t` and does not exceed the left channel, and its gain lies in [0, 1]. */
  predicate VoiceOk(v: Voice)
  {
    && v.pos <= v.length < U32
    && 0.0 <= v.velocity <= 1.0
    && (v.sample.Some? ==> v.length <= |v.sample.value.dataL| && WellFormed(v.sample.value))
  }

  /** A voice the mixdown renders; every other voice is erased on sight. */
  predicate Playable(v: Voice)
  {
    v.sample.Some? && |v.sample.value.dataL| > 0
  }

  /** The three bytes of a MIDI channel message: status, note number, velocity. */
  datatype MidiEvent = MidiEvent(status: bv8, note: bv8, vel: bv8)
}
