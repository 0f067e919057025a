# MyDrumKit voice engine in Dafny

This is a model of the engine inside MyDrumKit, an LV2 drum-sampler plugin, with proofs
about it. The model covers six parts.

- **Note → group table.** Each MIDI note maps to a round-robin group. A group holds up
  to four samples, a rotation cursor, an output bus and a choke id.
- **Note-on dispatch.** A note-on (status `0x9n`, velocity > 0) for a known note takes
  the next sample of its group. If the sample is non-empty:
  - voices sharing the group's positive choke id are cut;
  - a new voice is appended with gain `vel / 127`, clamped to [0, 1];
  - the oldest voice goes if the pool exceeds 64 voices.
- **Mixdown of a block.** The twelve outputs are cleared. Each voice then adds
  `sample * gain` to its bus (and, for a stereo sample, its right channel to the next
  bus) for as many frames as the block and the sample allow. Finished voices are erased
  in place.
- **Ports.** Port 0 is the MIDI input; ports 1..12 are the outputs 0..11.
- **Path joining.** The bundle path and a sample's relative path are joined into one
  file path.
- **Kit layout.** Setup registers twenty drums, each with four files. Every hi-hat note
  gets choke id 1.

| Module (file) | Contents |
|---|---|
| `KitTypes` (`kit_types.dfy`) | Constants, samples, voices, MIDI events. |
| `RoundRobin` (`round_robin.dfy`) | The group as a value (`Pick`) and as the `RRGroup` class, whose cursor is updated in place. |
| `VoicePool` (`voice_pool.dfy`) | Choke, admission with eviction, and the effect of one event (`Step`) or of a block's events (`StepAll`). |
| `Mixdown` (`mixdown.dfy`) | What each voice adds to each bus (`MixAt`) and which voices survive a block (`Survivors`). |
| `Plugin` (`plugin.dfy`) | The `MyDrumKit` class: output buffers as `array<real>`, the pool as a `seq` field, `ConnectPort` and `Run`. Each method is proved against the functions above. |
| `Paths` (`paths.dfy`) | Path joining. |
| `KitLayout` (`kit_layout.dfy`) | The drum table and the bank that setup builds. The WAV decoder is a parameter. |

All cited lines are in `mydrumkit.cpp`.

## Model

| member | source | states |
|---|---|---|
| RoundRobin.Pick | mydrumkit.cpp:41-46 | An empty group hands out nothing and is unchanged. Otherwise the sample at the cursor is handed out. Samples, output and choke id are kept, and the group invariant holds. |
| RoundRobin.PicksRotate | mydrumkit.cpp:41-46 | Within one lap, the i-th selection hands out the sample i places past the cursor (wrapping). k selections move the cursor k places round the ring. |
| RoundRobin.FullCycle | mydrumkit.cpp:41-46 | Over as many selections as the group has samples, they are handed out in rotated assignment order starting at the cursor. The group returns to its starting state. |
| RoundRobin.FreshGroupCycle | mydrumkit.cpp:39-46 | A group whose cursor is at its initial 0 hands its samples out in exactly the order they were added. |
| RoundRobin.FullCyclePermutes | mydrumkit.cpp:41-46 | A full lap hands out every sample of the group exactly as often as it occurs in the group. |
| RoundRobin.RRGroup.constructor | mydrumkit.cpp:39 | A new group has its cursor at 0 and meets the group invariant. |
| RoundRobin.RRGroup.GetNextSample | mydrumkit.cpp:41-46 | Returns null exactly for an empty group. Otherwise returns the sample at the old cursor and sets the cursor to (cursor + 1) mod size. The result and new state are exactly `Pick` of the old state. |
| VoicePool.Without | mydrumkit.cpp:398-405 | No voice with the choke id remains. Every remaining voice was in the pool. |
| VoicePool.WithoutKeepsOrder | mydrumkit.cpp:398-405 | The choke removal is a stable filter. The survivors appear at increasing old positions, and a voice survives exactly when its choke id differs. |
| VoicePool.Choke | mydrumkit.cpp:398-405 | With a positive choke id, no voice of that id remains. With id 0 the pool is unchanged. |
| VoicePool.Admit | mydrumkit.cpp:417-422 | The new voice is appended. The front voice is evicted exactly when the pool already held 64 voices, so the pool stays within 64. |
| VoicePool.AdmitManyKeepsNewest | mydrumkit.cpp:417-422 | Eviction is first-in-first-out. After any run of insertions the pool is the newest 64 voices (or all, if fewer) of old pool + new voices. |
| VoicePool.AdmitNewest | mydrumkit.cpp:417-422 | Admitting one voice into the newest 64 of a sequence of voices gives the newest 64 of the sequence with that voice appended. |
| VoicePool.OverflowEvictsOldest | mydrumkit.cpp:419-422 | Inserting 65 voices into an empty pool keeps exactly the last 64. |
| VoicePool.Velocity | mydrumkit.cpp:413-415 | The gain lies in [0, 1]. It equals vel/127 for vel ≤ 127 and is clamped to 1 above. |
| VoicePool.Spawn | mydrumkit.cpp:407-415 | The new voice starts at 0, spans the sample (length = frame count mod 2^32), and carries the group's bus and choke id and the clamped gain. |
| VoicePool.Spawned | mydrumkit.cpp:396-422 | After choke and admission, the pool invariant holds (≤ 64 voices, each well formed) and the new voice is last. |
| VoicePool.IsNoteOn | mydrumkit.cpp:386-390 | An event is a note-on exactly when its status byte lies in 0x90..0x9F (a note-on on any channel) and its velocity is positive. |
| VoicePool.Step | mydrumkit.cpp:386-425 | One event keeps the bank and pool invariants and the set of notes. |
| VoicePool.StepAll | mydrumkit.cpp:380-430 | A block's events, applied in arrival order, keep the bank and pool invariants and the set of notes. |
| VoicePool.StepAllAppend | mydrumkit.cpp:380-430 | Events are handled one at a time in arrival order: dispatching two runs of events one after the other equals dispatching their concatenation. |
| VoicePool.StepAllIgnores | mydrumkit.cpp:386-392 | A block whose events are all ignorable (not a note-on, zero velocity, or a note with no group) leaves the bank and the pool unchanged. |
| VoicePool.StepIgnores | mydrumkit.cpp:390-392 | A non-note-on, a zero velocity or an unknown note changes nothing. |
| VoicePool.StepAdvancesCursor | mydrumkit.cpp:391-394 | A note-on for a known note advances that group's cursor once, whether or not a voice results. No other group changes. |
| VoicePool.StepWithoutSample | mydrumkit.cpp:394-396 | An empty group, or an empty sample at the cursor, leaves the pool unchanged. |
| VoicePool.StepSpawns | mydrumkit.cpp:396-422 | For a non-empty sample: the last voice is the new one, with its exact fields. Before it stand the choke survivors in old order, less the oldest if the pool was full. No voice of a positive choke id remains, and id 0 chokes nothing. |
| Mixdown.Frames | mydrumkit.cpp:449 | A voice renders at most the block. It never passes its length, and it renders either the whole block or up to its end. |
| Mixdown.Advanced | mydrumkit.cpp:449-461 | After a block, the voice's position has moved by exactly its rendered frames. All other fields are unchanged. |
| Mixdown.Finishes | mydrumkit.cpp:436-466 | A playable voice is erased after a block exactly when at most the block's n frames remained before its length. |
| Mixdown.RoutesTo | mydrumkit.cpp:451-458 | A voice only ever writes an existing output. A mono voice, or one without a sample, writes exactly its own bus when that bus is an output. |
| Mixdown.Contribution | mydrumkit.cpp:449-458 | A voice adds nothing outside its rendered frames or its buses. At frame i it adds `dataL[pos+i]*gain` to its own bus, whether mono or stereo, and for a stereo voice `dataR[pos+i]*gain` to the next bus. |
| Mixdown.UnroutedBusIsSilent | mydrumkit.cpp:451-458 | A bus that no voice routes to stays silent. This covers unassigned buses and the bus after a mono voice's. |
| Mixdown.Survivors | mydrumkit.cpp:433-467 | No more voices than before. Every survivor is playable and strictly before its end. |
| Mixdown.MixdownStep | mydrumkit.cpp:463-466 | Erasing or advancing the voice at the loop position extends the survivors by one old voice and keeps the untouched rest. |
| Mixdown.SurvivorsKeepOrder | mydrumkit.cpp:433-467 | The erase is a stable filter. Survivors are the advanced voices at increasing old positions, and a voice survives exactly when it does not finish. |
| Mixdown.PlaysToTheEnd | mydrumkit.cpp:449-466 | A voice left alone renders exactly the frames from its position to its length across successive blocks, then leaves. |
| Mixdown.MixAt | mydrumkit.cpp:433-461 | No frame at or past the block length receives anything from the pool. |
| Mixdown.MixAtAppend | mydrumkit.cpp:433-461 | Mixing one more voice adds exactly its contribution to every bus and frame. |
| Mixdown.SilentVoice | mydrumkit.cpp:436-439 | A voice that cannot play adds nothing to any bus at any frame. |
| Plugin.ClearOutputs | mydrumkit.cpp:373-377 | The first n frames of every connected output become 0. Later frames are unchanged. |
| Plugin.AddInto | mydrumkit.cpp:452-457 | Exactly one frame of one output is raised by the given amount. Every other frame of every output is unchanged. |
| Plugin.RenderFrame | mydrumkit.cpp:450-460 | Frame i of every output is raised by exactly the voice's contribution there. Nothing else changes. |
| Plugin.RenderVoice | mydrumkit.cpp:449-461 | Every output frame is raised by the voice's contribution, and the voice returned is the advanced voice. |
| Plugin.MixVoice | mydrumkit.cpp:434-466 | One loop iteration. The voice is kept (advanced) exactly when it does not finish, otherwise erased in place. The outputs gain its contribution. |
| Plugin.MixPool | mydrumkit.cpp:433-467 | The pool becomes `Survivors` of the old pool, and every output frame gains exactly `MixAt` of the old pool. |
| Plugin.MyDrumKit.constructor | mydrumkit.cpp:70-74 | No voices, MIDI input and all twelve outputs unconnected. |
| Plugin.MyDrumKit.ConnectPort | mydrumkit.cpp:357-366 | Port 0 sets the MIDI input. Ports 1..12 set output port−1. Any other port changes nothing. |
| Plugin.MyDrumKit.NextSample | mydrumkit.cpp:391-394 | The note's group hands out exactly `Pick` of its state, and only that group's cursor moves. |
| Plugin.MyDrumKit.HandleEvent | mydrumkit.cpp:386-425 | The bank and pool after one event are exactly `Step` of the state before. |
| Plugin.MyDrumKit.Trigger | mydrumkit.cpp:396-422 | The pool becomes `Spawned`: choke of the group's id, then admission of the new voice. |
| Plugin.MyDrumKit.ProcessEvents | mydrumkit.cpp:380-430 | The bank and pool after the block's events are exactly `StepAll` of the state before. |
| Plugin.MyDrumKit.Mixdown | mydrumkit.cpp:433-467 | The bank is unchanged, the pool becomes `Survivors`, and each output frame gains `MixAt` of the old pool. |
| Plugin.MyDrumKit.Run | mydrumkit.cpp:369-467 | After one block, the first n frames of each connected output equal the mix of the pool as left by the MIDI input; later frames are unchanged. The bank is the one after dispatch, and the pool its survivors. When dispatch leaves no voices, the first n frames of every connected output are 0. |
| Paths.JoinPath | mydrumkit.cpp:78-85 | A null or empty bundle path yields the relative path. Otherwise the result is the bundle path, one '/', then the relative path, where the '/' is the bundle path's own last character when it already has one. |
| Paths.JoinTrailingSlash | mydrumkit.cpp:81-84 | A bundle path with or without a trailing '/' yields the same file path. |
| KitLayout.FileName | mydrumkit.cpp:214-218 | File k of a drum is exactly `samples/`, the drum's name, `_v1_r`, the digit k and `.wav`: 18 characters more than the name. |
| KitLayout.DecodedFiles | mydrumkit.cpp:214-218 | The decoded files of a drum are its round-robin files 1..k, in order: entry i is file i+1. |
| KitLayout.AddToGroup | mydrumkit.cpp:160-168 | An empty decoded sample changes nothing. Otherwise the note's group (created if absent) gets the sample appended and its output set; other notes are untouched. |
| KitLayout.Loaded | mydrumkit.cpp:163 | No more samples are kept than were decoded, and every kept sample has a non-empty left channel. |
| KitLayout.LoadedExactly | mydrumkit.cpp:160-168 | A sample is kept exactly when it is one of the decoded files and its left channel is not empty. |
| KitLayout.LoadedSnoc | mydrumkit.cpp:162-165 | One more file is kept, after the files kept before it, exactly when its left channel is not empty. |
| KitLayout.LoadedAppend | mydrumkit.cpp:160-168 | Keeping the loaded files is done in file order: the loaded files of two runs of files are those of the first run followed by those of the second. |
| KitLayout.LoadedAll | mydrumkit.cpp:163 | When every decoded sample is non-empty, all are kept. |
| KitLayout.RegisterFilesGroup | mydrumkit.cpp:160-168 | After a drum's files are registered, its group holds exactly its loaded files in order, with the drum's output. A drum whose files all fail to load gets no group. |
| KitLayout.SetChoke | mydrumkit.cpp:335-337 | The note's group gets the choke id, and is created empty when absent. Other groups are unchanged. |
| KitLayout.ChokeHiHats | mydrumkit.cpp:335-337 | After the assignments, all three hi-hat notes have a group, each with choke id 1. |
| KitLayout.ChokeHiHatsEffect | mydrumkit.cpp:335-337 | Exactly notes 42, 44 and 46 get choke id 1, and are created empty where absent. Every other group is unchanged. |
| KitLayout.BuiltBank | mydrumkit.cpp:214-337 | With distinct notes and well-formed decoding, every group meets the group invariant with cursor 0. Hi-hats have choke 1, others 0, and every drum's group is exactly its loaded files. |
| KitLayout.DrumsDistinct | mydrumkit.cpp:214-332 | No two drums of the table share a note. |
| KitLayout.SetupBank | mydrumkit.cpp:214-337 | For the real drum table: every group meets the invariant with cursor 0. Only table notes appear, and all hi-hats do. A drum has a group exactly when a file loads or it is a hi-hat, and that group is exactly its loaded files on its bus. |
| KitLayout.Setup | mydrumkit.cpp:214-337 | The bank that setup builds has a group for every hi-hat note, each with choke id 1. |
| KitLayout.SetupReady | mydrumkit.cpp:214-337 | The bank that setup builds, with an empty pool, meets the bank and pool invariants that dispatch and mixdown rely on. |
| KitLayout.DrumsRouted | mydrumkit.cpp:214-332 | Every drum's bus is an output. A stereo drum's right channel lands on an output too. |
| KitLayout.HiHatChokeGroup | mydrumkit.cpp:335-337 | The choked notes are exactly the closed, open and pedal hi-hats, all on bus 2. |
| KitLayout.MonoDrumsStayMono | mydrumkit.cpp:119-154 | A drum not loaded with stereo forced holds only mono samples after setup. |

## Left out

- The WAV decoder (lines 88-157, libsndfile) is a parameter. `KitLayout.LoaderOk` states what the model relies on: a stereo sample's right channel is as long as its left, and a sample is stereo only when stereo was asked for. Channel averaging, partial reads and the error messages are not modelled.
- instantiate's URID feature lookup, allocation failures, exceptions and logging (lines 171-212, 339-353) are left out. `KitLayout.Setup` builds the bank as a value. `Plugin.MyDrumKit.constructor` takes any groups that meet the group invariant, and `KitLayout.SetupReady` shows that the bank `Setup` builds meets it.
- The `cleanup` function, `extension_data`, the descriptor and `lv2_descriptor` are left out. They hold no engine logic.
- Plugin.MyDrumKit.Run: the `midi_event_urid != 0` test and the per-event type test are not modelled. The MIDI port delivers a sequence of already decoded MIDI events. Event timestamps are ignored, as in the source, and so is the unreachable `!msg` test.
- Plugin.MyDrumKit.Run: the source reads the MIDI buffer afresh on every call to `run`. In the model, the event sequence is fixed when port 0 is connected, so a host that delivers new events reconnects port 0 before each block.
- Plugin.MyDrumKit.Run: requires every connected output to hold at least `n` frames and no two outputs to share a buffer. The source writes through raw pointers and does not state either condition. Aliased outputs are not modelled.
- Plugin.MyDrumKit.ConnectPort: requires the MIDI port to receive MIDI data and the outputs to receive audio buffers. These are the host's duty in LV2; the source casts whatever pointer it is given.
- The `if (!self)` checks (lines 359, 371) are left out. An instance always exists in the model.
- Audio arithmetic uses exact reals rather than 32-bit floats, so rounding is not modelled. `VoicePool.Velocity` computes `vel / 127` exactly.
- `current_rr` and `pos` are modelled as unbounded naturals. The cursor stays below the group size and the position below the 32-bit length, so no wrap-around can occur. The 32-bit truncation of the length itself is modelled (`% 2^32`).
- The test for a null `dataL` pointer (lines 444-447) is left out. It cannot fire once the non-empty test at line 436 has passed.
- The voices refer to their samples by value (`Option<Sample>`), where the source uses pointers into the group. Group samples never change after setup, so these are the same samples.
- Plugin.MixPool: works on a copy of the pool, and `Plugin.MyDrumKit.Mixdown` writes the copy back. The source erases from the member vector in place; the order and contents are the same.
