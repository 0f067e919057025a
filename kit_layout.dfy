/** The kit set up at instantiation: which note plays which files, on which output, and the
    hi-hat choke group. Sample decoding is a parameter: `load(path, keepStereo)` stands for the
    decoder, and an empty left channel for a file that failed to load. */
module KitLayout {
  import opened KitTypes
  import opened RoundRobin
  import opened Paths
  import opened VoicePool

  /** One drum: its MIDI note, the stem of its file names, its output bus and whether its files
      are loaded in stereo (onto its bus and the next). */
  datatype Drum = Drum(note: int, name: string, output: int, stereo: bool)

  /** Every drum has this many round-robin files, numbered from 1. */
  const ROUND_ROBINS: nat := 4

  /** The choke id given to the three hi-hat notes. */
  const HIHAT_CHOKE: int := 1

  /** The drums in the order they are registered. */
  function Drums(): seq<Drum>
  {
    [ Drum(36, "kick_hit", 0, false),
      Drum(38, "snare_center", 1, false),
      Drum(40, "snare_rimshot", 1, false),
      Drum(37, "snare_sidestick", 1, false),
      Drum(42, "hihat_downclosed", 2, false),
      Drum(46, "hihat_downopen", 2, false),
      Drum(44, "hihat_pedal", 2, false),
      Drum(50, "racktom1_center", 3, false),
      Drum(48, "racktom2_center", 4, false),
      Drum(47, "racktom3_center", 5, false),
      Drum(45, "floortom1_center", 6, false),
      Drum(43, "floortom2_center", 7, false),
      Drum(41, "floortom3_center", 8, false),
      Drum(49, "crash1_edge", 9, true),
      Drum(57, "crash2_edge", 9, true),
      Drum(51, "ride_bow", 9, true),
      Drum(53, "ride_bell", 9, true),
      Drum(52, "china_edge", 9, true),
      Drum(55, "splash_edge", 9, true),
      Drum(39, "clap_multi", 11, false) ]
  }

  /** The notes whose groups are given the hi-hat choke id, in the order they are assigned. */
  function ChokedNotes(): seq<int>
  {
    [46, 42, 44]
  }

  /** The number of a round-robin file. */
  type FileIndex = k: int | 1 <= k <= ROUND_ROBINS witness 1

  /** The relative path of round-robin file `k` of the drum named `name`. */
  function FileName(name: string, k: FileIndex): (r: string)
    ensures |r| == |name| + 18 && r[..8] == "samples/" && r[8..8 + |name|] == name
    ensures r[8 + |name|..|r| - 5] == "_v1_r" && r[|r| - 5] as int == '0' as int + k && r[|r| - 4..] == ".wav"
  {
    "samples/" + name + "_v1_r" + [('0' as int + k) as char] + ".wav"
  }

  /** Round-robin file `k` of drum `d` as the decoder returns it: the file's path joined onto the
      bundle path, decoded in stereo when the drum is a stereo one. */
  function FileSample(bundlePath: Option<string>, load: (string, bool) -> Sample, d: Drum, k: FileIndex): Sample
  {
    load(JoinPath(bundlePath, FileName(d.name, k)), d.stereo)
  }

  /** Every round-robin file of every drum, as the decoder returns it. */
  function Files(bundlePath: Option<string>, load: (string, bool) -> Sample): (Drum, FileIndex) -> Sample
  {
    (d: Drum, k: FileIndex) => FileSample(bundlePath, load, d, k)
  }

  /** What the decoder guarantees: a stereo sample has both channels of equal length, and only a
      file loaded with stereo kept is stereo. */
  ghost predicate LoaderOk(load: (string, bool) -> Sample)
  {
    forall path, keepStereo :: WellFormed(load(path, keepStereo)) && (load(path, keepStereo).isStereo ==> keepStereo)
  }

  /** A group as a fresh map entry leaves it: no samples, cursor 0, output 0, no choke id. */
  const EmptyGroup: GroupState := GroupState([], 0, 0, 0)

  /** Registering a decoded sample for a note: a sample with an empty left channel is dropped;
      otherwise it is appended to the note's group, created on first use, whose output becomes
      `output`. */
  function AddToGroup(bank: map<int, GroupState>, note: int, s: Sample, output: int): (r: map<int, GroupState>)
    ensures r.Keys == if |s.dataL| == 0 then bank.Keys else bank.Keys + {note}
    ensures forall k | k in bank && k != note :: r[k] == bank[k]
    ensures |s.dataL| > 0 ==>
              var g := if note in bank then bank[note] else EmptyGroup;
              r[note] == g.(samples := g.samples + [s], output := output)
  {
    if |s.dataL| == 0 then bank
    else
      var g := if note in bank then bank[note] else EmptyGroup;
      bank[note := g.(samples := g.samples + [s], output := output)]
  }

  /** The decoded round-robin files 1..k of drum `d`, where `files(d, k)` is file `k` of `d`. */
  function Decoded(files: (Drum, FileIndex) -> Sample, d: Drum, k: nat): (r: seq<Sample>)
    requires k <= ROUND_ROBINS
    ensures |r| == k
    decreases k
  {
    if k == 0 then [] else Decoded(files, d, k - 1) + [files(d, k)]
  }

  /** Entry `i` of the decoded files of a drum is its file `i + 1`: the files are taken in order. */
  lemma {:induction false} DecodedFiles(files: (Drum, FileIndex) -> Sample, d: Drum, k: nat)
    requires k <= ROUND_ROBINS
    ensures forall i | 0 <= i < k :: Decoded(files, d, k)[i] == files(d, i + 1)
    decreases k
  {
    if k > 0 {
      DecodedFiles(files, d, k - 1);
    }
  }

  /** The samples of `ss` that loaded, that is whose left channel is not empty, in order. */
  function Loaded(ss: seq<Sample>): (r: seq<Sample>)
    ensures |r| <= |ss|
    ensures forall i | 0 <= i < |r| :: |r[i].dataL| > 0
    decreases |ss|
  {
    if |ss| == 0 then []
    else if |ss[|ss| - 1].dataL| == 0 then Loaded(ss[..|ss| - 1])
    else Loaded(ss[..|ss| - 1]) + [ss[|ss| - 1]]
  }

  /** Keeping the loaded files of two runs of files one after the other keeps them in file order. */
  lemma {:induction false} LoadedAppend(a: seq<Sample>, b: seq<Sample>)
    ensures Loaded(a + b) == Loaded(a) + Loaded(b)
    decreases |b|
  {
    if |b| == 0 {
      assert a + b == a;
    } else {
      var b', x := b[..|b| - 1], b[|b| - 1];
      assert (a + b)[..|a + b| - 1] == a + b' && (a + b)[|a + b| - 1] == x;
      LoadedAppend(a, b');
    }
  }

  /** A sample is kept exactly when it is one of the files and its left channel is not empty. */
  lemma {:induction false} LoadedExactly(ss: seq<Sample>)
    ensures forall s :: s in Loaded(ss) <==> s in ss && |s.dataL| > 0
    decreases |ss|
  {
    if |ss| > 0 {
      var ss', x := ss[..|ss| - 1], ss[|ss| - 1];
      LoadedExactly(ss');
      LoadedSnoc(ss', x);
      assert ss == ss' + [x];
    }
  }

  /** One more file is kept, at the end, exactly when it loaded. */
  lemma LoadedSnoc(ss: seq<Sample>, s: Sample)
    ensures Loaded(ss + [s]) == if |s.dataL| == 0 then Loaded(ss) else Loaded(ss) + [s]
  {
    assert (ss + [s])[..|ss|] == ss;
  }

  /** When every file loads, all of them are kept, in order. */
  lemma {:induction false} LoadedAll(ss: seq<Sample>)
    requires forall i | 0 <= i < |ss| :: |ss[i].dataL| > 0
    ensures Loaded(ss) == ss
    decreases |ss|
  {
    if |ss| > 0 {
      var ss', x := ss[..|ss| - 1], ss[|ss| - 1];
      LoadedAll(ss');
      assert Loaded(ss) == Loaded(ss') + [x];
      assert ss' + [x] == ss;
    }
  }

  /** Keeping the files that loaded keeps any property all the files have. */
  lemma {:induction false} LoadedKeeps(ss: seq<Sample>, p: Sample -> bool)
    requires forall i | 0 <= i < |ss| :: p(ss[i])
    ensures forall i | 0 <= i < |Loaded(ss)| :: p(Loaded(ss)[i])
    decreases |ss|
  {
    if |ss| > 0 {
      LoadedKeeps(ss[..|ss| - 1], p);
    }
  }

  /** The decoded files of a drum have any property the decoder gives every file of it. */
  lemma {:induction false} DecodedKeeps(files: (Drum, FileIndex) -> Sample, d: Drum, k: nat, p: Sample -> bool)
    requires k <= ROUND_ROBINS && forall j: FileIndex :: p(files(d, j))
    ensures forall i | 0 <= i < k :: p(Decoded(files, d, k)[i])
    decreases k
  {
    if k > 0 {
      DecodedKeeps(files, d, k - 1, p);
      var ss := Decoded(files, d, k);
      forall i | 0 <= i < k
        ensures p(ss[i])
      {
        if i < k - 1 {
          assert ss[i] == Decoded(files, d, k - 1)[i];
        }
      }
    }
  }

  /** Registers files 1..k of drum `d`, one call per file. */
  function RegisterFiles(bank: map<int, GroupState>, files: (Drum, FileIndex) -> Sample, d: Drum, k: nat): map<int, GroupState>
    requires k <= ROUND_ROBINS
    decreases k
  {
    if k == 0 then bank
    else AddToGroup(RegisterFiles(bank, files, d, k - 1), d.note, files(d, k), d.output)
  }

  /** Registers every file of the drums `ds`, drum by drum. */
  function RegisterDrums(files: (Drum, FileIndex) -> Sample, ds: seq<Drum>): map<int, GroupState>
    decreases |ds|
  {
    if |ds| == 0 then map[]
    else RegisterFiles(RegisterDrums(files, ds[..|ds| - 1]), files, ds[|ds| - 1], ROUND_ROBINS)
  }

  /** Gives the group of `note`, created empty if it does not exist, the hi-hat choke id. */
  function SetChoke(bank: map<int, GroupState>, note: int): (r: map<int, GroupState>)
    ensures r.Keys == bank.Keys + {note}
    ensures forall k | k in bank && k != note :: r[k] == bank[k]
    ensures r[note] == (if note in bank then bank[note] else EmptyGroup).(chokeGroup := HIHAT_CHOKE)
  {
    bank[note := (if note in bank then bank[note] else EmptyGroup).(chokeGroup := HIHAT_CHOKE)]
  }

  /** The three hi-hat notes given their choke id, in assignment order. */
  function ChokeHiHats(bank: map<int, GroupState>): (r: map<int, GroupState>)
    ensures forall n | n in ChokedNotes() :: n in r && r[n].chokeGroup == HIHAT_CHOKE
  {
    var ns := ChokedNotes();
    SetChoke(SetChoke(SetChoke(bank, ns[0]), ns[1]), ns[2])
  }

  /** The bank instantiation builds from the bundle: every drum's files registered, then the
      hi-hat notes given their choke id. */
  function Setup(bundlePath: Option<string>, load: (string, bool) -> Sample): (r: map<int, GroupState>)
    ensures forall n | n in ChokedNotes() :: n in r && r[n].chokeGroup == HIHAT_CHOKE
  {
    var registered := RegisterDrums(Files(bundlePath, load), Drums());
    ChokeHiHats(registered)
  }

  /** The group of a drum whose note had no group yet: it holds exactly the files that loaded, in
      file order, with the cursor at 0 and the drum's output; when no file loads, no group is made. */
  lemma {:induction false} RegisterFilesGroup(bank: map<int, GroupState>, files: (Drum, FileIndex) -> Sample, d: Drum, k: nat)
    requires k <= ROUND_ROBINS && d.note !in bank
    ensures var r := RegisterFiles(bank, files, d, k);
            var ls := Loaded(Decoded(files, d, k));
            && r.Keys == (if ls == [] then bank.Keys else bank.Keys + {d.note})
            && (forall n | n in bank :: r[n] == bank[n])
            && (ls != [] ==> r[d.note] == GroupState(ls, 0, d.output, 0))
    decreases k
  {
    if k > 0 {
      RegisterFilesGroup(bank, files, d, k - 1);
      var ss, ss' := Decoded(files, d, k), Decoded(files, d, k - 1);
      var s := files(d, k);
      assert ss[..k - 1] == ss' && ss[k - 1] == s;
      if |s.dataL| == 0 {
        assert Loaded(ss) == Loaded(ss');
      } else {
        assert Loaded(ss) == Loaded(ss') + [s];
      }
    }
  }

  /** No two drums share a note. */
  predicate DistinctNotes(ds: seq<Drum>)
  {
    forall i, j | 0 <= i < j < |ds| :: ds[i].note != ds[j].note
  }

  /** The notes of the drums `ds`. */
  function Notes(ds: seq<Drum>): set<int>
  {
    set i | 0 <= i < |ds| :: ds[i].note
  }

  /** Drum `d` is registered in `bank` as instantiation leaves it: it has a group exactly when one
      of its files loaded, holding exactly the files that loaded in file order, at cursor 0, on
      the drum's output and with no choke id. */
  ghost predicate Registered(bank: map<int, GroupState>, files: (Drum, FileIndex) -> Sample, d: Drum)
  {
    var ls := Loaded(Decoded(files, d, ROUND_ROBINS));
    && (d.note in bank <==> ls != [])
    && (ls != [] ==> bank[d.note] == GroupState(ls, 0, d.output, 0))
  }

  /** Registering files of drum `d` leaves every other note's group alone and adds no note but `d`'s. */
  lemma {:induction false} RegisterFilesFrame(bank: map<int, GroupState>, files: (Drum, FileIndex) -> Sample, d: Drum, k: nat)
    requires k <= ROUND_ROBINS
    ensures bank.Keys <= RegisterFiles(bank, files, d, k).Keys <= bank.Keys + {d.note}
    ensures forall n | n in bank && n != d.note :: RegisterFiles(bank, files, d, k)[n] == bank[n]
    decreases k
  {
    if k > 0 {
      RegisterFilesFrame(bank, files, d, k - 1);
    }
  }

  /** Registration makes groups only for the notes of the drums registered. */
  lemma {:induction false} RegisterDrumsKeys(files: (Drum, FileIndex) -> Sample, ds: seq<Drum>)
    ensures RegisterDrums(files, ds).Keys <= Notes(ds)
    decreases |ds|
  {
    if |ds| > 0 {
      var last := |ds| - 1;
      var ds' := ds[..last];
      RegisterDrumsKeys(files, ds');
      RegisterFilesFrame(RegisterDrums(files, ds'), files, ds[last], ROUND_ROBINS);
      forall n | n in Notes(ds')
        ensures n in Notes(ds)
      {
        var i :| 0 <= i < |ds'| && ds'[i].note == n;
        assert ds[i].note == n;
      }
      assert ds[last].note in Notes(ds);
    }
  }

  /** Registering a drum `d` new to the bank keeps every other drum registered. */
  lemma {:induction false} RegisterKeepsOthers(bank: map<int, GroupState>, files: (Drum, FileIndex) -> Sample, d: Drum, e: Drum)
    requires d.note !in bank && e.note != d.note && Registered(bank, files, e)
    ensures Registered(RegisterFiles(bank, files, d, ROUND_ROBINS), files, e)
  {
    RegisterFilesGroup(bank, files, d, ROUND_ROBINS);
  }

  /** Distinct drums stay distinct when the last is dropped, and the last one's note is not
      among the others'. */
  lemma {:induction false} DistinctPrefix(ds: seq<Drum>)
    requires |ds| > 0 && DistinctNotes(ds)
    ensures DistinctNotes(ds[..|ds| - 1]) && ds[|ds| - 1].note !in Notes(ds[..|ds| - 1])
  {
    var ds' := ds[..|ds| - 1];
    forall i, j | 0 <= i < j < |ds'|
      ensures ds'[i].note != ds'[j].note
    {
      assert ds'[i] == ds[i] && ds'[j] == ds[j];
    }
    forall i | 0 <= i < |ds'|
      ensures ds'[i].note != ds[|ds| - 1].note
    {
      assert ds'[i] == ds[i];
    }
  }

  /** Registering distinct drums registers each of them. */
  lemma {:induction false} RegisterDrumsGroups(files: (Drum, FileIndex) -> Sample, ds: seq<Drum>)
    requires DistinctNotes(ds)
    ensures forall i | 0 <= i < |ds| :: Registered(RegisterDrums(files, ds), files, ds[i])
    decreases |ds|
  {
    if |ds| > 0 {
      var last := |ds| - 1;
      var ds', d := ds[..last], ds[last];
      DistinctPrefix(ds);
      RegisterDrumsGroups(files, ds');
      RegisterDrumsKeys(files, ds');
      var r' := RegisterDrums(files, ds');
      RegisterFilesGroup(r', files, d, ROUND_ROBINS);
      forall i | 0 <= i < last
        ensures Registered(RegisterDrums(files, ds), files, ds[i])
      {
        assert ds'[i] == ds[i];
        RegisterKeepsOthers(r', files, d, ds[i]);
      }
    }
  }

  /** A hi-hat note. */
  predicate IsChoked(note: int)
  {
    note in ChokedNotes()
  }

  /** The choke assignments add the three hi-hat groups, empty where they did not exist, give
      them the choke id and change nothing else. */
  lemma {:induction false} ChokeHiHatsEffect(bank: map<int, GroupState>)
    ensures var r := ChokeHiHats(bank);
            && r.Keys == bank.Keys + {42, 44, 46}
            && (forall n | n in bank && !IsChoked(n) :: r[n] == bank[n])
            && (forall n | IsChoked(n) :: r[n] == (if n in bank then bank[n] else EmptyGroup).(chokeGroup := HIHAT_CHOKE))
  {
  }

  /** A registered drum's group meets the group invariant when every file decodes well formed. */
  lemma {:induction false} RegisteredGroupOk(bank: map<int, GroupState>, files: (Drum, FileIndex) -> Sample, d: Drum)
    requires Registered(bank, files, d) && d.note in bank
    requires forall d, k :: WellFormed(files(d, k))
    ensures GroupOk(bank[d.note]) && bank[d.note].cursor == 0 && bank[d.note].chokeGroup == 0
  {
    DecodedKeeps(files, d, ROUND_ROBINS, WellFormed);
    LoadedKeeps(Decoded(files, d, ROUND_ROBINS), WellFormed);
  }

  /** What the choke assignments make of a registered drum's group. */
  lemma {:induction false} ChokedDrum(bank: map<int, GroupState>, files: (Drum, FileIndex) -> Sample, d: Drum)
    requires Registered(bank, files, d)
    ensures var r := ChokeHiHats(bank);
            var ls := Loaded(Decoded(files, d, ROUND_ROBINS));
            && (d.note in r <==> ls != [] || IsChoked(d.note))
            && (ls != [] ==> r[d.note].samples == ls && r[d.note].output == d.output)
            && (ls == [] && IsChoked(d.note) ==> r[d.note] == EmptyGroup.(chokeGroup := HIHAT_CHOKE))
  {
    ChokeHiHatsEffect(bank);
  }

  /** Every group of `bank` meets the group invariant, with its cursor at 0 and no choke id. */
  ghost predicate FreshGroups(bank: map<int, GroupState>)
  {
    forall n | n in bank :: GroupOk(bank[n]) && bank[n].cursor == 0 && bank[n].chokeGroup == 0
  }

  /** After registering distinct drums every group meets the group invariant, with its cursor at
      0 and no choke id, when every file decodes well formed. */
  lemma {:induction false} RegisteredBankOk(files: (Drum, FileIndex) -> Sample, ds: seq<Drum>)
    requires DistinctNotes(ds)
    requires forall d, k :: WellFormed(files(d, k))
    ensures FreshGroups(RegisterDrums(files, ds))
  {
    RegisterDrumsGroups(files, ds);
    RegisterDrumsKeys(files, ds);
    var r := RegisterDrums(files, ds);
    forall n | n in r
      ensures GroupOk(r[n]) && r[n].cursor == 0 && r[n].chokeGroup == 0
    {
      var i :| 0 <= i < |ds| && ds[i].note == n;
      RegisteredGroupOk(r, files, ds[i]);
    }
  }

  /** The choke assignments keep every group well formed and at cursor 0, and give the choke id
      to exactly the hi-hat groups when no group had one. */
  lemma {:induction false} ChokeKeepsOk(bank: map<int, GroupState>)
    requires FreshGroups(bank)
    ensures var r := ChokeHiHats(bank);
            forall n | n in r :: GroupOk(r[n]) && r[n].cursor == 0 && r[n].chokeGroup == if IsChoked(n) then HIHAT_CHOKE else 0
  {
    ChokeHiHatsEffect(bank);
    var r := ChokeHiHats(bank);
    forall n | n in r
      ensures GroupOk(r[n]) && r[n].cursor == 0 && r[n].chokeGroup == if IsChoked(n) then HIHAT_CHOKE else 0
    {
      if IsChoked(n) {
        assert r[n] == (if n in bank then bank[n] else EmptyGroup).(chokeGroup := HIHAT_CHOKE);
      } else {
        assert r[n] == bank[n];
      }
    }
  }

  /** The bank built from the drums `ds`, distinct and including the hi-hats: its notes are the
      drums' notes whose files loaded and the three hi-hat notes, which always have a group. A
      drum whose files loaded holds exactly those files in file order, on its output; a hi-hat
      none of whose files loaded has an empty group on output 0. Every cursor is at 0, exactly the
      hi-hat groups carry the choke id, and every group meets the group invariant when every
      file decodes well formed. */
  lemma {:induction false} BuiltBank(files: (Drum, FileIndex) -> Sample, ds: seq<Drum>)
    requires DistinctNotes(ds) && 42 in Notes(ds) && 44 in Notes(ds) && 46 in Notes(ds)
    requires forall d, k :: WellFormed(files(d, k))
    ensures var bank := ChokeHiHats(RegisterDrums(files, ds));
            && (forall n | n in bank :: GroupOk(bank[n]) && bank[n].cursor == 0)
            && (forall n | n in bank :: bank[n].chokeGroup == if IsChoked(n) then HIHAT_CHOKE else 0)
            && (forall n | n in bank :: n in Notes(ds))
            && (forall n | IsChoked(n) :: n in bank)
            && (forall i | 0 <= i < |ds| ::
                  var d := ds[i];
                  var ls := Loaded(Decoded(files, d, ROUND_ROBINS));
                  && (d.note in bank <==> ls != [] || IsChoked(d.note))
                  && (ls != [] ==> bank[d.note].samples == ls && bank[d.note].output == d.output)
                  && (ls == [] && IsChoked(d.note) ==> bank[d.note] == EmptyGroup.(chokeGroup := HIHAT_CHOKE)))
  {
    RegisteredBankOk(files, ds);
    var r := RegisterDrums(files, ds);
    ChokeKeepsOk(r);
    RegisterDrumsKeys(files, ds);
    ChokeHiHatsEffect(r);
    RegisterDrumsGroups(files, ds);
    var bank := ChokeHiHats(r);
    forall i | 0 <= i < |ds|
      ensures var d := ds[i];
              var ls := Loaded(Decoded(files, d, ROUND_ROBINS));
              && (d.note in bank <==> ls != [] || IsChoked(d.note))
              && (ls != [] ==> bank[d.note].samples == ls && bank[d.note].output == d.output)
              && (ls == [] && IsChoked(d.note) ==> bank[d.note] == EmptyGroup.(chokeGroup := HIHAT_CHOKE))
    {
      ChokedDrum(r, files, ds[i]);
    }
  }

  /** The notes of the drums, in table order. */
  function DrumNotes(): seq<int>
  {
    [36, 38, 40, 37, 42, 46, 44, 50, 48, 47, 45, 43, 41, 49, 57, 51, 53, 52, 55, 39]
  }

  /** The table of notes lists the drums' notes. */
  lemma {:induction false} NotesOfDrums()
    ensures |Drums()| == |DrumNotes()|
    ensures forall i | 0 <= i < |Drums()| :: Drums()[i].note == DrumNotes()[i]
  {
  }

  /** The table of notes has no repeats. */
  lemma {:induction false} DrumNotesDistinct()
    ensures forall i, j | 0 <= i < j < |DrumNotes()| :: DrumNotes()[i] != DrumNotes()[j]
  {
  }

  /** The drums of the kit have distinct notes, among them the three hi-hats. */
  lemma {:induction false} DrumsDistinct()
    ensures DistinctNotes(Drums())
    ensures 42 in Notes(Drums()) && 44 in Notes(Drums()) && 46 in Notes(Drums())
  {
    var ds := Drums();
    NotesOfDrums();
    DrumNotesDistinct();
    assert ds[4].note == 42 && ds[6].note == 44 && ds[5].note == 46;
  }

  /** The bank instantiation builds, for any decoder that keeps its guarantee: see BuiltBank. */
  lemma {:induction false} SetupBank(bundlePath: Option<string>, load: (string, bool) -> Sample)
    requires LoaderOk(load)
    ensures var bank := Setup(bundlePath, load);
            var files := Files(bundlePath, load);
            && (forall n | n in bank :: GroupOk(bank[n]) && bank[n].cursor == 0)
            && (forall n | n in bank :: bank[n].chokeGroup == if IsChoked(n) then HIHAT_CHOKE else 0)
            && (forall n | n in bank :: n in Notes(Drums()))
            && (forall n | IsChoked(n) :: n in bank)
            && (forall i | 0 <= i < |Drums()| ::
                  var d := Drums()[i];
                  var ls := Loaded(Decoded(files, d, ROUND_ROBINS));
                  && (d.note in bank <==> ls != [] || IsChoked(d.note))
                  && (ls != [] ==> bank[d.note].samples == ls && bank[d.note].output == d.output)
                  && (ls == [] && IsChoked(d.note) ==> bank[d.note] == EmptyGroup.(chokeGroup := HIHAT_CHOKE)))
  {
    DrumsDistinct();
    var files := Files(bundlePath, load);
    forall d, k
      ensures WellFormed(files(d, k))
    {
    }
    BuiltBank(files, Drums());
  }

  /** The bank setup builds is one a plugin instance can start from: every group meets the group
      invariant, and with the empty pool the instance invariant holds. */
  lemma {:induction false} SetupReady(bundlePath: Option<string>, load: (string, bool) -> Sample)
    requires LoaderOk(load)
    ensures KitOk(KitState(Setup(bundlePath, load), []))
  {
    SetupBank(bundlePath, load);
  }

  /** Every drum plays on one of the outputs, and a stereo drum's right channel lands on one too. */
  lemma {:induction false} DrumsRouted()
    ensures forall i | 0 <= i < |Drums()| :: 0 <= Drums()[i].output < NUM_OUTPUTS
    ensures forall i | 0 <= i < |Drums()| && Drums()[i].stereo :: Drums()[i].output + 1 < NUM_OUTPUTS
  {
  }

  /** The hi-hat choke group is exactly the closed, open and pedal hi-hat notes, all on one output. */
  lemma {:induction false} HiHatChokeGroup()
    ensures forall i | 0 <= i < |Drums()| ::
              IsChoked(Drums()[i].note) <==> Drums()[i].name in {"hihat_downclosed", "hihat_downopen", "hihat_pedal"}
    ensures forall i | 0 <= i < |Drums()| && IsChoked(Drums()[i].note) :: Drums()[i].output == 2
  {
  }

  /** A drum not loaded in stereo holds only mono samples, so its voices never write the bus
      after its own. */
  lemma {:induction false} MonoDrumsStayMono(bundlePath: Option<string>, load: (string, bool) -> Sample, i: nat)
    requires LoaderOk(load)
    requires i < |Drums()| && !Drums()[i].stereo
    ensures var bank := Setup(bundlePath, load);
            Drums()[i].note in bank ==>
              forall j | 0 <= j < |bank[Drums()[i].note].samples| :: !bank[Drums()[i].note].samples[j].isStereo
  {
    MonoFiles(bundlePath, load, Drums()[i]);
    SetupBank(bundlePath, load);
  }

  /** The files of a drum the decoder loads in mono stay mono once decoded and filtered. */
  lemma {:induction false} MonoFiles(bundlePath: Option<string>, load: (string, bool) -> Sample, d: Drum)
    requires LoaderOk(load) && !d.stereo
    ensures forall j | 0 <= j < |Loaded(Decoded(Files(bundlePath, load), d, ROUND_ROBINS))| ::
              !Loaded(Decoded(Files(bundlePath, load), d, ROUND_ROBINS))[j].isStereo
  {
    var files := Files(bundlePath, load);
    var mono := (s: Sample) => !s.isStereo;
    forall k: FileIndex
      ensures mono(files(d, k))
    {
    }
    DecodedKeeps(files, d, ROUND_ROBINS, mono);
    LoadedKeeps(Decoded(files, d, ROUND_ROBINS), mono);
  }
}
