/** The bookkeeping behind the synthesizer's sound (9/scripts/midi.js):
    the `activeVoices` map of `startVoice`/`stopVoice`, the oscillators
    that are actually sounding, and the note recorder of
    `toggleRecording`/`beginRecordNote`/`endRecordNote`.  The audio graph
    itself (frequencies, envelopes, effects) is not part of this model. */
module SynthVoices {
  import opened MidiKeys

  /* ---------------- voices ---------------- */

  /** What `activeVoices` keeps for a note: the waveform its oscillator
      was started with and its velocity. */
  datatype Voice = Voice(waveform: Waveform, velocity: real)

  /** The `activeVoices` map together with the notes of every oscillator
      that has been started and not yet stopped, one occurrence per
      oscillator. */
  datatype Voices = Voices(active: map<int, Voice>, sounding: multiset<int>)

  const Silent := Voices(map[], multiset{})

  /** Every sounding oscillator is reachable through `activeVoices`, and
      every entry there has exactly one oscillator: nothing can be left
      sounding once its entry is gone. */
  predicate Balanced(v: Voices)
  {
    v.sounding == multiset(v.active.Keys)
  }

  /** `stopVoice`: nothing happens for a note without an entry; otherwise
      its oscillator is stopped and the entry deleted. */
  function StopVoice(v: Voices, midi: int): (r: Voices)
    ensures r.active == v.active - {midi}
    ensures midi !in v.active ==> r == v
    ensures Balanced(v) ==> Balanced(r)
  {
    if midi !in v.active then v
    else
      var r := Voices(v.active - {midi}, v.sounding - multiset{midi});
      assert v.active.Keys == r.active.Keys + {midi};
      assert Balanced(v) ==> multiset(v.active.Keys) == multiset(r.active.Keys) + multiset{midi};
      r
  }

  /** `startVoice` as written: a new oscillator is started and the map
      entry overwritten, even when the note already had one. */
  function StartVoiceAsWritten(v: Voices, midi: int, voice: Voice): (r: Voices)
    ensures r.active == v.active[midi := voice]
    ensures r.sounding[midi] == v.sounding[midi] + 1
  {
    Voices(v.active[midi := voice], v.sounding + multiset{midi})
  }

  /** As written, starting a note that already sounds leaves its old
      oscillator with no entry: the voices stop being balanced. */
  lemma AsWrittenStrandsVoice(v: Voices, midi: int, voice: Voice)
    requires Balanced(v) && midi in v.active
    ensures !Balanced(StartVoiceAsWritten(v, midi, voice))
  {
    var r := StartVoiceAsWritten(v, midi, voice);
    assert r.active.Keys == v.active.Keys;
    assert r.sounding[midi] == 2;
  }

  /** The same on a concrete run: the note is started twice (a mouse press,
      release under the sustain pedal, and a second press) and then
      stopped; no entry is left but one oscillator keeps sounding. */
  lemma StuckNoteExample(voice: Voice)
    ensures var w := StopVoice(StartVoiceAsWritten(StartVoiceAsWritten(Silent, 60, voice), 60, voice), 60);
            w.active == map[] && w.sounding == multiset{60}
  {
    var once := StartVoiceAsWritten(Silent, 60, voice);
    var twice := StartVoiceAsWritten(once, 60, voice);
    assert twice.sounding == multiset{60, 60};
    var w := StopVoice(twice, 60);
    assert w.active == map[];
    assert w.sounding == multiset{60};
  }

  /** `startVoice` with its evident intent: a note that already sounds is
      released first, so it retriggers instead of leaving an oscillator
      behind. */
  function StartVoice(v: Voices, midi: int, voice: Voice): (r: Voices)
    ensures r.active == v.active[midi := voice]
    ensures Balanced(v) ==> Balanced(r)
  {
    var stopped := StopVoice(v, midi);
    StartFresh(stopped, midi, voice);
    StartVoiceAsWritten(stopped, midi, voice)
  }

  /** Starting a note with no entry keeps the voices balanced. */
  lemma StartFresh(v: Voices, midi: int, voice: Voice)
    requires midi !in v.active
    ensures Balanced(v) ==> Balanced(StartVoiceAsWritten(v, midi, voice))
  {
    var r := StartVoiceAsWritten(v, midi, voice);
    assert r.active.Keys == v.active.Keys + {midi};
    assert multiset(r.active.Keys) == multiset(v.active.Keys) + multiset{midi};
  }

  /** A voice that was started and then stopped leaves the other notes as
      they were. */
  lemma StartThenStop(v: Voices, midi: int, voice: Voice)
    requires Balanced(v) && midi !in v.active
    ensures StopVoice(StartVoice(v, midi, voice), midi) == v
  {
    var r := StopVoice(StartVoice(v, midi, voice), midi);
    assert r.active == v.active;
  }

  /** `endNote` applied to each of `notes` in order (the sustain-pedal
      release and the timed ends of chords). */
  function StopAll(v: Voices, notes: seq<int>): Voices
  {
    if |notes| == 0 then v
    else StopVoice(StopAll(v, notes[..|notes| - 1]), notes[|notes| - 1])
  }

  /** Ending a list of notes removes exactly those notes, leaves the other
      voices as they were, and keeps the voices balanced. */
  lemma {:induction false} StopAllExact(v: Voices, notes: seq<int>)
    ensures forall m :: m in StopAll(v, notes).active <==> m in v.active && m !in notes
    ensures forall m :: m in StopAll(v, notes).active ==> StopAll(v, notes).active[m] == v.active[m]
    ensures Balanced(v) ==> Balanced(StopAll(v, notes))
  {
    if |notes| > 0 {
      var init, last := notes[..|notes| - 1], notes[|notes| - 1];
      StopAllExact(v, init);
      var prev := StopAll(v, init);
      assert StopAll(v, notes) == StopVoice(prev, last);
      assert forall m :: m in notes <==> m in init || m == last;
    }
  }

  /** `startVoice` applied to each of `notes` in order with one voice
      setting (a chord, or one sequencer step). */
  function StartAll(v: Voices, notes: seq<int>, voice: Voice): Voices
  {
    if |notes| == 0 then v
    else StartVoice(StartAll(v, notes[..|notes| - 1], voice), notes[|notes| - 1], voice)
  }

  /** Starting a list of notes gives each of them a voice and keeps the
      voices balanced. */
  lemma {:induction false} StartAllExact(v: Voices, notes: seq<int>, voice: Voice)
    ensures forall m :: m in StartAll(v, notes, voice).active <==> m in v.active || m in notes
    ensures Balanced(v) ==> Balanced(StartAll(v, notes, voice))
  {
    if |notes| > 0 {
      var init, last := notes[..|notes| - 1], notes[|notes| - 1];
      StartAllExact(v, init, voice);
      var prev := StartAll(v, init, voice);
      assert StartAll(v, notes, voice) == StartVoice(prev, last, voice);
      assert forall m :: m in notes <==> m in init || m == last;
    }
  }

  /** Every started note carries the voice, and the other notes keep
      theirs. */
  lemma {:induction false} StartAllValues(v: Voices, notes: seq<int>, voice: Voice, m: int)
    requires m in StartAll(v, notes, voice).active
    ensures m in notes ==> StartAll(v, notes, voice).active[m] == voice
    ensures m !in notes ==> m in v.active && StartAll(v, notes, voice).active[m] == v.active[m]
  {
    StartAllExact(v, notes, voice);
    if |notes| > 0 {
      var init := notes[..|notes| - 1];
      var last := notes[|notes| - 1];
      assert m in notes <==> m in init || m == last;
      if m != last {
        StartAllValues(v, init, voice, m);
      }
    }
  }

  /** One more note of a loop over `notes`. */
  lemma StopAllStep(v: Voices, notes: seq<int>, i: nat)
    requires i < |notes|
    ensures StopAll(v, notes[..i + 1]) == StopVoice(StopAll(v, notes[..i]), notes[i])
  {
    assert notes[..i + 1][..i] == notes[..i];
  }

  lemma StartAllStep(v: Voices, notes: seq<int>, voice: Voice, i: nat)
    requires i < |notes|
    ensures StartAll(v, notes[..i + 1], voice) == StartVoice(StartAll(v, notes[..i], voice), notes[i], voice)
  {
    assert notes[..i + 1][..i] == notes[..i];
  }

  /* ---------------- recorder ---------------- */

  /** One recorded note, with its start relative to the recording's start. */
  datatype RecordedNote = RecordedNote(midi: int, start: real, duration: real)

  /** `recording`, `recordStart`, `recordedNotes` and `recordedActive`
      (the start of every note pressed and not yet released). */
  datatype Recorder = Recorder(recording: bool, recordStart: real,
                               notes: seq<RecordedNote>, pending: map<int, real>)

  const Idle := Recorder(false, 0.0, [], map[])

  /** `toggleRecording` at time `now`: a new recording starts empty, and
      stopping keeps what was recorded. */
  function ToggleRecording(r: Recorder, now: real): (t: Recorder)
    ensures t.recording == !r.recording
    ensures !r.recording ==> t.notes == [] && t.pending == map[] && t.recordStart == now
    ensures r.recording ==> t.notes == r.notes && t.pending == r.pending && t.recordStart == r.recordStart
  {
    if !r.recording then Recorder(true, now, [], map[])
    else r.(recording := false)
  }

  /** `beginRecordNote`: remember when the note started. */
  function BeginRecordNote(r: Recorder, midi: int, now: real): (t: Recorder)
    ensures t.pending.Keys == r.pending.Keys + {midi}
    ensures t.notes == r.notes && t.recording == r.recording
  {
    r.(pending := r.pending[midi := now - r.recordStart])
  }

  /** `endRecordNote`: without a pending start nothing happens; otherwise
      one note is appended, carrying the stored start, and the pending
      entry is deleted. */
  function EndRecordNote(r: Recorder, midi: int, now: real): (t: Recorder)
    ensures midi !in r.pending ==> t == r
    ensures midi in r.pending ==>
              |t.notes| == |r.notes| + 1 && t.notes[..|r.notes|] == r.notes &&
              t.notes[|r.notes|].midi == midi && t.notes[|r.notes|].start == r.pending[midi]
    ensures t.pending == r.pending - {midi}
    ensures t.recording == r.recording && t.recordStart == r.recordStart
  {
    if midi !in r.pending then r
    else
      var start := r.pending[midi];
      r.(notes := r.notes + [RecordedNote(midi, start, now - r.recordStart - start)],
         pending := r.pending - {midi})
  }

  /** A note pressed at `t1` and released at `t2` is recorded with the
      press time as its start and the time it was held as its duration. */
  lemma RecordRoundTrip(r: Recorder, midi: int, t1: real, t2: real)
    ensures EndRecordNote(BeginRecordNote(r, midi, t1), midi, t2).notes
            == r.notes + [RecordedNote(midi, t1 - r.recordStart, t2 - t1)]
    ensures EndRecordNote(BeginRecordNote(r, midi, t1), midi, t2).pending == r.pending - {midi}
  {
  }

  /** The recorder half of `endNote`: only a running recording notes the
      release. */
  function RecordRelease(r: Recorder, midi: int, now: real): (t: Recorder)
    ensures t.recording == r.recording && t.recordStart == r.recordStart && r.notes <= t.notes
    ensures !r.recording ==> t == r
    ensures r.recording ==> t.pending == r.pending - {midi}
    ensures r.recording && midi in r.pending ==>
              t.notes == r.notes + [RecordedNote(midi, r.pending[midi], now - r.recordStart - r.pending[midi])]
    ensures midi !in r.pending ==> t == r
  {
    if r.recording then EndRecordNote(r, midi, now) else r
  }

  /** The recorder half of `endNote` for each of `notes` in order. */
  function RecordReleaseAll(r: Recorder, notes: seq<int>, now: real): Recorder
  {
    if |notes| == 0 then r
    else RecordRelease(RecordReleaseAll(r, notes[..|notes| - 1], now), notes[|notes| - 1], now)
  }

  /** Outside a recording nothing is noted; during one, every released
      note loses its pending start, and what was recorded before stays. */
  lemma {:induction false} RecordReleaseAllExact(r: Recorder, notes: seq<int>, now: real)
    ensures !r.recording ==> RecordReleaseAll(r, notes, now) == r
    ensures r.recording ==> RecordReleaseAll(r, notes, now).pending.Keys == r.pending.Keys - set n | n in notes
    ensures r.notes <= RecordReleaseAll(r, notes, now).notes
    ensures RecordReleaseAll(r, notes, now).recording == r.recording
  {
    if |notes| > 0 {
      var init := notes[..|notes| - 1];
      RecordReleaseAllExact(r, init, now);
      assert (set n | n in notes) == (set n | n in init) + {notes[|notes| - 1]};
      var t := RecordReleaseAll(r, init, now);
      assert r.notes <= t.notes <= RecordRelease(t, notes[|notes| - 1], now).notes;
    }
  }

  lemma RecordReleaseAllStep(r: Recorder, notes: seq<int>, now: real, i: nat)
    requires i < |notes|
    ensures RecordReleaseAll(r, notes[..i + 1], now) == RecordRelease(RecordReleaseAll(r, notes[..i], now), notes[i], now)
  {
    assert notes[..i + 1][..i] == notes[..i];
  }

  /** The recorder half of a press: only a running recording notes it. */
  function RecordPress(r: Recorder, midi: int, now: real): (t: Recorder)
    ensures t.notes == r.notes && t.recording == r.recording && t.recordStart == r.recordStart
    ensures !r.recording ==> t == r
    ensures r.recording ==> midi in t.pending && t.pending[midi] == now - r.recordStart
    ensures t.pending.Keys <= r.pending.Keys + {midi}
    ensures forall k :: k in r.pending && k != midi ==> k in t.pending && t.pending[k] == r.pending[k]
  {
    if r.recording then BeginRecordNote(r, midi, now) else r
  }

  /** What `playRecording` schedules: for every recorded note, in order, a
      start at its start time and an end when it was released.  An empty
      recording schedules nothing. */
  datatype Cue = StartAt(at: real, midi: int) | EndAt(at: real, midi: int)

  function Playback(notes: seq<RecordedNote>): (cues: seq<Cue>)
    ensures |cues| == 2 * |notes|
  {
    if |notes| == 0 then []
    else [StartAt(notes[0].start, notes[0].midi),
          EndAt(notes[0].start + notes[0].duration, notes[0].midi)] + Playback(notes[1..])
  }

  /** The `k`-th recorded note is cued at places `2k` and `2k + 1`. */
  lemma {:induction false} PlaybackCues(notes: seq<RecordedNote>, k: nat)
    requires k < |notes|
    ensures Playback(notes)[2 * k] == StartAt(notes[k].start, notes[k].midi)
    ensures Playback(notes)[2 * k + 1] == EndAt(notes[k].start + notes[k].duration, notes[k].midi)
  {
    if k > 0 {
      PlaybackCues(notes[1..], k - 1);
    }
  }
}
