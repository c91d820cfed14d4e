/** The state of the MIDI synthesizer (9/scripts/midi.js) and the event
    handlers that change it: computer-keyboard and mouse input, MIDI
    messages, the sustain pedal, the note recorder, the step sequencer,
    chords and presets.  Every started voice is also tracked on the piano
    roll.  Timers are not scheduled here: the step a timer would run
    later (ending a chord or a sequencer note) is its own method call. */
module Synthesizer {
  import opened Wrappers
  import opened JsText
  import opened MidiKeys
  import opened MidiMessages
  import opened PianoRoll
  import opened SynthVoices

  /* ---------------- keyboard dispatch ---------------- */

  /** What a key press asks for, in the order `handleKeyDown` tests it:
      shift+R toggles recording, shift+P plays the recording back, the
      arrow keys shift the octave, and anything else may select a waveform
      (digits 1-4) and may name a note. */
  datatype KeyAction =
    | ToggleRecord
    | PlayBack
    | ShiftOctave(delta: int)
    | Press(select: Option<Waveform>, note: Option<int>)

  /** The dispatch of `handleKeyDown` on the lower-cased key. */
  function KeyDownAction(key: string, shift: bool): (a: KeyAction)
    ensures a.Press? ==> a.select == WaveformKey(key) && a.note == EmulatedKey(key)
    ensures a.ShiftOctave? ==> a.delta in {1, -1}
  {
    if shift && key == "r" then ToggleRecord
    else if shift && key == "p" then PlayBack
    else if key == "arrowup" then ShiftOctave(1)
    else if key == "arrowdown" then ShiftOctave(-1)
    else Press(WaveformKey(key), EmulatedKey(key))
  }

  /** Shift only matters for R and P: shift+R and shift+P never sound a
      note, while plain R and P, and shift with any other key, play as
      usual. */
  lemma ShiftKeys()
    ensures KeyDownAction("r", true) == ToggleRecord && KeyDownAction("p", true) == PlayBack
    ensures KeyDownAction("r", false) == Press(None, Some(65))
    ensures KeyDownAction("p", false) == Press(None, Some(76))
    ensures KeyDownAction("z", true) == Press(None, Some(48))
    ensures KeyDownAction("arrowup", true) == ShiftOctave(1)
    ensures KeyDownAction("2", false) == Press(Some(Square), Some(61))
  {
  }

  /** The note a key press starts, if any: a mapped key shifted by the
      octave offset, unless that note already has a voice. */
  function KeyNote(a: KeyAction, octaveOffset: int, active: set<int>): (n: Option<int>)
    ensures n.Some? <==>
              (a.Press? && a.note.Some? && WithOffset(a.note.value, octaveOffset) !in active)
    ensures n.Some? ==> n.value == WithOffset(a.note.value, octaveOffset)
    ensures n.Some? ==> LowestNote <= n.value <= HighestNote
  {
    if a.Press? && a.note.Some? && WithOffset(a.note.value, octaveOffset) !in active
    then Some(WithOffset(a.note.value, octaveOffset))
    else None
  }

  /** An unmapped key never starts a note, and neither does a key whose
      note already sounds. */
  lemma NoRetrigger(key: string, shift: bool, octaveOffset: int, active: set<int>)
    ensures EmulatedKey(key).None? ==> KeyNote(KeyDownAction(key, shift), octaveOffset, active).None?
    ensures EmulatedKey(key).Some? && WithOffset(EmulatedKey(key).value, octaveOffset) in active ==>
              KeyNote(KeyDownAction(key, shift), octaveOffset, active).None?
  {
  }

  /* ---------------- the sustained-note set ---------------- */

  /** `Set.add` on the insertion-ordered `sustainedNotes`. */
  function SetAdd(s: seq<int>, x: int): (t: seq<int>)
    ensures x in t && forall y :: y in t <==> y in s || y == x
    ensures NoDuplicates(s) ==> NoDuplicates(t)
    ensures x in s ==> t == s
  {
    if x in s then s else s + [x]
  }

  predicate NoDuplicates(s: seq<int>)
  {
    forall i, j :: 0 <= i < j < |s| ==> s[i] != s[j]
  }

  /** The piano-roll entries of notes all started at time `now`. */
  function Tracked(notes: seq<int>, now: real): (t: seq<Played>)
    ensures |t| == |notes|
  {
    if |notes| == 0 then []
    else Tracked(notes[..|notes| - 1], now) + [Played(notes[|notes| - 1], now, 0.5)]
  }

  lemma TrackedStep(notes: seq<int>, now: real, i: nat)
    requires i < |notes|
    ensures Tracked(notes[..i + 1], now) == Tracked(notes[..i], now) + [Played(notes[i], now, 0.5)]
  {
    assert notes[..i + 1][..i] == notes[..i];
  }

  /** Appending one note to the notes started so far. */
  lemma AppendStep(before: seq<int>, note: int, v: Voices, voice: Voice, now: real)
    ensures StartAll(v, before + [note], voice) == SynthVoices.StartVoice(StartAll(v, before, voice), note, voice)
    ensures Tracked(before + [note], now) == Tracked(before, now) + [Played(note, now, 0.5)]
  {
    assert (before + [note])[..|before|] == before;
  }

  lemma AppendAssoc(a: seq<Played>, b: seq<Played>, x: Played)
    ensures a + b + [x] == a + (b + [x])
  {
  }

  lemma WholePrefix(notes: seq<int>)
    ensures notes[..|notes|] == notes
  {
  }

  lemma StepNotesNext(g: seq<seq<bool>>, p: nat, row: nat)
    requires IsGrid(g) && p < Steps && row < |SeqNotes|
    ensures g[row][p] ==> StepNotes(g, p, row + 1) == StepNotes(g, p, row) + [SeqNotes[row]]
    ensures !g[row][p] ==> StepNotes(g, p, row + 1) == StepNotes(g, p, row)
  {
    assert StepNotes(g, p, row) + [] == StepNotes(g, p, row);
  }

  /* ---------------- the synthesizer ---------------- */

  class Synth {
    var waveform: Waveform
    var octaveOffset: int
    /** The envelope controls. */
    var adsr: Adsr
    /** `activeVoices` and the oscillators that sound. */
    var voices: Voices
    var sustainOn: bool
    /** `sustainedNotes`, in insertion order. */
    var sustainedNotes: seq<int>
    var pitchBendSemitones: real
    var recorder: Recorder
    var seqState: seq<seq<bool>>
    var seqPosition: nat
    /** The piano roll every started voice is tracked on. */
    const roll: Roll

    ghost predicate Valid()
      reads this
    {
      && -2 <= octaveOffset <= 2
      && Balanced(voices)
      && NoDuplicates(sustainedNotes)
      && IsGrid(seqState) && seqPosition < Steps
    }

    /** The settings that note events leave alone. */
    twostate predicate SameSettings()
      reads this
    {
      && waveform == old(waveform) && octaveOffset == old(octaveOffset) && adsr == old(adsr)
      && pitchBendSemitones == old(pitchBendSemitones)
      && seqState == old(seqState) && seqPosition == old(seqPosition)
    }

    /** The state after loading: sawtooth, no octave shift, nothing
        sounding, no pedal, no bend, not recording, an empty grid at step
        0, and an empty piano roll.  `controls` are the envelope sliders. */
    constructor (controls: Adsr)
      ensures Valid()
      ensures waveform == Sawtooth && octaveOffset == 0 && adsr == controls
      ensures voices == Silent && !sustainOn && sustainedNotes == [] && pitchBendSemitones == 0.0
      ensures recorder == Idle && seqState == EmptyGrid() && seqPosition == 0
      ensures fresh(roll) && roll.history == []
    {
      waveform := Sawtooth;
      octaveOffset := 0;
      adsr := controls;
      voices := Silent;
      sustainOn := false;
      sustainedNotes := [];
      pitchBendSemitones := 0.0;
      recorder := Idle;
      seqState := EmptyGrid();
      seqPosition := 0;
      roll := new Roll();
    }

    /** `startVoice` (with the piano-roll tracking that wraps it): the note
        gets a fresh voice with the current waveform, and an older voice of
        the same note is released first. */
    method StartVoice(midi: int, velocity: real, now: real)
      requires Valid()
      modifies this`voices, roll
      ensures Valid() && SameSettings()
      ensures voices == SynthVoices.StartVoice(old(voices), midi, Voice(waveform, velocity))
      ensures roll.history == old(roll.history) + [Played(midi, now, 0.5)]
      ensures sustainOn == old(sustainOn) && sustainedNotes == old(sustainedNotes)
      ensures recorder == old(recorder)
    {
      voices := SynthVoices.StartVoice(voices, midi, Voice(waveform, velocity));
      roll.Track(midi, now);
    }

    /** `endNote`: stop the voice and, while recording, close the note. */
    method EndNote(midi: int, now: real)
      requires Valid()
      modifies this`voices, this`recorder
      ensures Valid() && SameSettings()
      ensures voices == StopVoice(old(voices), midi)
      ensures recorder == RecordRelease(old(recorder), midi, now)
      ensures sustainOn == old(sustainOn) && sustainedNotes == old(sustainedNotes)
    {
      voices := StopVoice(voices, midi);
      if recorder.recording {
        recorder := EndRecordNote(recorder, midi, now);
      }
    }

    /** A press from the mouse, a touch or a MIDI note-on: start the voice
        and, while recording, open the note. */
    method PressNote(midi: int, velocity: real, now: real)
      requires Valid()
      modifies this`voices, this`recorder, roll
      ensures Valid() && SameSettings()
      ensures voices == SynthVoices.StartVoice(old(voices), midi, Voice(waveform, velocity))
      ensures recorder == RecordPress(old(recorder), midi, now)
      ensures roll.history == old(roll.history) + [Played(midi, now, 0.5)]
      ensures sustainOn == old(sustainOn) && sustainedNotes == old(sustainedNotes)
    {
      StartVoice(midi, velocity, now);
      if recorder.recording {
        recorder := BeginRecordNote(recorder, midi, now);
      }
    }

    /** A release from a key, the mouse, a touch or a MIDI note-off: under
        the pedal the note joins the sustained set and keeps sounding;
        otherwise it ends. */
    method ReleaseNote(midi: int, now: real)
      requires Valid()
      modifies this`sustainedNotes, this`voices, this`recorder
      ensures Valid() && SameSettings() && sustainOn == old(sustainOn)
      ensures old(sustainOn) ==>
                sustainedNotes == SetAdd(old(sustainedNotes), midi) &&
                voices == old(voices) && recorder == old(recorder)
      ensures !old(sustainOn) ==>
                sustainedNotes == old(sustainedNotes) &&
                voices == StopVoice(old(voices), midi) &&
                recorder == RecordRelease(old(recorder), midi, now)
    {
      if sustainOn {
        sustainedNotes := SetAdd(sustainedNotes, midi);
        return;
      }
      EndNote(midi, now);
    }

    /** The mouse leaving a key: the note ends if it sounds and the pedal
        is up. */
    method LeaveKey(midi: int, now: real)
      requires Valid()
      modifies this`voices, this`recorder
      ensures Valid() && SameSettings() && sustainOn == old(sustainOn)
      ensures sustainedNotes == old(sustainedNotes)
      ensures midi in old(voices.active) && !old(sustainOn) ==>
                voices == StopVoice(old(voices), midi) &&
                recorder == RecordRelease(old(recorder), midi, now)
      ensures !(midi in old(voices.active) && !old(sustainOn)) ==>
                voices == old(voices) && recorder == old(recorder)
    {
      if midi in voices.active && !sustainOn {
        EndNote(midi, now);
      }
    }

    /** `endNote` for each of `notes`, in order. */
    method EndNotes(notes: seq<int>, now: real)
      requires Valid()
      modifies this
      ensures Valid() && SameSettings()
      ensures voices == StopAll(old(voices), notes)
      ensures recorder == RecordReleaseAll(old(recorder), notes, now)
      ensures sustainOn == old(sustainOn) && sustainedNotes == old(sustainedNotes)
    {
      for i := 0 to |notes|
        invariant Valid() && SameSettings()
        invariant voices == StopAll(old(voices), notes[..i])
        invariant recorder == RecordReleaseAll(old(recorder), notes[..i], now)
        invariant sustainOn == old(sustainOn) && sustainedNotes == old(sustainedNotes)
      {
        StopAllStep(old(voices), notes, i);
        RecordReleaseAllStep(old(recorder), notes, now, i);
        EndNote(notes[i], now);
      }
      WholePrefix(notes);
    }

    /** `startVoice` for each of `notes`, in order, at one velocity. */
    method StartNotes(notes: seq<int>, velocity: real, now: real)
      requires Valid()
      modifies this, roll
      ensures Valid() && SameSettings()
      ensures voices == StartAll(old(voices), notes, Voice(waveform, velocity))
      ensures roll.history == old(roll.history) + Tracked(notes, now)
      ensures sustainOn == old(sustainOn) && sustainedNotes == old(sustainedNotes)
      ensures recorder == old(recorder)
    {
      for i := 0 to |notes|
        invariant Valid() && SameSettings()
        invariant voices == StartAll(old(voices), notes[..i], Voice(waveform, velocity))
        invariant roll.history == old(roll.history) + Tracked(notes[..i], now)
        invariant sustainOn == old(sustainOn) && sustainedNotes == old(sustainedNotes)
        invariant recorder == old(recorder)
      {
        StartAllStep(old(voices), notes, Voice(waveform, velocity), i);
        TrackedStep(notes, now, i);
        AppendAssoc(old(roll.history), Tracked(notes[..i], now), Played(notes[i], now, 0.5));
        StartVoice(notes[i], velocity, now);
      }
      WholePrefix(notes);
    }

    /** `changeOctave(delta)`. */
    method ChangeOctave(delta: int)
      requires Valid()
      modifies this`octaveOffset
      ensures Valid()
      ensures octaveOffset == ClampOctave(old(octaveOffset) + delta)
    {
      octaveOffset := ClampOctave(octaveOffset + delta);
    }

    /** `toggleRecording` (the record button and shift+R). */
    method ToggleRecording(now: real)
      requires Valid()
      modifies this`recorder
      ensures Valid()
      ensures recorder == SynthVoices.ToggleRecording(old(recorder), now)
    {
      recorder := SynthVoices.ToggleRecording(recorder, now);
    }

    /** The stop button: it toggles only a running recording. */
    method StopRecording(now: real)
      requires Valid()
      modifies this`recorder
      ensures Valid()
      ensures !recorder.recording
      ensures recorder.notes == old(recorder.notes) && recorder.pending == old(recorder.pending)
      ensures recorder.recordStart == old(recorder.recordStart)
    {
      if recorder.recording {
        ToggleRecording(now);
      }
    }

    /** `handleKeyDown` on key `rawKey`. */
    method HandleKeyDown(rawKey: string, shift: bool, now: real)
      requires Valid()
      modifies this, roll
      ensures Valid()
      ensures var a := KeyDownAction(ToLower(rawKey), shift);
              var n := KeyNote(a, old(octaveOffset), old(voices.active).Keys);
              && waveform == (if a.Press? && a.select.Some? then a.select.value else old(waveform))
              && octaveOffset == (if a.ShiftOctave? then ClampOctave(old(octaveOffset) + a.delta) else old(octaveOffset))
              && voices == (if n.Some? then SynthVoices.StartVoice(old(voices), n.value, Voice(waveform, 1.0)) else old(voices))
              && roll.history == old(roll.history) + (if n.Some? then [Played(n.value, now, 0.5)] else [])
              && recorder == (if a == ToggleRecord then SynthVoices.ToggleRecording(old(recorder), now)
                              else if n.Some? then RecordPress(old(recorder), n.value, now)
                              else old(recorder))
      ensures adsr == old(adsr) && pitchBendSemitones == old(pitchBendSemitones)
      ensures sustainOn == old(sustainOn) && sustainedNotes == old(sustainedNotes)
      ensures seqState == old(seqState) && seqPosition == old(seqPosition)
    {
      var key := ToLower(rawKey);
      match KeyDownAction(key, shift) {
        case ToggleRecord => {
          ToggleRecording(now);
        }
        case PlayBack => {
        }
        case ShiftOctave(delta) => {
          ChangeOctave(delta);
        }
        case Press(select, note) => {
          if select.Some? {
            waveform := select.value;
          }
          if note.None? {
            return;
          }
          var midi := WithOffset(note.value, octaveOffset);
          if midi in voices.active {
            return;
          }
          PressNote(midi, 1.0, now);
        }
      }
    }

    /** `handleKeyUp` on key `rawKey`. */
    method HandleKeyUp(rawKey: string, now: real)
      requires Valid()
      modifies this`sustainedNotes, this`voices, this`recorder
      ensures Valid() && SameSettings() && sustainOn == old(sustainOn)
      ensures var n := EmulatedKey(ToLower(rawKey));
              var midi := WithOffset(n.GetOr(0), octaveOffset);
              && (n.None? || old(sustainOn) ==> voices == old(voices) && recorder == old(recorder))
              && (n.Some? && old(sustainOn) ==> sustainedNotes == SetAdd(old(sustainedNotes), midi))
              && (n.None? || !old(sustainOn) ==> sustainedNotes == old(sustainedNotes))
              && (n.Some? && !old(sustainOn) ==>
                    voices == StopVoice(old(voices), midi) &&
                    recorder == RecordRelease(old(recorder), midi, now))
    {
      var n := EmulatedKey(ToLower(rawKey));
      if n.None? {
        return;
      }
      var midi := WithOffset(n.value, octaveOffset);
      ReleaseNote(midi, now);
    }

    /** The damper pedal going up: every sustained note ends, in the order
        it was added, and the set is emptied. */
    method ReleaseSustained(now: real)
      requires Valid()
      modifies this
      ensures Valid() && SameSettings() && sustainOn == old(sustainOn)
      ensures voices == StopAll(old(voices), old(sustainedNotes))
      ensures recorder == RecordReleaseAll(old(recorder), old(sustainedNotes), now)
      ensures sustainedNotes == []
    {
      EndNotes(sustainedNotes, now);
      sustainedNotes := [];
    }

    /** `onmidimessage` for the message `[status, data1, data2]`. */
    method HandleMidi(status: Byte, data1: Byte, data2: Byte, now: real)
      requires Valid()
      modifies this, roll
      ensures Valid()
      ensures waveform == old(waveform) && octaveOffset == old(octaveOffset) && adsr == old(adsr)
      ensures seqState == old(seqState) && seqPosition == old(seqPosition)
      ensures var e := Decode(status, data1, data2);
              && (e.NoteOn? ==>
                    voices == SynthVoices.StartVoice(old(voices), e.note, Voice(waveform, e.velocity)) &&
                    recorder == RecordPress(old(recorder), e.note, now) &&
                    roll.history == old(roll.history) + [Played(e.note, now, 0.5)])
              && (e.NoteOff? && old(sustainOn) ==>
                    sustainedNotes == SetAdd(old(sustainedNotes), e.note) &&
                    voices == old(voices) && recorder == old(recorder))
              && (e.NoteOff? && !old(sustainOn) ==>
                    voices == StopVoice(old(voices), e.note) &&
                    recorder == RecordRelease(old(recorder), e.note, now))
              && (e.Sustain? ==> sustainOn == e.down)
              && (e == Sustain(false) ==>
                    voices == StopAll(old(voices), old(sustainedNotes)) &&
                    recorder == RecordReleaseAll(old(recorder), old(sustainedNotes), now) &&
                    sustainedNotes == [])
              && (e == Sustain(true) ==>
                    voices == old(voices) && recorder == old(recorder) &&
                    sustainedNotes == old(sustainedNotes))
              && (e.Bend? ==> pitchBendSemitones == BendSemitones(e.amount))
              && (!e.Bend? ==> pitchBendSemitones == old(pitchBendSemitones))
              && (!e.Sustain? ==> sustainOn == old(sustainOn))
              && (e.Bend? || e == Ignore ==>
                    voices == old(voices) && recorder == old(recorder) &&
                    sustainedNotes == old(sustainedNotes))
              && (!e.NoteOn? ==> roll.history == old(roll.history))
    {
      match Decode(status, data1, data2) {
        case NoteOn(note, velocity) => {
          PressNote(note, velocity, now);
        }
        case NoteOff(note) => {
          ReleaseNote(note, now);
        }
        case Sustain(down) => {
          sustainOn := down;
          if !down {
            ReleaseSustained(now);
          }
        }
        case Bend(amount) => {
          pitchBendSemitones := BendSemitones(amount);
        }
        case Ignore => {
        }
      }
    }

    /** A click on sequencer cell (`row`, `step`). */
    method ToggleCell(row: nat, step: nat)
      requires Valid() && row < |SeqNotes| && step < Steps
      modifies this`seqState
      ensures Valid()
      ensures seqState == Toggled(old(seqState), row, step)
    {
      seqState := Toggled(seqState, row, step);
    }

    /** `advanceSequencer`: every row whose cell is on at the current step
        starts its note at velocity 0.8, top row first, and the position
        moves on by one step. */
    method AdvanceSequencer(now: real)
      requires Valid()
      modifies this, roll
      ensures Valid()
      ensures var notes := StepNotes(old(seqState), old(seqPosition), |SeqNotes|);
              && voices == StartAll(old(voices), notes, Voice(waveform, 0.8))
              && roll.history == old(roll.history) + Tracked(notes, now)
      ensures seqPosition == Advance(old(seqPosition)) && seqState == old(seqState)
      ensures waveform == old(waveform) && octaveOffset == old(octaveOffset) && adsr == old(adsr)
      ensures pitchBendSemitones == old(pitchBendSemitones) && recorder == old(recorder)
      ensures sustainOn == old(sustainOn) && sustainedNotes == old(sustainedNotes)
    {
      ghost var v0, h0 := voices, roll.history;
      for row := 0 to |SeqNotes|
        modifies this`voices, roll
        invariant Valid()
        invariant voices == StartAll(v0, StepNotes(seqState, seqPosition, row), Voice(waveform, 0.8))
        invariant roll.history == h0 + Tracked(StepNotes(seqState, seqPosition, row), now)
      {
        SequencerRow(row, now, v0, h0);
      }
      seqPosition := Advance(seqPosition);
    }

    /** One row of `advanceSequencer`: the row's note starts when its cell
        at the current step is on. */
    method SequencerRow(row: nat, now: real, ghost v0: Voices, ghost h0: seq<Played>)
      requires Valid() && row < |SeqNotes|
      requires voices == StartAll(v0, StepNotes(seqState, seqPosition, row), Voice(waveform, 0.8))
      requires roll.history == h0 + Tracked(StepNotes(seqState, seqPosition, row), now)
      modifies this`voices, roll
      ensures Valid()
      ensures voices == StartAll(v0, StepNotes(seqState, seqPosition, row + 1), Voice(waveform, 0.8))
      ensures roll.history == h0 + Tracked(StepNotes(seqState, seqPosition, row + 1), now)
    {
      ghost var before := StepNotes(seqState, seqPosition, row);
      StepNotesNext(seqState, seqPosition, row);
      if seqState[row][seqPosition] {
        AppendStep(before, SeqNotes[row], v0, Voice(waveform, 0.8), now);
        AppendAssoc(h0, Tracked(before, now), Played(SeqNotes[row], now, 0.5));
        StartVoice(SeqNotes[row], 0.8, now);
      }
    }

    /** `playChord(name)`: the chord's notes start; an unknown name does
        nothing. */
    method PlayChord(name: string, now: real)
      requires Valid()
      modifies this, roll
      ensures Valid() && SameSettings()
      ensures ChordNotes(name).None? ==> voices == old(voices) && roll.history == old(roll.history)
      ensures ChordNotes(name).Some? ==>
                voices == StartAll(old(voices), ChordNotes(name).value, Voice(waveform, 1.0)) &&
                roll.history == old(roll.history) + Tracked(ChordNotes(name).value, now)
      ensures sustainOn == old(sustainOn) && sustainedNotes == old(sustainedNotes)
      ensures recorder == old(recorder)
    {
      var notes := ChordNotes(name);
      if notes.None? {
        return;
      }
      StartNotes(notes.value, 1.0, now);
    }

    /** The timer one second after `playChord(name)`: the chord's notes end. */
    method EndChord(name: string, now: real)
      requires Valid() && ChordNotes(name).Some?
      modifies this
      ensures Valid() && SameSettings()
      ensures voices == StopAll(old(voices), ChordNotes(name).value)
      ensures recorder == RecordReleaseAll(old(recorder), ChordNotes(name).value, now)
      ensures sustainOn == old(sustainOn) && sustainedNotes == old(sustainedNotes)
    {
      EndNotes(ChordNotes(name).value, now);
    }

    /** `applyPreset(name)`: the preset's waveform and envelope; an unknown
        name does nothing. */
    method ApplyPreset(name: string)
      requires Valid()
      modifies this`waveform, this`adsr
      ensures Valid()
      ensures PresetNamed(name).None? ==> waveform == old(waveform) && adsr == old(adsr)
      ensures PresetNamed(name).Some? ==>
                waveform == PresetNamed(name).value.waveform && adsr == PresetNamed(name).value.adsr
    {
      var preset := PresetNamed(name);
      if preset.None? {
        return;
      }
      waveform := preset.value.waveform;
      adsr := preset.value.adsr;
    }
  }
}
