/** The lookup tables and pure helpers of the MIDI synthesizer
    (9/scripts/midi.js): the computer-keyboard note map, octave shifting
    with its clamps, waveform keys, chords, presets and the 8 x 16 step
    sequencer grid. */
module MidiKeys {
  import opened Wrappers

  /* ---------------- octave and note range ---------------- */

  const LowestNote := 36
  const HighestNote := 96

  /** `withOffset`: shift by whole octaves, then clamp to [36, 96]. */
  function WithOffset(midi: int, octaveOffset: int): (r: int)
    ensures LowestNote <= r <= HighestNote
  {
    var shifted := midi + octaveOffset * 12;
    if HighestNote < shifted then HighestNote
    else if shifted < LowestNote then LowestNote
    else shifted
  }

  /** Inside the range the shift is exact, outside it sticks to the
      nearer end, and it never reorders two notes. */
  lemma WithOffsetClamps(a: int, b: int, octaveOffset: int)
    requires a <= b
    ensures LowestNote <= a + 12 * octaveOffset <= HighestNote ==> WithOffset(a, octaveOffset) == a + 12 * octaveOffset
    ensures a + 12 * octaveOffset < LowestNote ==> WithOffset(a, octaveOffset) == LowestNote
    ensures HighestNote < a + 12 * octaveOffset ==> WithOffset(a, octaveOffset) == HighestNote
    ensures WithOffset(a, octaveOffset) <= WithOffset(b, octaveOffset)
  {
  }

  /** `changeOctave`'s clamp of the offset to [-2, 2]. */
  function ClampOctave(o: int): (r: int)
    ensures -2 <= r <= 2
    ensures -2 <= o <= 2 ==> r == o
  {
    if o > 2 then 2 else if o < -2 then -2 else o
  }

  /* ---------------- keyboard map ---------------- */

  /** `emulatedKeys`: the note of a (lower-cased) key, two rows per octave. */
  function EmulatedKey(key: string): (n: Option<int>)
    ensures n.Some? ==> 48 <= n.value <= 80
  {
    if |key| != 1 then None
    else match key[0]
      case 'z' => Some(48) case 's' => Some(49) case 'x' => Some(50) case 'd' => Some(51)
      case 'c' => Some(52) case 'v' => Some(53) case 'g' => Some(54) case 'b' => Some(55)
      case 'h' => Some(56) case 'n' => Some(57) case 'j' => Some(58) case 'm' => Some(59)
      case ',' => Some(60) case 'q' => Some(60) case '2' => Some(61) case 'w' => Some(62)
      case '3' => Some(63) case 'e' => Some(64) case 'r' => Some(65) case '5' => Some(66)
      case 't' => Some(67) case '6' => Some(68) case 'y' => Some(69) case '7' => Some(70)
      case 'u' => Some(71) case 'i' => Some(72) case '9' => Some(73) case 'o' => Some(74)
      case '0' => Some(75) case 'p' => Some(76) case '[' => Some(77) case '=' => Some(78)
      case ']' => Some(79) case '\\' => Some(80)
      case _ => None
  }

  /** With no octave shift every mapped key sounds its own note; two
      octaves down the lowest keys are clamped together onto note 36. */
  lemma KeyNotes()
    ensures forall k: string :: EmulatedKey(k).Some? ==> WithOffset(EmulatedKey(k).value, 0) == EmulatedKey(k).value
    ensures WithOffset(EmulatedKey("z").value, -2) == WithOffset(EmulatedKey("x").value, -2) == LowestNote
    ensures EmulatedKey(",") == EmulatedKey("q") == Some(60)
  {
  }

  datatype Waveform = Sine | Square | Sawtooth | Triangle

  /** The digit keys 1-4 and the waveform each selects. */
  function WaveformKey(key: string): Option<Waveform>
  {
    if key == "1" then Some(Sine)
    else if key == "2" then Some(Square)
    else if key == "3" then Some(Sawtooth)
    else if key == "4" then Some(Triangle)
    else None
  }

  /** Selecting a waveform does not end the key handling: "2" and "3" are
      also note keys, while "1" and "4" only select. */
  lemma DigitKeys()
    ensures WaveformKey("2") == Some(Square) && EmulatedKey("2") == Some(61)
    ensures WaveformKey("3") == Some(Sawtooth) && EmulatedKey("3") == Some(63)
    ensures WaveformKey("1") == Some(Sine) && EmulatedKey("1") == None
    ensures WaveformKey("4") == Some(Triangle) && EmulatedKey("4") == None
  {
  }

  /* ---------------- chords and presets ---------------- */

  /** `playChord`'s table. */
  function ChordNotes(name: string): Option<seq<int>>
  {
    if name == "C" then Some([60, 64, 67])
    else if name == "G" then Some([67, 71, 74])
    else if name == "Am" then Some([69, 72, 76])
    else if name == "F" then Some([65, 69, 72])
    else None
  }

  /** Every chord is a root-position triad: a fifth over the root, with a
      major third for C, G and F and a minor third for A minor. */
  lemma ChordsAreTriads(name: string)
    requires ChordNotes(name).Some?
    ensures |ChordNotes(name).value| == 3
    ensures ChordNotes(name).value[2] - ChordNotes(name).value[0] == 7
    ensures ChordNotes(name).value[1] - ChordNotes(name).value[0] == (if name == "Am" then 3 else 4)
  {
  }

  /** The envelope settings, in seconds and as a sustain level. */
  datatype Adsr = Adsr(attack: real, decay: real, sustain: real, release: real)

  datatype Preset = Preset(waveform: Waveform, adsr: Adsr)

  /** `applyPreset`'s table. */
  function PresetNamed(name: string): Option<Preset>
  {
    if name == "piano" then Some(Preset(Sine, Adsr(0.01, 0.2, 0.7, 0.4)))
    else if name == "organ" then Some(Preset(Square, Adsr(0.02, 0.05, 0.9, 0.2)))
    else if name == "strings" then Some(Preset(Triangle, Adsr(0.2, 0.3, 0.8, 0.8)))
    else if name == "lead" then Some(Preset(Sawtooth, Adsr(0.01, 0.1, 0.6, 0.25)))
    else None
  }

  /** Every preset has positive times and a sustain level inside (0, 1). */
  lemma PresetsInRange(name: string)
    requires PresetNamed(name).Some?
    ensures var a := PresetNamed(name).value.adsr;
            a.attack > 0.0 && a.decay > 0.0 && a.release > 0.0 && 0.0 < a.sustain < 1.0
  {
  }

  /* ---------------- step sequencer ---------------- */

  /** `seqNotes`: one row per note, highest first. */
  const SeqNotes: seq<int> := [72, 71, 69, 67, 65, 64, 62, 60]
  const Steps := 16

  /** An 8 x 16 grid of cells. */
  predicate IsGrid(g: seq<seq<bool>>)
  {
    |g| == |SeqNotes| && forall r :: 0 <= r < |g| ==> |g[r]| == Steps
  }

  /** The grid as built: every cell off. */
  function EmptyGrid(): (g: seq<seq<bool>>)
    ensures IsGrid(g)
    ensures forall r, s :: 0 <= r < |g| && 0 <= s < Steps ==> !g[r][s]
  {
    seq(|SeqNotes|, _ => seq(Steps, _ => false))
  }

  /** A click on cell (`row`, `step`). */
  function Toggled(g: seq<seq<bool>>, row: nat, step: nat): (t: seq<seq<bool>>)
    requires IsGrid(g) && row < |SeqNotes| && step < Steps
    ensures IsGrid(t)
  {
    g[row := g[row][step := !g[row][step]]]
  }

  /** A click flips exactly the clicked cell. */
  lemma ToggledFlipsOne(g: seq<seq<bool>>, row: nat, step: nat, r: nat, s: nat)
    requires IsGrid(g) && row < |SeqNotes| && step < Steps && r < |SeqNotes| && s < Steps
    ensures Toggled(g, row, step)[r][s] == if r == row && s == step then !g[r][s] else g[r][s]
  {
  }

  /** Clicking the same cell twice restores the grid. */
  lemma ToggledTwice(g: seq<seq<bool>>, row: nat, step: nat)
    requires IsGrid(g) && row < |SeqNotes| && step < Steps
    ensures Toggled(Toggled(g, row, step), row, step) == g
  {
    var t := Toggled(Toggled(g, row, step), row, step);
    assert t[row] == g[row];
  }

  /** The position after one tick. */
  function Advance(p: nat): (q: nat)
    ensures q < Steps
  {
    (p + 1) % Steps
  }

  /** The position after `n` ticks. */
  function AdvanceBy(p: nat, n: nat): nat
  {
    if n == 0 then p else Advance(AdvanceBy(p, n - 1))
  }

  lemma {:induction false} AdvanceByMod(p: nat, n: nat)
    requires p < Steps
    ensures AdvanceBy(p, n) == (p + n) % Steps
  {
    if n > 0 {
      AdvanceByMod(p, n - 1);
      SuccMod(p + n - 1);
    }
  }

  /** Counting one on from a position is counting one on, then wrapping. */
  lemma SuccMod(x: nat)
    ensures ((x % Steps) + 1) % Steps == (x + 1) % Steps
  {
    var q, r := x / Steps, x % Steps;
    assert x == q * Steps + r;
    if r < Steps - 1 {
      assert x + 1 == q * Steps + (r + 1);
    } else {
      assert x + 1 == (q + 1) * Steps;
    }
  }

  /** Sixteen ticks bring the sequencer back to where it was. */
  lemma FullCycle(p: nat)
    requires p < Steps
    ensures AdvanceBy(p, Steps) == p
  {
    AdvanceByMod(p, Steps);
  }

  /** The notes `advanceSequencer` starts at position `p`, top row first. */
  function StepNotes(g: seq<seq<bool>>, p: nat, rows: nat): (notes: seq<int>)
    requires IsGrid(g) && p < Steps && rows <= |SeqNotes|
    ensures |notes| <= rows
    ensures forall k :: 0 <= k < |notes| ==> notes[k] in SeqNotes
  {
    if rows == 0 then []
    else StepNotes(g, p, rows - 1) + (if g[rows - 1][p] then [SeqNotes[rows - 1]] else [])
  }

  /** A row's note is played at position `p` exactly when its cell is on. */
  lemma {:induction false} StepNotesExact(g: seq<seq<bool>>, p: nat, rows: nat, r: nat)
    requires IsGrid(g) && p < Steps && rows <= |SeqNotes| && r < |SeqNotes|
    ensures SeqNotes[r] in StepNotes(g, p, rows) <==> r < rows && g[r][p]
  {
    if rows > 0 {
      StepNotesExact(g, p, rows - 1, r);
    }
  }
}
