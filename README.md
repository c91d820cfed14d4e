# Five browser demos, modelled in Dafny

This project models the logic of five small browser demos and proves properties of that model:

- **Image filters** (`6/scripts/script.js`). This covers:
  - the per-pixel filters: threshold, invert, sepia and posterize;
  - 3 x 3 convolution with the named kernels or a custom one;
  - blending the result with the original;
  - the RGB histogram;
  - the filter pipeline: add, move, remove, clear and run.

  An image is a flat RGBA byte buffer. Every filter writes a fresh `array` of channels. Each filter method is proved equal to a function on sequences, and the properties are proved about those functions. The page's image state is the class `FilterPipeline.Session`.

- **Voice number-guessing game** (`8/scripts/speech.js`). This covers:
  - reading a transcript as `parseInt` or as English number words;
  - the hint bands;
  - voice-command precedence;
  - the scoreboard and its achievements;
  - the guess handler, which narrows `[minRange, maxRange]` around the hidden target.

  The game is the class `GuessingGame.GuessGame`.

- **MIDI synthesizer** (`9/scripts/midi.js`). This covers:
  - the computer-keyboard mapping and the octave shift;
  - the voice bookkeeping behind `activeVoices`;
  - the sustain pedal, recording and playback cues;
  - the chord and preset tables;
  - the 8 x 16 step sequencer;
  - MIDI message decoding;
  - the piano-roll history and its pruning.

  The synthesizer is the class `Synthesizer.Synth`, and the roll is the class `PianoRoll.Roll`.

- **Live chart** (`5/scripts/chart.js`). This covers:
  - the three sliding series and value-to-pixel scaling;
  - the moving average and the statistics cards;
  - the min/max handlers;
  - the ticker flag;
  - the nearest-point hover search.

  The chart is the class `LiveChart.Chart`.

- **Map explorer** (`7/scripts/map.js`). This covers:
  - the place, icon and geofence tables;
  - search and nearby places;
  - routes and their length;
  - geofence crossings;
  - the one-shot click modes of the "Add marker" and "Measure" buttons;
  - building the map with its category layers, and the geolocation callbacks.

  The pure part is `MapPlaces`; the page state is the class `MapExplorer.Explorer`. The `overlays` object is keyed by the datatype `MapExplorer.Overlay`, and `MapExplorer.OverlayLabel` gives each key's label text. `MapExplorer.OverlayLabelsDiffer` shows that different keys have different labels, so this keying matches the code's keying by label.

Some modules are shared:
- `Wrappers` holds `Option`.
- `JsText` models the string built-ins the demos use: ASCII `toLowerCase`, `trim`, `includes` and `split(/[\s-]+/)`.
- `RealArith` holds a few lemmas about ordered fields.

Other modelling choices:
- Random draws, clock readings, parsed form fields and Leaflet's `distanceTo` are parameters.
- A timer callback is modelled as the method for the single step it fires.

## Model

| member | source | states |
|---|---|---|
| JsText.ToLower | 8/scripts/speech.js:303 | Lower-casing keeps the length and maps each character through the ASCII lower-case map. |
| JsText.ToLowerIdempotent | 8/scripts/speech.js:303 | Lower-casing a lower-cased string changes nothing. |
| JsText.TrimStart | 7/scripts/map.js:312 | The result is a suffix. Everything dropped is white space, and the result does not start with white space. |
| JsText.TrimEnd | 7/scripts/map.js:312 | The result is a prefix. Everything dropped is white space, and the result does not end with white space. |
| JsText.TrimIsSlice | 8/scripts/speech.js:303 | `trim` returns a contiguous slice of its input, with no white space at either end. |
| JsText.TrimCuts | 8/scripts/speech.js:303 | `trim` cuts right after the leading white space that `TrimStart` drops and right before the trailing white space that `TrimEnd` drops. |
| JsText.TrimIdempotent | 7/scripts/map.js:312 | Trimming twice is trimming once. |
| JsText.ContainsAt | 8/scripts/speech.js:280-293 | `includes(sub)` holds exactly when `sub` occurs at some position. |
| JsText.Split | 8/scripts/speech.js:242 | `split(/[\s-]+/)` gives at least one piece, and no piece contains a separator. |
| JsText.SplitJoin | 8/scripts/speech.js:242 | Splitting undoes joining: non-empty words without separators, joined by separator characters, split back into the same words. |
| PixelBuffer.Clamp | 6/scripts/script.js:477-479 | `clamp` lands in [0, 255] and leaves values already inside unchanged. |
| PixelBuffer.ToByteNear | 6/scripts/script.js:392 | Storing an in-range value into a `Uint8ClampedArray` changes it by at most one half. |
| PixelBuffer.ToByteMonotone | 6/scripts/script.js:392 | The clamped store preserves order. |
| PixelBuffer.ToByteExact | 6/scripts/script.js:392 | A whole number in [0, 255] is stored exactly. |
| Convolution.PixelOf | 6/scripts/script.js:387 | Every buffer index is the offset `(y * width + x) * 4 + c` of exactly one in-image pixel and channel. |
| Convolution.OffsetCoords | 6/scripts/script.js:391 | The pixel offset can be decoded back into x, y and channel. |
| Convolution.ConvolvedPixel | 6/scripts/script.js:379-395 | An interior pixel's colour channel is the clamped kernel-weighted window sum, and its alpha is 255. Border pixels keep every source channel, alpha included. |
| Convolution.SmallImageUnchanged | 6/scripts/script.js:379-380 | An image too small to have an interior pixel comes back unchanged. |
| Convolution.IdentityKernelKeepsColours | 6/scripts/script.js:379-395 | The centre-only kernel keeps every colour channel of every pixel. |
| Convolution.KernelSum | 6/scripts/script.js:382-390 | The nested kernel loop computes the window sum. |
| Convolution.ConvolvePixel | 6/scripts/script.js:381-395 | One pixel is written as the convolved image has it, and nothing else changes. |
| Convolution.ApplyConvolution | 6/scripts/script.js:373-399 | The output buffer equals `Convolved` of the input: every pixel, border and interior. |
| Histogram.Buckets | 6/scripts/script.js:237-245 | A histogram has 256 buckets. |
| Histogram.BucketsTotal | 6/scripts/script.js:241-245 | After counting n pixels, the buckets of a channel add up to n. |
| Histogram.ComputeHistogram | 6/scripts/script.js:236-247 | The r, g and b arrays each hold, per value, the count of pixels with that channel value. |
| Histogram.HistogramTotals | 6/scripts/script.js:236-247 | Each of the three histograms counts every pixel exactly once. |
| ToneFilters.ApplyInvert | 6/scripts/script.js:415-425 | The output is `Inverted(input)`: each colour channel becomes 255 minus itself, and alpha becomes 255. |
| ToneFilters.InvertTwice | 6/scripts/script.js:415-425 | Inverting twice restores every colour channel and leaves alpha opaque. |
| ToneFilters.ApplyThreshold | 6/scripts/script.js:401-413 | The output is `Thresholded(input, level)`. |
| ToneFilters.ThresholdIsBinary | 6/scripts/script.js:404-411 | Each output pixel is grey 255 when its luminance reaches the level and grey 0 otherwise, with alpha 255. |
| ToneFilters.ThresholdAntitone | 6/scripts/script.js:401-413 | Raising the threshold level never turns a pixel brighter. |
| ToneFilters.ApplySepia | 6/scripts/script.js:427-440 | The output is `Sepia(input)`, which uses the sepia matrix, a clamp per channel and alpha 255. |
| ToneFilters.SepiaMonotone | 6/scripts/script.js:434-436 | A brighter input pixel never gives a darker sepia channel. |
| ToneFilters.PosterizeLevels | 6/scripts/script.js:445 | The level count lies in [2, 32]. |
| ToneFilters.ApplyPosterize | 6/scripts/script.js:442-458 | The output is `Posterized(input, param)`. |
| ToneFilters.QuantizeIndex | 6/scripts/script.js:455-457 | Every channel snaps to a level index in [0, levels - 1], whose value lies in [0, 255]. |
| ToneFilters.SnapBack | 6/scripts/script.js:455-457 | A stored level value snaps back to its own level. |
| ToneFilters.QuantizeIdempotent | 6/scripts/script.js:455-457 | Quantizing a quantized channel changes nothing. |
| ToneFilters.PosterizeIdempotent | 6/scripts/script.js:442-458 | Posterizing twice with one parameter is posterizing once. |
| ToneFilters.PosterizeDefaultExample | 6/scripts/script.js:442-457 | The default parameter 128 gives 16 levels 17 apart, and channel 200 becomes 204. |
| ToneFilters.BlendWithOriginal | 6/scripts/script.js:460-471 | The output is `Blended(original, processed, alpha)`. |
| ToneFilters.BlendEndpoints | 6/scripts/script.js:460-471 | Intensity 0 gives the original colours and intensity 1 gives the processed ones. Alpha is 255 at every intensity. |
| ToneFilters.LerpBetween | 6/scripts/script.js:465-467 | For alpha in [0, 1], the blend lies between its two inputs. |
| ToneFilters.MixBetween | 6/scripts/script.js:465-467 | The stored blend of two channels lies between them. |
| FilterPipeline.NamedKernelsSquare | 6/scripts/script.js:31-62 | Every named kernel is 3 x 3. |
| FilterPipeline.ReadCustomKernel | 6/scripts/script.js:297-304 | The nine inputs become a 3 x 3 matrix in row-major order. |
| FilterPipeline.LabelLevelsAsWrittenDisagrees | 6/scripts/script.js:268 | As written, the posterize label announces 8 levels at the default parameter 128, while the filter uses 16. |
| FilterPipeline.PosterizeLabelCountsLevels | 6/scripts/script.js:265-272 | The corrected label's count is the filter's own level count: every posterized sample is one of that many levels. |
| FilterPipeline.BuildStep | 6/scripts/script.js:249-263 | A step records its type and parameter. The kernel is the custom grid for "custom", the named kernel for a known name, and none otherwise. |
| FilterPipeline.RunFilter | 6/scripts/script.js:352-371 | A filter keeps the buffer length. |
| FilterPipeline.UnknownKindFallsThrough | 6/scripts/script.js:365-369 | An unknown type convolves with its kernel when it has one, and otherwise returns the image unchanged. |
| FilterPipeline.RunStepsAppend | 6/scripts/script.js:181-184 | Running a pipeline with one more step applies that step to the previous result. |
| FilterPipeline.EmptyPipelineRunsSelected | 6/scripts/script.js:177-180 | With an empty pipeline, running it applies the selected filter. |
| FilterPipeline.InvertInvertRestores | 6/scripts/script.js:181-184 | A pipeline of two inversions restores every colour channel. |
| FilterPipeline.SwapExchanges | 6/scripts/script.js:331 | A swap exchanges the two entries, keeps the others, is a permutation, and undoes itself. |
| FilterPipeline.RemovedDropsOne | 6/scripts/script.js:337 | `splice(index, 1)` drops exactly entry `index`, keeps the order of the rest, and removes one occurrence. |
| FilterPipeline.RunFilterOn | 6/scripts/script.js:352-371 | The buffer returned for a step is `RunFilter` of the input. An unknown type without a kernel returns the same buffer object. |
| FilterPipeline.CloneBuffer | 6/scripts/script.js:473-475 | The clone is a fresh buffer with the same bytes. |
| FilterPipeline.RunAll | 6/scripts/script.js:181-184 | The pipeline loop computes `RunSteps` of the original. |
| FilterPipeline.Session.constructor | 6/scripts/script.js:64-67 | The page starts with no image and an empty pipeline. |
| FilterPipeline.Session.RenderWithBlend | 6/scripts/script.js:189-196 | With an image, the blend of original and processed is computed. Without one, nothing changes. |
| FilterPipeline.Session.ApplySelectedFilter | 6/scripts/script.js:167-173 | With an image, the processed buffer is the selected filter applied to the original, and the blend follows. Without one, nothing changes. |
| FilterPipeline.Session.LoadImage | 6/scripts/script.js:146-158 | A loaded image becomes the original, and the selected filter and the blend are applied to it. |
| FilterPipeline.Session.RunPipeline | 6/scripts/script.js:175-187 | The processed buffer is the pipeline run on the original, or the selected filter when the pipeline is empty. The original is left untouched. |
| FilterPipeline.Session.AddStep | 6/scripts/script.js:78-84 | The step is appended to the pipeline, and nothing else changes. |
| FilterPipeline.Session.ClearPipeline | 6/scripts/script.js:90-94 | The pipeline empties and the image size is kept. The processed image is the selected filter applied to the original, and the shown image is its blend with the original. With no image loaded, neither buffer changes. |
| FilterPipeline.Session.MoveStep | 6/scripts/script.js:328-334 | The entry is swapped with an existing neighbour, then the reordered pipeline is re-run and blended with the original (no buffer changes with no image loaded). A move past either end changes nothing. The image size is kept either way. |
| FilterPipeline.Session.RemoveStep | 6/scripts/script.js:336-340 | The entry is removed and the image size is kept. The remaining pipeline is re-run on the original and blended with it; with no image loaded, neither buffer changes. |
| SpokenNumbers.ParseWordsToNumber | 8/scripts/speech.js:239-253 | The loop computes `ParseWords`, which is the direct lookup of the whole text and otherwise the fold over the split words. |
| SpokenNumbers.ReadParts | 8/scripts/speech.js:243-252 | The loop over the parts computes the fold `WordsValue`: NaN at the first unknown word, otherwise the grouped sum. |
| SpokenNumbers.WordsValueAt | 8/scripts/speech.js:246-250 | One turn of the loop: an unknown word gives NaN, "thousand" closes the group into the total, "hundred" scales the group and any other word adds to it. |
| SpokenNumbers.UnknownWordIsNaN | 8/scripts/speech.js:246-247 | One unknown word anywhere makes the reading NaN. |
| SpokenNumbers.WordNumbersReads | 8/scripts/speech.js:64-71 | The table gives every unit, tens, "hundred" and "thousand" word its value. |
| SpokenNumbers.KeysAreWords | 8/scripts/speech.js:64-71 | Every key of the table is a single non-empty run of letters. |
| SpokenNumbers.SpellFold | 8/scripts/speech.js:245-252 | Read back, the English words of any n up to 999999 come to n. |
| SpokenNumbers.SpellWords | 8/scripts/speech.js:242 | Every word of a spelled number is a non-empty run of letters. |
| SpokenNumbers.ParseSpelled | 8/scripts/speech.js:239-253 | Spoken numbers round-trip: the words of any n up to 999999, joined by spaces or hyphens, parse back to n. |
| SpokenNumbers.ThreeHundredFortyTwo | 8/scripts/speech.js:239-253 | "three hundred forty-two" reads as 342. |
| SpokenNumbers.LeadingDigits | 8/scripts/speech.js:309 | The longest prefix of decimal digits. |
| SpokenNumbers.ParseIntDecimal | 8/scripts/speech.js:309 | `parseInt` reads back a decimal numeral followed by any non-digit tail. |
| SpokenNumbers.ParseIntNegative | 8/scripts/speech.js:309 | A minus sign before the numeral gives its negation. |
| SpokenNumbers.ParseIntNeedsDigits | 8/scripts/speech.js:309 | A transcript that starts with a letter is NaN to `parseInt`. |
| SpokenNumbers.ReadGuess | 8/scripts/speech.js:309-310 | The guess is NaN exactly when neither `parseInt` nor the word reading gives a number. `ReadGuessSpelled` and `ReadGuessDigits` state what a caller gets from it. |
| SpokenNumbers.ReadGuessSpelled | 8/scripts/speech.js:309-310 | Any number up to 999999, said as words joined by spaces or hyphens, is read back as that number. |
| SpokenNumbers.ReadGuessDigits | 8/scripts/speech.js:309 | A numeral followed by a non-digit is read as that number, whatever the word table holds. |
| GuessingGame.UpperBound | 8/scripts/speech.js:46 | Every difficulty gives a range of at least 1..50. |
| GuessingGame.SmartHint | 8/scripts/speech.js:255-262 | "Correct!" exactly when the distance is zero. |
| GuessingGame.SmartHintIsRatio | 8/scripts/speech.js:255-262 | The whole-number bands equal the source's comparisons of `diff / upperBound` with 0.4, 0.25 and 0.1. |
| GuessingGame.HintMonotone | 8/scripts/speech.js:255-262 | A larger distance never gives a hotter hint. |
| GuessingGame.CommandPrecedence | 8/scripts/speech.js:279-298 | "give up"/"surrender" wins over everything. "new game"/"restart" is next, then "repeat", then "help". No command is read exactly when none of the phrases occurs. |
| GuessingGame.EarnedExactly | 8/scripts/speech.js:164-170 | Each achievement is earned exactly under its own condition: 1 attempt, 5 or fewer attempts, 10 s or less, or 10 won games. |
| GuessingGame.LeastAppend | 8/scripts/speech.js:163 | Keeping the smaller of the best score and a new count keeps the least count ever recorded. |
| GuessingGame.Record | 8/scripts/speech.js:158-178 | A win counts one win, records the attempts and time, and keeps the best score least. A loss counts one loss and nothing else. Achievements only accumulate. |
| GuessingGame.WinScore | 8/scripts/speech.js:345-346 | A win is recorded, and "clear speech" is earned at confidence 0.9 or more. |
| GuessingGame.BestScoreIsBest | 8/scripts/speech.js:163 | The best score is no worse than any recorded game. |
| GuessingGame.Judge | 8/scripts/speech.js:312-359 | Each verdict holds exactly under its condition: NaN, outside the range, the target, below it or above it. |
| GuessingGame.Narrow | 8/scripts/speech.js:353-359 | A wrong in-range guess shrinks the range strictly, keeps the target inside, and excludes the guess. |
| GuessingGame.WrongGuessesBounded | 8/scripts/speech.js:353-359 | Wrong guesses can number at most `maxRange - minRange`, so the target is always found. |
| GuessingGame.GuessGame.constructor | 8/scripts/speech.js:46-62 | The page starts with the stored achievements and a fresh game over 1..upperBound: no attempts, player 1 on turn and the welcome hint. |
| GuessingGame.GuessGame.ResetGame | 8/scripts/speech.js:123-144 | A fresh range, target, attempt counts and player 1. The scoreboard is kept. |
| GuessingGame.GuessGame.SwitchPlayer | 8/scripts/speech.js:146-150 | The turn passes only in multiplayer mode, and nothing else changes. |
| GuessingGame.GuessGame.ToggleMultiplayer | 8/scripts/speech.js:432-436 | Back to player 1 with fresh per-player counts. |
| GuessingGame.GuessGame.UpdateScoreboard | 8/scripts/speech.js:158-178 | The scoreboard becomes `Record` of the old one. |
| GuessingGame.GuessGame.HandleGiveUp | 8/scripts/speech.js:264-270 | The game stops and counts as a loss. The range and counts stay. |
| GuessingGame.GuessGame.TakeGuess | 8/scripts/speech.js:309-364 | The verdict is `Judge`. NaN and out-of-range guesses change nothing. An accepted guess counts one attempt for the player whose turn it was. A win stops the game, announces the target and records the win, keeping the range, target and turn. A miss narrows the range, sets the hint and passes the turn, keeping the target and score. |
| GuessingGame.GuessGame.RecordWin | 8/scripts/speech.js:336-349 | A correct guess stops the game, announces the win and records it. A reading with confidence at least 0.9 earns "Clear speech". |
| GuessingGame.GuessGame.NarrowTo | 8/scripts/speech.js:352-358 | A wrong guess moves the bound on its side past it, keeps the target inside the range, and the hint names the new range. |
| GuessingGame.GuessGame.OnResult | 8/scripts/speech.js:300-365 | A command in the transcript always wins, even after the game is over. Otherwise the transcript is judged while the game is on and ignored when it is not. A give-up stops the game, records a loss and keeps everything else. A new game gets a fresh range for the difficulty, a fresh target, zeroed per-player counts, player 1 and the welcome hint, and keeps the scoreboard and the multiplayer mode. A win announces the target and records the win score. A miss narrows the range strictly around the target, gives the low or high hint for the new range and passes the turn. |
| MidiKeys.WithOffset | 9/scripts/midi.js:200-203 | A shifted key always lies in [36, 96]. |
| MidiKeys.WithOffsetClamps | 9/scripts/midi.js:200-203 | Inside the range the shift is exact, outside it sticks to the nearer end, and it preserves order. |
| MidiKeys.ClampOctave | 9/scripts/midi.js:251-254 | The octave offset stays in [-2, 2] and is unchanged inside it. |
| MidiKeys.EmulatedKey | 9/scripts/midi.js:105-109 | Every mapped key plays a note in [48, 80]. |
| MidiKeys.KeyNotes | 9/scripts/midi.js:105-109 | With no shift every key plays its own note. Two octaves down, Z and X both stick at 36, and "," and Q both play 60. |
| MidiKeys.DigitKeys | 9/scripts/midi.js:223-229 | Keys 2 and 3 select a waveform and also play a note. Keys 1 and 4 only select. |
| MidiKeys.ChordsAreTriads | 9/scripts/midi.js:323-328 | Every chord is a root-position triad: a fifth over the root, with a major third except for Am's minor third. |
| MidiKeys.PresetsInRange | 9/scripts/midi.js:509-514 | Every preset has positive times and a sustain level in (0, 1). |
| MidiKeys.EmptyGrid | 9/scripts/midi.js:97-99 | The sequencer grid is 8 x 16 with every cell off. |
| MidiKeys.ToggledFlipsOne | 9/scripts/midi.js:376-379 | A click flips exactly the clicked cell. |
| MidiKeys.ToggledTwice | 9/scripts/midi.js:376-379 | Clicking a cell twice restores the grid. |
| MidiKeys.AdvanceByMod | 9/scripts/midi.js:415 | After n ticks the position is (p + n) mod 16. |
| MidiKeys.FullCycle | 9/scripts/midi.js:415 | Sixteen ticks bring the sequencer back to where it was. |
| MidiKeys.StepNotesExact | 9/scripts/midi.js:407-413 | A row's note is played at a step exactly when its cell is on. |
| MidiMessages.AndLowNibble | 9/scripts/midi.js:423 | Masking a value below 16 with 15 keeps it. |
| MidiMessages.CommandNibble | 9/scripts/midi.js:423 | `status & 0xf0` is the high nibble with the channel cleared. |
| MidiMessages.DecodeByNibble | 9/scripts/midi.js:424-448 | Each message kind holds exactly under its command nibble: note-on with velocity, note-off or velocity 0, controller 64, pitch bend, and everything else ignored. |
| MidiMessages.ChannelIgnored | 9/scripts/midi.js:423 | The channel never changes what a message means. |
| MidiMessages.VelocityRange | 9/scripts/midi.js:425 | A note-on's velocity lies in (0, 1] and its note is the first data byte. |
| MidiMessages.BendRange | 9/scripts/midi.js:441 | The bend lies in [-8192, 8191] and is zero exactly at the centre bytes (0, 64). |
| MidiMessages.SemitoneRange | 9/scripts/midi.js:442 | The pitch-bend shift lies in [-2, 2) semitones and preserves order. |
| PianoRoll.KeptExactly | 9/scripts/midi.js:478-489 | Pruning keeps exactly the live entries. Nothing expired survives, and every live entry does. |
| PianoRoll.KeptAppend | 9/scripts/midi.js:478-489 | Pruning distributes over concatenation, so order is kept. |
| PianoRoll.ExpiredIndices | 9/scripts/midi.js:478-481 | The collected indices are increasing and are exactly the expired entries. |
| PianoRoll.SpliceDone | 9/scripts/midi.js:489 | Splicing out every collected index from the back leaves the pruned history. |
| PianoRoll.Roll.constructor | 9/scripts/midi.js:457 | The roll starts empty. |
| PianoRoll.Roll.Track | 9/scripts/midi.js:492-494 | The note is appended with its start and a 0.5 s duration. |
| PianoRoll.Roll.Prune | 9/scripts/midi.js:475-489 | The history becomes `Kept(old history, now)`. |
| SynthVoices.StopVoice | 9/scripts/midi.js:170-182 | The entry is removed, a missing note changes nothing, and the balance is kept. |
| SynthVoices.AsWrittenStrandsVoice | 9/scripts/midi.js:150-168 | As written, starting a note that already sounds leaves its old oscillator with no entry. |
| SynthVoices.StuckNoteExample | 9/scripts/midi.js:150-182 | As written: start 60, start 60 again, stop 60. No entry is left, but one oscillator sounds on. |
| SynthVoices.StartVoice | 9/scripts/midi.js:150-168 | Corrected: the note gets the new voice, and every sounding oscillator keeps exactly one entry. |
| SynthVoices.StartThenStop | 9/scripts/midi.js:150-182 | Starting a silent note and stopping it restores the voices. |
| SynthVoices.StopAllExact | 9/scripts/midi.js:246-249 | Ending a list of notes removes exactly those notes and keeps the others and the balance. |
| SynthVoices.StartAllExact | 9/scripts/midi.js:330 | Starting a list of notes adds exactly those notes and keeps the balance. |
| SynthVoices.StartAllValues | 9/scripts/midi.js:330 | Each started note carries the new voice, and the others keep theirs. |
| SynthVoices.ToggleRecording | 9/scripts/midi.js:289-300 | Starting a recording empties it and stamps the start. Stopping keeps the notes, the pending starts and the start time. |
| SynthVoices.BeginRecordNote | 9/scripts/midi.js:302-304 | The note becomes pending, and the recorded notes are unchanged. |
| SynthVoices.EndRecordNote | 9/scripts/midi.js:306-312 | Without a pending start nothing happens. Otherwise one note is recorded and its pending start is cleared. |
| SynthVoices.RecordRoundTrip | 9/scripts/midi.js:302-312 | A note pressed at t1 and released at t2 is recorded with start t1 and duration t2 - t1, relative to the recording. |
| SynthVoices.RecordReleaseAllExact | 9/scripts/midi.js:246-249 | Outside a recording nothing is noted. During one, every released note stops pending, and recorded notes are only added. |
| SynthVoices.RecordPress | 9/scripts/midi.js:232 | Outside a recording nothing changes. During one, the pressed note becomes pending with its start relative to the recording start; other pending starts and the recorded notes are kept. |
| SynthVoices.RecordRelease | 9/scripts/midi.js:248 | Outside a recording, or for a note with no pending start, nothing changes. Otherwise the note stops pending, and exactly one note is appended, with its stored start and its held length. |
| SynthVoices.PlaybackCues | 9/scripts/midi.js:314-320 | Each recorded note is cued to start at its start time and to end at its start plus its duration. |
| Synthesizer.KeyDownAction | 9/scripts/midi.js:205-229 | A plain key press selects the digit's waveform and plays the mapped note, and an arrow shifts by one octave. |
| Synthesizer.ShiftKeys | 9/scripts/midi.js:207-229 | Shift+R records and shift+P plays back. Without shift, R and P play their notes, and shift+Z still plays its note. |
| Synthesizer.KeyNote | 9/scripts/midi.js:228-231 | A note starts exactly for a mapped key whose shifted note is not already sounding. |
| Synthesizer.NoRetrigger | 9/scripts/midi.js:228-230 | An unmapped key, or a key whose note already sounds, starts nothing. |
| Synthesizer.SetAdd | 9/scripts/midi.js:240 | `Set.add` adds the note once and keeps insertion order without duplicates. |
| Synthesizer.Synth.constructor | 9/scripts/midi.js:79-100 | The synthesizer starts silent, with sawtooth, no shift, an empty recording and grid, and an empty roll. |
| Synthesizer.Synth.StartVoice | 9/scripts/midi.js:500-506 | The voice starts and is tracked on the roll. |
| Synthesizer.Synth.EndNote | 9/scripts/midi.js:246-249 | The voice stops, and a recording notes the release. |
| Synthesizer.Synth.PressNote | 9/scripts/midi.js:259-262 | A mouse, touch or MIDI press starts the voice and notes it while recording. |
| Synthesizer.Synth.ReleaseNote | 9/scripts/midi.js:263-269 | Under the pedal the note joins the sustained set and keeps sounding. Otherwise it ends. |
| Synthesizer.Synth.LeaveKey | 9/scripts/midi.js:270-272 | The note ends only if it sounds and the pedal is up. |
| Synthesizer.Synth.EndNotes | 9/scripts/midi.js:332 | Each note ends in order. |
| Synthesizer.Synth.StartNotes | 9/scripts/midi.js:330 | Each note starts in order and is tracked on the roll. |
| Synthesizer.Synth.ChangeOctave | 9/scripts/midi.js:251-254 | The offset becomes the clamped sum. |
| Synthesizer.Synth.ToggleRecording | 9/scripts/midi.js:289-300 | The recorder toggles. |
| Synthesizer.Synth.StopRecording | 9/scripts/midi.js:527-529 | The stop button ends a running recording and keeps what it recorded, its pending starts and its start time. |
| Synthesizer.Synth.HandleKeyDown | 9/scripts/midi.js:205-233 | The state after a key press follows the dispatch: waveform, octave, record toggle, or a new note that is voiced, tracked and recorded. |
| Synthesizer.Synth.HandleKeyUp | 9/scripts/midi.js:235-244 | A mapped key's note is sustained under the pedal and ended otherwise. An unmapped key changes nothing. |
| Synthesizer.Synth.ReleaseSustained | 9/scripts/midi.js:434-437 | Lifting the pedal ends every sustained note in insertion order and empties the set. |
| Synthesizer.Synth.HandleMidi | 9/scripts/midi.js:419-450 | The state after a MIDI message follows the decoded event: note-on, note-off, pedal down or up, bend, or nothing. |
| Synthesizer.Synth.ToggleCell | 9/scripts/midi.js:376-379 | The grid becomes `Toggled`. |
| Synthesizer.Synth.AdvanceSequencer | 9/scripts/midi.js:404-417 | The notes of the lit cells at the current step start in row order, and the position advances by one mod 16. |
| Synthesizer.Synth.PlayChord | 9/scripts/midi.js:322-333 | A known chord's notes start and are tracked. An unknown name does nothing. |
| Synthesizer.Synth.EndChord | 9/scripts/midi.js:332 | The chord's notes end. |
| Synthesizer.Synth.ApplyPreset | 9/scripts/midi.js:508-523 | A known preset sets the waveform and envelope. An unknown name does nothing. |
| LiveChart.VisiblePoints | 5/scripts/chart.js:25 | At least one point, and the points fit the width. |
| LiveChart.RandBetweenRange | 5/scripts/chart.js:43-45 | A draw lands in [min, max], and below max unless the span is empty. |
| LiveChart.Slide | 5/scripts/chart.js:64-71 | The new value is last, and a series never grows past `visiblePoints`. |
| LiveChart.SlideIsWindow | 5/scripts/chart.js:64-71 | One tick keeps exactly the last `visiblePoints` values. |
| LiveChart.SlideAll | 5/scripts/chart.js:64-71 | Any number of ticks keep exactly the last `visiblePoints` values seen. |
| LiveChart.Ratio | 5/scripts/chart.js:74-76 | The clamped share of the span lies in [0, 1]. |
| LiveChart.ValueToY | 5/scripts/chart.js:73-78 | Every value is drawn inside [0, height]. |
| LiveChart.ValueToYMonotone | 5/scripts/chart.js:73-78 | A larger value is drawn at a smaller or equal row. |
| LiveChart.ValueToYEnds | 5/scripts/chart.js:73-78 | The minimum is drawn at the bottom, and the maximum at the top when the span is at least 1. |
| LiveChart.MinOf | 5/scripts/chart.js:242 | The least value of the series: it occurs in the series and no value is below it. |
| LiveChart.MaxOf | 5/scripts/chart.js:243 | The greatest value of the series: it occurs in the series and no value is above it. |
| LiveChart.SmoothedBounds | 5/scripts/chart.js:114-127 | Every smoothed value lies between the series' minimum and maximum. |
| LiveChart.SmoothedConstant | 5/scripts/chart.js:114-127 | Smoothing a constant series gives the constant back. |
| LiveChart.MovingAverage | 5/scripts/chart.js:114-127 | Each output is the mean of the window clamped to the series, and the length is kept. |
| LiveChart.MovingAverageProperties | 5/scripts/chart.js:114-127 | The moving average stays in the series' range and keeps a constant series unchanged. |
| LiveChart.TrendOf | 5/scripts/chart.js:240-245 | Rising exactly when the last value exceeds the previous one, falling exactly when it is below, and steady otherwise. |
| LiveChart.SingleValueSteady | 5/scripts/chart.js:241 | A one-value series is steady. |
| LiveChart.StatsOf | 5/scripts/chart.js:239-244 | The last value and the average lie between the minimum and the maximum. |
| LiveChart.RandomSeries | 5/scripts/chart.js:57-60 | One draw per point, each inside [min, max]. |
| LiveChart.Chart.InitData | 5/scripts/chart.js:55-62 | Every series holds exactly `visiblePoints` fresh draws inside [min, max]. |
| LiveChart.Chart.constructor | 5/scripts/chart.js:26-41 | The chart starts running at 1000 ms over [0, height]. Every point of every series is the draw `RandBetween(0, height, u)` of its unit. |
| LiveChart.Chart.AddNewValues | 5/scripts/chart.js:64-71 | Each series slides by its draw and keeps `visiblePoints` values inside [min, max]. |
| LiveChart.Chart.SetIntervalValue | 5/scripts/chart.js:47-53 | The interval is set, and the ticker stays installed exactly while the chart runs. |
| LiveChart.Chart.ToggleRunning | 5/scripts/chart.js:213-222 | Running flips, and the ticker is installed exactly while running. |
| LiveChart.Chart.OnMinChange | 5/scripts/chart.js:324-332 | The minimum is set, and max is raised to min + 10 when it would not exceed it. Every point is redrawn as `RandBetween(min, max, u)` over the new range. |
| LiveChart.Chart.OnMaxChange | 5/scripts/chart.js:334-342 | The maximum is set, and min is lowered to max - 10 when it would not stay below it. Every point is redrawn as `RandBetween(min, max, u)` over the new range. |
| LiveChart.Chart.NoneNearNext | 5/scripts/chart.js:264-276 | No point is near up to the next index exactly when none was near before it and this one is not. |
| LiveChart.Chart.SearchStep | 5/scripts/chart.js:264-276 | One point of the scan keeps the search result correct for every point seen so far. |
| LiveChart.Chart.SearchedSoFar | 5/scripts/chart.js:262-277 | After any prefix of the points in search order, the result of the scan is correct for that prefix. |
| LiveChart.Chart.FindNearestPoint | 5/scripts/chart.js:262-277 | The nested loops compute the scan `NearestSoFar` defines. The result is the point nearest to the mouse and strictly within 10 px, with the earliest point winning ties. It is null exactly when no point is that close. |
| LiveChart.Chart.OnMouseMove | 5/scripts/chart.js:301-310 | The hover is the nearest point. |
| LiveChart.Chart.OnMouseLeave | 5/scripts/chart.js:311-314 | The hover is cleared. |
| MapPlaces.IconKey | 7/scripts/map.js:153-162 | Every category maps to an existing icon other than "home". |
| MapPlaces.MarkerIcon | 7/scripts/map.js:208 | A known marker type gets its own icon, and anything else gets the default. |
| MapPlaces.PlaceIcons | 7/scripts/map.js:143-144 | A category's icon key always names an icon, and every built-in place gets a non-default icon. |
| MapPlaces.FindFrom | 7/scripts/map.js:317 | The first place whose name contains the query. None exactly when no name does. |
| MapPlaces.Search | 7/scripts/map.js:311-327 | An empty query exactly when the trimmed input is empty. Otherwise the first matching place, or no match exactly when no name matches. |
| MapPlaces.SearchIgnoresCase | 7/scripts/map.js:312 | Search does not depend on the case of what is typed. |
| MapPlaces.SearchFindsName | 7/scripts/map.js:311-327 | Typing a place's name finds that place or an earlier match. |
| MapPlaces.RadiusKm | 7/scripts/map.js:279 | The radius is never zero. It is the typed number when that is a number other than zero, and 2 km otherwise. |
| MapPlaces.NearbyExactly | 7/scripts/map.js:285 | A place is listed exactly when it lies within the radius of the user. |
| MapPlaces.NearbyGrows | 7/scripts/map.js:285 | A wider radius never lists fewer places. |
| MapPlaces.PathLengthNonNegative | 7/scripts/map.js:258-264 | A route's length is never negative. |
| MapPlaces.PathLengthAppend | 7/scripts/map.js:258-264 | Adding a point lengthens the route by the leg to it. |
| MapPlaces.PathLengthJoin | 7/scripts/map.js:258-264 | Joined routes add up, with the connecting leg. |
| MapPlaces.GeofenceNames | 7/scripts/map.js:54-57 | The fence names are distinct. |
| MapPlaces.CrossingsAlternate | 7/scripts/map.js:298-309 | Over successive positions, reported crossings alternate between entering and leaving, and the first from outside is an entry. |
| MapPlaces.UpdatedExactly | 7/scripts/map.js:298-309 | A check records, per fence, whether the position is inside it, and keeps every other entry. |
| MapPlaces.ClickActionOf | 7/scripts/map.js:186-204 | A pending mode wins. A click extends the route exactly when no mode is pending and the route is active. |
| MapPlaces.AfterClick | 7/scripts/map.js:186-204 | A click uses up the pending mode. |
| MapPlaces.OneShot | 7/scripts/map.js:186-204 | A mode acts for one click only. |
| MapPlaces.AddMarkerLockout | 7/scripts/map.js:331-340 | As written: pressing Add marker, then Measure, then clicking leaves Add marker disabled with no mode pending, and nothing ever re-enables it. |
| MapPlaces.ArmAddMarker | 7/scripts/map.js:331-335 | Corrected: the mode is set, its button disabled and the other released. |
| MapPlaces.ArmMeasure | 7/scripts/map.js:336-340 | Corrected: the mode is set, its button disabled and the other released. |
| MapPlaces.ControlsStayConsistent | 7/scripts/map.js:186-204 | With the release, every handler keeps each button disabled exactly while its mode is pending. |
| MapExplorer.GeoErrorMessage | 7/scripts/map.js:379-384 | Codes 1-3 get their own messages, and any other code gets the generic one. |
| MapExplorer.OverlayLabelsDiffer | 7/scripts/map.js:27-32 | The four fixed labels and the `Places: <category>` labels are pairwise different, so no layer replaces another under its key. |
| MapExplorer.AddLayerKeepsOk | 7/scripts/map.js:91-105 | Giving a new category the next layer number, under its label and shown once the map exists, keeps the layer bookkeeping consistent. |
| MapExplorer.AddMarkerKeepsOk | 7/scripts/map.js:142-149 | Putting a place's marker, with its category icon, in its category's layer keeps the layer bookkeeping consistent. |
| MapExplorer.FenceReportMeans | 7/scripts/map.js:298-309 | A reported entry names a fence now containing the position that was recorded as outside, and a reported exit the reverse. |
| MapExplorer.ClearedExactly | 7/scripts/map.js:125-139 | Drawing the fences records each as not entered and keeps other entries. |
| MapExplorer.Explorer.constructor | 7/scripts/map.js:15-58 | The page starts without a map or position, with no mode pending and nothing drawn: no view, no custom markers, no measurement or measuring line, no open popup, no layer on the map and no entry in the layer control. The status line still shows the page's own text. |
| MapExplorer.Explorer.EnsureCategoryLayer | 7/scripts/map.js:91-105 | A category's layer is made once, labelled, and reused afterwards. |
| MapExplorer.Explorer.AddCategoryLayer | 7/scripts/map.js:92-103 | A first-seen category gets the next layer, is listed under its label and is shown and added to the control when the map exists. |
| MapExplorer.Explorer.RenderPlace | 7/scripts/map.js:142-149 | The place's marker gets its category icon and joins its category's layer. |
| MapExplorer.Explorer.RenderPlaces | 7/scripts/map.js:141-151 | Every place gets a marker. |
| MapExplorer.Explorer.DrawGeofences | 7/scripts/map.js:125-139 | Every fence starts as not entered. |
| MapExplorer.Explorer.BuildMap | 7/scripts/map.js:108-121 | The map is made at zoom 15, every place marker is on a shown layer, and the fences are cleared. |
| MapExplorer.Explorer.InitMap | 7/scripts/map.js:107-123 | The first call builds the map. A later call, where Leaflet throws, changes nothing. |
| MapExplorer.Explorer.UpdateUserLocation | 7/scripts/map.js:164-184 | The user's position is recorded. |
| MapExplorer.Explorer.OnFirstPosition | 7/scripts/map.js:354-359 | The first position builds the map at zoom 15 centred on it, puts every place marker on a shown layer, clears the fences, records the user and lists the places within the radius, with the count in the status line. When a map already exists, the handler stops and nothing changes. |
| MapExplorer.Explorer.ShowUserNearby | 7/scripts/map.js:357-358 | The user is recorded, and the nearby list is exactly the places within the radius, in table order, with their count in the status line. |
| MapExplorer.Explorer.OnWatchedPosition | 7/scripts/map.js:365-372 | A watched position builds the map if needed and records the user. Every fence then holds whether the position is inside it, starting from the cleared fences on a new map. The status line shows the last crossing, if any. |
| MapExplorer.Explorer.FallbackMap | 7/scripts/map.js:390-394 | Without a map, one is built on New York City with an error status. With a map, the second `L.map` throws and nothing changes. |
| MapExplorer.Explorer.HandleGeoError | 7/scripts/map.js:378-388 | The status shows the code's message and the existing map state is kept. A map that does not exist yet falls back to New York City. |
| MapExplorer.Explorer.NoGeolocationSupport | 7/scripts/map.js:347-351 | Without geolocation the fallback map on New York City is shown. With a map already there, only the error status changes. |
| MapExplorer.Explorer.PressAddMarker | 7/scripts/map.js:331-335 | Corrected handler: arms the mode and keeps the buttons consistent. |
| MapExplorer.Explorer.PressMeasure | 7/scripts/map.js:336-340 | Corrected handler: arms the mode and keeps the buttons consistent. |
| MapExplorer.Explorer.PlaceCustomMarker | 7/scripts/map.js:206-213 | One marker is appended, with the selected type's icon. |
| MapExplorer.Explorer.MeasureToPoint | 7/scripts/map.js:215-230 | The distance and line from the user are set, or an error is shown when the position is unknown. |
| MapExplorer.Explorer.HandleMapClick | 7/scripts/map.js:186-204 | The action follows `ClickActionOf`, and the mode is used up. A dropped marker is appended with the type's icon and reported. A measurement gives the distance and line from the user, or an error with no position. An active route gets the point. What the action does not touch keeps its markers, measurement, route and status. |
| MapExplorer.Explorer.ToggleRoute | 7/scripts/map.js:232-238 | Route mode flips. |
| MapExplorer.Explorer.RouteDistance | 7/scripts/map.js:258-264 | The loop computes the route's length. |
| MapExplorer.Explorer.RedrawRoute | 7/scripts/map.js:247-256 | The line is drawn exactly when there are two or more points, and the length is recomputed. |
| MapExplorer.Explorer.AddRoutePoint | 7/scripts/map.js:240-245 | One point and marker are added, and the length grows by the new leg. |
| MapExplorer.Explorer.ClearRoute | 7/scripts/map.js:266-276 | The route is emptied and its length is zero. |
| MapExplorer.Explorer.UpdateNearbyPlaces | 7/scripts/map.js:278-296 | The nearby list is the places within the radius, in metres. It is empty when the position is unknown. |
| MapExplorer.Explorer.CheckGeofences | 7/scripts/map.js:298-309 | Each fence records whether the position is inside it, and the status reports the last crossing. |
| MapExplorer.Explorer.HandleSearch | 7/scripts/map.js:311-327 | An empty or unmatched query is an error. Otherwise the view flies to the first match at zoom 16 and opens its popup. |

## Left out

- Drawing on canvases, DOM text, CSS classes, popups, tiles and the layer control's widgets are left out. Status and hint texts are datatypes, not formatted strings.
- Timers are left out: `setTimeout` and `setInterval` scheduling, the chart ticker, the sequencer interval, the metronome, the listening reminder, the delayed reset after giving up, and the chord release after one second. Each timer's single step is its own method, e.g. `Synthesizer.Synth.EndChord` and `GuessingGame.GuessGame.ResetGame`.
- Randomness (`Math.random`, `generateNumber`) is left out. The draws are parameters.
- Clocks (`performance.now`, `ctx.currentTime`) are left out. Readings are parameters.
- The Web Audio graph is left out: oscillators, gains, effects, the analyser spectrum and audio capture. Only the bookkeeping of which oscillators sound is modelled.
- `midiToFreq` and the pitch-bend retune of active oscillators' frequencies are left out. Only `pitchBendSemitones` is kept.
- Short MIDI messages are left out: every message is taken as three bytes.
- Speech synthesis, speech recognition start/stop, `localStorage`, language and continuous-listening toggles, sounds and the range and statistics drawings are left out.
- The chart's grid, smoothing, chart-type and theme toggles and the image export are left out, because they only affect drawing. The reset button's `resetChart` is `LiveChart.Chart.InitData`.
- Leaflet is left out, including `distanceTo`. Distance is an uninterpreted non-negative function. Base layers, the user marker and accuracy circle, and popup contents are not modelled.
- Floating point is modelled with exact reals: no NaN, infinities or rounding in sums, and no `toFixed` formatting. Rounding that the code does explicitly (`Math.round`, the `Uint8ClampedArray` store) is modelled.
- `parseFloat` and `Number(...)` on form fields are left out. The parsed value is a parameter, with NaN as `None` where the code tests for it.
- Keys of `Object.prototype` are left out of JS object lookups (`kernels[type]`, `icons[type]`, `categoryLayers[category]`, the category-to-icon map, `emulatedKeys`, `chords[name]` of 9/scripts/midi.js:329, `presets[name]` of 9/scripts/midi.js:515, and the per-word `wordNumbers[p]` of 8/scripts/speech.js:246): every lookup is on the table's own keys.
- Case mapping and white space beyond ASCII and the common Unicode spaces are left out.
- Loading an image file (`FileReader`, `Image`) is left out. `FilterPipeline.Session.LoadImage` takes the decoded buffer.
- `MapExplorer.Explorer.InitMap` does not model Leaflet throwing on a second `L.map` into the same container: a second call is modelled as ending the handler with no change.
- `MapExplorer.Explorer.HandleSearch` does not model the `TypeError` of `map.flyTo` before the map exists: the handler is modelled as stopping with no change.
- `LiveChart.Chart.FindNearestPoint` compares squared distances instead of `Math.sqrt`. Because the square root is monotone, the choice of point is the same.
- `GuessingGame.SmartHint` is stated on whole numbers. `GuessingGame.SmartHintIsRatio` proves it equals the code's real-ratio comparisons.
- `Synthesizer.Synth.StartVoice` uses the corrected `SynthVoices.StartVoice` (see Findings). The code as written is `SynthVoices.StartVoiceAsWritten`.
- `FilterPipeline.BuildLabel` uses the corrected level count (see Findings).
- `MapExplorer.Explorer.PressAddMarker` and `MapExplorer.Explorer.PressMeasure` use the corrected button handlers (see Findings).

## Findings

| source | as written | input that shows it | evidently intended | confidence | as-written member | corrected member |
|---|---|---|---|---|---|---|
| 6/scripts/script.js:268 | The posterize label announces `max(2, round(param / 16))` levels, but `applyPosterize` (line 445) uses `round(param / 8)`, clamped to [2, 32]. | The default parameter 128: the label says 8 levels and the filter produces 16. | The label names the filter's own level count. | not executed | FilterPipeline.LabelLevelsAsWrittenDisagrees | FilterPipeline.PosterizeLabelCountsLevels |
| 9/scripts/midi.js:150-168 | `startVoice` overwrites the `activeVoices` entry of a note that already sounds, and the old oscillator is never stopped. | Note 60 is started twice, then stopped: a mouse press, a release under the sustain pedal, and a second press. One oscillator keeps sounding with no entry. | A retriggered note releases its previous oscillator first. | not executed | SynthVoices.StuckNoteExample | SynthVoices.StartVoice |
| 7/scripts/map.js:331-340 | Each mode button disables itself and sets `clickMode` without re-enabling the other button. `handleMapClick` re-enables only the button of the mode it consumes. | Press "Add marker", then "Measure", then click the map. "Add marker" stays disabled for good. | Arming one mode releases the other mode's button. | not executed | MapPlaces.AddMarkerLockout | MapPlaces.ControlsStayConsistent |
