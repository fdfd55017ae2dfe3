# Piano keyboard core, in Dafny

This project models the core of the Android piano-keyboard screen in
`KeyboardScreen.kt`:

- **Layout** (`keys.dfy`, module `Keys`). There are 36 consecutive semitones from a start pitch. Each key is named from its pitch class. A key is black when its name carries a `#`.
- **Hit-testing** (`hit_test.dfy`, module `HitTest`). `keyAtPosition` and `isOverBlackKey` are modelled on exact reals.
  - In the top 60% band, black keys win when their footprint holds `x`. The footprint is the slot centre ± 0.3 white-key widths, tested octave by octave and slot by slot.
  - Otherwise the clamped white column `(x / whiteW).toInt()` decides.
- **Drawing** (`drawing.dfy`, module `Drawing`). The canvas body is a sequence of drawing commands.
  - Each white key gives one rectangle and one divider.
  - Each black key is drawn by the same slot loop as the hit-test.
  - A key is painted in its pressed colour exactly when its pitch is pressed.
- **Gestures** (`events.dfy`, `gestures.dfy`, modules `Events` and `Gestures`). The `PianoKeyboard` class holds:
  - the pressed-key set;
  - the log of `onNoteOn`/`onNoteOff` calls;
  - the pitch that a suspended tap press is holding.

  Each tap and drag handler is a method that updates these fields. The handlers hit-test with the corrected `keyAtPosition` (see "## Findings"). A log leaves a pitch *sounding* when the last call about that pitch is a note-on.
- **Player** (`player.dfy`, module `Player`). The `NotePlayer` class keeps one cached track per pitch. `trackFor` creates a track on first use. `noteOn` and `noteOff` start and stop it, and `release` frees every track.
- **Wiring** (`screen.dfy`, module `Screen`). The keyboard's callbacks are connected to the player, and the player is released when the screen is disposed.

What is proved:

- Every start pitch gives 21 white and 15 black keys, in ascending pitch, with pitches as unbounded integers (see `Keys.BuildThreeOctaves` under "## Left out"). Filtering out the white or the black keys keeps that order.
- No point lies over two black keys.
- The hit-test mirrors the drawing, for black keys and for white columns.
- Left of the first black key, the result is the first white key; at or beyond the right edge, it is the last. On an ascending layout these are the lowest and the highest white pitch.
- The handlers keep at most one key pressed, and that key's note sounding.
- `OnDrag`, `OnDragEnd` and `OnDragCancel` keep the sounding notes equal to the pressed keys. `OnDragStart` and a tap press keep them equal only when nothing was pressed before: a drag that starts while a tap holds a key leaves the tapped note sounding unhighlighted.
- `release` leaves no track unreleased, and forgets none.
- A player fed the keyboard's calls plays exactly the notes that the calls leave sounding.

Where the code and its design description disagree, the model follows the code:

- A press *replaces* the pressed set with `{midi}` instead of adding to it.
- The `finally` of a tap *empties* the set instead of removing one pitch.
- Disposing the screen calls only `release()`. It sends no note-off for a key that is still pressed.

## Model

| member | source | states |
|---|---|---|
| Keys.Rem | app/src/main/java/com/yourname/musiclearning/keyboard/KeyboardScreen.kt:141 | Kotlin's `%` on `Int`: the dividend is the divisor times the quotient truncated toward zero plus the remainder; the remainder is smaller than the divisor in magnitude and has the sign of the dividend |
| Keys.PitchClass | app/src/main/java/com/yourname/musiclearning/keyboard/KeyboardScreen.kt:141 | `(midi % 12 + 12) % 12` always lies in 0..11 and is the true residue of the pitch modulo 12, negative pitches included |
| Keys.MakeKey | app/src/main/java/com/yourname/musiclearning/keyboard/KeyboardScreen.kt:140-147 | a key has the given pitch, is named after its pitch class, and is black exactly for C#, D#, F#, G# and A# |
| Keys.BuildThreeOctaves | app/src/main/java/com/yourname/musiclearning/keyboard/KeyboardScreen.kt:137-149 | 36 keys; key `i` has pitch `startMidi + i`, its pitch-class name, and is black exactly when that class is an accidental |
| Keys.Whites | app/src/main/java/com/yourname/musiclearning/keyboard/KeyboardScreen.kt:289 | the white-key filter keeps exactly the non-black keys and never lengthens the list |
| Keys.Blacks | app/src/main/java/com/yourname/musiclearning/keyboard/KeyboardScreen.kt:290 | the black-key filter keeps exactly the black keys and never lengthens the list |
| Keys.WhitesBlacksAscending | app/src/main/java/com/yourname/musiclearning/keyboard/KeyboardScreen.kt:289-290 | filtering keeps the order: the white keys and the black keys of a layout in ascending pitch are themselves in ascending pitch |
| Keys.WhiteEnds | app/src/main/java/com/yourname/musiclearning/keyboard/KeyboardScreen.kt:289 | on an ascending layout the first white key has the lowest white pitch and the last white key the highest |
| Keys.LayoutAscending | app/src/main/java/com/yourname/musiclearning/keyboard/KeyboardScreen.kt:139-148 | the layout lists its keys in strictly ascending pitch |
| Keys.PartitionSize | app/src/main/java/com/yourname/musiclearning/keyboard/KeyboardScreen.kt:289-290 | the white and black filters split the keys: their lengths add up to the whole |
| Keys.BlacksFromCount | app/src/main/java/com/yourname/musiclearning/keyboard/KeyboardScreen.kt:139-148 | the number of black keys among `n` consecutive pitches is the count of accidental pitch classes among them |
| Keys.BlackCountSplit | app/src/main/java/com/yourname/musiclearning/keyboard/KeyboardScreen.kt:139-148 | counting accidentals over a run of pitches adds up over consecutive sub-runs |
| Keys.AccidentalsPerOctave | app/src/main/java/com/yourname/musiclearning/keyboard/KeyboardScreen.kt:138-145 | any twelve consecutive pitches hold exactly five accidentals, whatever the first pitch |
| Keys.ThreeOctaveCounts | app/src/main/java/com/yourname/musiclearning/keyboard/KeyboardScreen.kt:137-149 | for every start pitch (as an unbounded integer) the layout has 21 white and 15 black keys (three whole groups of seven white keys) |
| Keys.FirstAccidentalAfterC | app/src/main/java/com/yourname/musiclearning/keyboard/KeyboardScreen.kt:137-149 | a layout starting on a C has the C# above it as its first black key |
| HitTest.Clamp | app/src/main/java/com/yourname/musiclearning/keyboard/KeyboardScreen.kt:347 | `coerceIn(lo, hi)` returns a value in the range: the input when it is inside, otherwise the nearer bound |
| HitTest.Truncate | app/src/main/java/com/yourname/musiclearning/keyboard/KeyboardScreen.kt:347 | `toInt()` rounds toward zero: within one below a non-negative quotient, within one above a negative one |
| HitTest.WhiteWidth | app/src/main/java/com/yourname/musiclearning/keyboard/KeyboardScreen.kt:346 | a positive surface width gives a positive white-key width |
| HitTest.WhiteKeysSpanWidth | app/src/main/java/com/yourname/musiclearning/keyboard/KeyboardScreen.kt:346 | the white columns tile the surface exactly |
| HitTest.BlackSlots | app/src/main/java/com/yourname/musiclearning/keyboard/KeyboardScreen.kt:372-380 | the slot loops test five black keys per whole octave of white keys, and stop once the black keys run out |
| HitTest.FirstBlackHit | app/src/main/java/com/yourname/musiclearning/keyboard/KeyboardScreen.kt:376-388 | the slot found holds `x` in its closed footprint, no earlier slot does, and no slot does when none is found |
| HitTest.IsOverBlackKey | app/src/main/java/com/yourname/musiclearning/keyboard/KeyboardScreen.kt:360-389 | the nested octave/slot loop with its early break and early return finds the first black key whose footprint holds `x`, and it is one of the black keys |
| HitTest.WhiteIndex | app/src/main/java/com/yourname/musiclearning/keyboard/KeyboardScreen.kt:347 | the clamped column is always a valid white-key index |
| HitTest.Locate | app/src/main/java/com/yourname/musiclearning/keyboard/KeyboardScreen.kt:344-357 | the hit-test answers exactly when there is a white key (the source throws in `coerceIn` otherwise), and the answer is a pitch of the keys or of the black keys tested |
| HitTest.KeyAtPosition | app/src/main/java/com/yourname/musiclearning/keyboard/KeyboardScreen.kt:344-357 | the corrected hit-test answers exactly when there is a white key, and always with a pitch of the keyboard |
| HitTest.KeyAtPositionAsWritten | app/src/main/java/com/yourname/musiclearning/keyboard/KeyboardScreen.kt:353 | as written, the answer is a pitch of the keyboard or of the fixed middle-C layout that `isOverBlackKey` rebuilds |
| HitTest.OffsetGap | app/src/main/java/com/yourname/musiclearning/keyboard/KeyboardScreen.kt:373-381 | black-key centres, in slot order, lie at least 0.9 white-key widths apart |
| HitTest.FootprintsDisjoint | app/src/main/java/com/yourname/musiclearning/keyboard/KeyboardScreen.kt:373-384 | no point lies inside the footprints of two different black keys |
| HitTest.UniqueHit | app/src/main/java/com/yourname/musiclearning/keyboard/KeyboardScreen.kt:376-388 | a point over the `k`-th black key finds exactly that key, whatever the test order |
| HitTest.LocateBlack | app/src/main/java/com/yourname/musiclearning/keyboard/KeyboardScreen.kt:350-354 | in the top band a point over a tested black key gives that black key's pitch, never the white key beneath |
| HitTest.BlackPriority | app/src/main/java/com/yourname/musiclearning/keyboard/KeyboardScreen.kt:350-354 | the corrected hit-test gives the `k`-th black key of the layout wherever it lies over it in the top band |
| HitTest.WhiteBelowBand | app/src/main/java/com/yourname/musiclearning/keyboard/KeyboardScreen.kt:350-356 | below the black band every point gives the white key of its clamped column |
| HitTest.ColumnQuotient | app/src/main/java/com/yourname/musiclearning/keyboard/KeyboardScreen.kt:347 | a point inside column `c` has a quotient `x / whiteW` in `[c, c + 1)` |
| HitTest.QuotientIndex | app/src/main/java/com/yourname/musiclearning/keyboard/KeyboardScreen.kt:347 | when `(x / whiteW).toInt()` names a column, the clamp keeps it |
| HitTest.LocateWhite | app/src/main/java/com/yourname/musiclearning/keyboard/KeyboardScreen.kt:350-356 | away from every tested black key the hit-test falls through to the clamped white column |
| HitTest.WhiteColumnHit | app/src/main/java/com/yourname/musiclearning/keyboard/KeyboardScreen.kt:347-356 | inside the `c`-th white column and clear of the black keys, the result is the `c`-th white key |
| HitTest.NoBlackAtLeft | app/src/main/java/com/yourname/musiclearning/keyboard/KeyboardScreen.kt:373-384 | no black footprint reaches left of 0.35 white-key widths |
| HitTest.LeftColumn | app/src/main/java/com/yourname/musiclearning/keyboard/KeyboardScreen.kt:347 | left of 0.35 white-key widths, including off the left edge, the clamped column is the first |
| HitTest.LeftEdge | app/src/main/java/com/yourname/musiclearning/keyboard/KeyboardScreen.kt:344-357 | every point left of the first black key, at any height and off the left edge too, gives the first white key |
| HitTest.LowestAtLeftEdge | app/src/main/java/com/yourname/musiclearning/keyboard/KeyboardScreen.kt:344-357 | on an ascending layout, every point left of the first black key gives a pitch no higher than any white key's |
| HitTest.NoBlackAtRight | app/src/main/java/com/yourname/musiclearning/keyboard/KeyboardScreen.kt:373-384 | no tested black footprint reaches the right edge of the white keys |
| HitTest.RightColumn | app/src/main/java/com/yourname/musiclearning/keyboard/KeyboardScreen.kt:347 | at and beyond the right edge the clamped column is the last |
| HitTest.BeyondRightEdge | app/src/main/java/com/yourname/musiclearning/keyboard/KeyboardScreen.kt:346-347 | at and beyond the right edge of the surface no black key is hit and the column is the last |
| HitTest.RightEdge | app/src/main/java/com/yourname/musiclearning/keyboard/KeyboardScreen.kt:344-357 | every point at or beyond the right edge, at any height, gives the last white key |
| HitTest.HighestAtRightEdge | app/src/main/java/com/yourname/musiclearning/keyboard/KeyboardScreen.kt:344-357 | on an ascending layout, every point at or beyond the right edge gives a pitch no lower than any white key's |
| HitTest.AsWrittenAgreesAt60 | app/src/main/java/com/yourname/musiclearning/keyboard/KeyboardScreen.kt:157 | on the layout the screen builds (start 60), the code as written and the corrected hit-test agree everywhere |
| Drawing.DrawKeyboard | app/src/main/java/com/yourname/musiclearning/keyboard/KeyboardScreen.kt:285-333 | the canvas draws the white keys, then the black keys on top; with no white key it draws nothing |
| Drawing.WhiteOps | app/src/main/java/com/yourname/musiclearning/keyboard/KeyboardScreen.kt:294-308 | the white-key commands: for key `i`, its rectangle (pressed colour exactly when pressed) followed by its divider |
| Drawing.WhiteOpsUpTo | app/src/main/java/com/yourname/musiclearning/keyboard/KeyboardScreen.kt:294-308 | after `n` white keys, two commands per key, in key order |
| Drawing.BlackOps | app/src/main/java/com/yourname/musiclearning/keyboard/KeyboardScreen.kt:317-333 | the black-key commands: one rectangle per tested black key, in slot order |
| Drawing.DrawWhiteKeys | app/src/main/java/com/yourname/musiclearning/keyboard/KeyboardScreen.kt:293-308 | the `forEachIndexed` loop issues exactly the white-key commands |
| Drawing.DrawBlackKeys | app/src/main/java/com/yourname/musiclearning/keyboard/KeyboardScreen.kt:310-333 | the octave/slot loop with its break draws exactly one rectangle per tested slot: the black key's footprint, in the top band, in the pressed colour exactly when pressed |
| Drawing.BlackKeyDrawnWhereHit | app/src/main/java/com/yourname/musiclearning/keyboard/KeyboardScreen.kt:323-329 | every point of a drawn black key resolves to that key's pitch under the corrected hit-test |
| Drawing.WhiteRectColumn | app/src/main/java/com/yourname/musiclearning/keyboard/KeyboardScreen.kt:295-300 | a point on the drawn `i`-th white key has quotient `x / whiteW` in `[i, i + 1)` |
| Drawing.WhiteKeyDrawnWhereHit | app/src/main/java/com/yourname/musiclearning/keyboard/KeyboardScreen.kt:295-300 | a point on the drawn `i`-th white key has `(x / whiteW).toInt()` and the clamped column both equal to `i` |
| Drawing.WhiteKeyHeardWhereDrawn | app/src/main/java/com/yourname/musiclearning/keyboard/KeyboardScreen.kt:293-333 | a point on the drawn `i`-th white key that no drawn black key covers resolves to that white key under the corrected hit-test |
| Drawing.AsWrittenMissesDrawnKey | app/src/main/java/com/yourname/musiclearning/keyboard/KeyboardScreen.kt:360-368 | for a keyboard starting on any C other than middle C (60), a point on the first black key drawn gives that key under the corrected hit-test but C#4 (61) as written, so the two differ |
| Drawing.AsWrittenMissesC3 | app/src/main/java/com/yourname/musiclearning/keyboard/KeyboardScreen.kt:360-368 | on the keyboard from C3 (48), the first black key drawn is 49 but the code as written answers 61 |
| Events.SoundingSnoc | app/src/main/java/com/yourname/musiclearning/keyboard/KeyboardScreen.kt:209-210 | one more call acts on what the earlier calls left sounding |
| Events.SoundingAppend | app/src/main/java/com/yourname/musiclearning/keyboard/KeyboardScreen.kt:209-210 | replaying a log in two parts leaves the same notes sounding as replaying it whole |
| Events.LastMention | app/src/main/java/com/yourname/musiclearning/keyboard/KeyboardScreen.kt:209-210 | the index found is of a call about the pitch, with no later call about it, or -1 when there is none |
| Events.SoundingIsLastCall | app/src/main/java/com/yourname/musiclearning/keyboard/KeyboardScreen.kt:209-210 | a pitch sounds after a log exactly when the log's last call about it is a note-on, or, when the log never mentions it, when it sounded before |
| Gestures.OffsFor | app/src/main/java/com/yourname/musiclearning/keyboard/KeyboardScreen.kt:262 | the note-offs for a set of at most one pitch: one note-off per pressed pitch |
| Gestures.PianoKeyboard.constructor | app/src/main/java/com/yourname/musiclearning/keyboard/KeyboardScreen.kt:212 | a new keyboard has nothing pressed and no call made, and is valid and in sync |
| Gestures.PianoKeyboard.OnPress | app/src/main/java/com/yourname/musiclearning/keyboard/KeyboardScreen.kt:228-236 | a press replaces the pressed set with the key under the finger, calls note-on and holds the key; with no white key, where the source throws, nothing changes; validity is kept, and so is sync when nothing was pressed |
| Gestures.PianoKeyboard.OnPressEnd | app/src/main/java/com/yourname/musiclearning/keyboard/KeyboardScreen.kt:237-243 | whether the press is released or cancelled, the held key gets its note-off and the pressed set is emptied |
| Gestures.PianoKeyboard.OnDragStart | app/src/main/java/com/yourname/musiclearning/keyboard/KeyboardScreen.kt:251-259 | a drag start replaces the pressed set with the key under the finger and calls note-on, without a note-off for a key already pressed; with no white key, where the source throws, nothing changes; sync is kept only when nothing was pressed |
| Gestures.PianoKeyboard.OnDragEnd | app/src/main/java/com/yourname/musiclearning/keyboard/KeyboardScreen.kt:261-264 | every pressed key gets its note-off and the pressed set is emptied; sync is kept |
| Gestures.PianoKeyboard.OnDragCancel | app/src/main/java/com/yourname/musiclearning/keyboard/KeyboardScreen.kt:265-268 | a cancelled drag behaves like an ended one: no pressed note is left sounding |
| Gestures.PianoKeyboard.OnDrag | app/src/main/java/com/yourname/musiclearning/keyboard/KeyboardScreen.kt:269-281 | moving onto an unpressed key sounds off the pressed key, then presses and sounds the new one; anywhere else nothing changes; sync is kept |
| Gestures.PianoKeyboard.NotifyOffs | app/src/main/java/com/yourname/musiclearning/keyboard/KeyboardScreen.kt:262 | `forEach(onNoteOff)` makes one note-off call per pressed pitch, and afterwards none of them is sounding |
| Gestures.TapThenDragElsewhere | app/src/main/java/com/yourname/musiclearning/keyboard/KeyboardScreen.kt:226-282 | if a drag starts on key `b` while a tap holds key `a`, the tap's end leaves `b` sounding with nothing pressed, and ending the drag does not stop it |
| Player.IdsAfterAdd | app/src/main/java/com/yourname/musiclearning/keyboard/KeyboardScreen.kt:78 | caching a track under a new pitch adds exactly that track's identity |
| Player.IdsAfterRetag | app/src/main/java/com/yourname/musiclearning/keyboard/KeyboardScreen.kt:102-116 | starting or stopping a cached track keeps the set of cached identities |
| Player.IdsOfOneMore | app/src/main/java/com/yourname/musiclearning/keyboard/KeyboardScreen.kt:119-121 | visiting one more cached pitch adds its track's identity |
| Player.NotePlayer.constructor | app/src/main/java/com/yourname/musiclearning/keyboard/KeyboardScreen.kt:47-49 | a new player has no track and has created none |
| Player.NotePlayer.TrackFor | app/src/main/java/com/yourname/musiclearning/keyboard/KeyboardScreen.kt:77-100 | `getOrPut`: a cached track is returned unchanged; otherwise a new, stopped track is created and cached under the pitch; no two pitches share a track |
| Player.NotePlayer.NoteOn | app/src/main/java/com/yourname/musiclearning/keyboard/KeyboardScreen.kt:102-108 | the pitch's track, created if need be, ends up playing; exactly that pitch joins the playing set |
| Player.NotePlayer.NoteOff | app/src/main/java/com/yourname/musiclearning/keyboard/KeyboardScreen.kt:110-116 | the pitch's track, if any, is stopped and no track is created; exactly that pitch leaves the playing set |
| Player.NotePlayer.Release | app/src/main/java/com/yourname/musiclearning/keyboard/KeyboardScreen.kt:118-123 | every cached track is released and the cache is emptied, so every track ever created has been released and nothing plays |
| Player.NotePlayer.Dispatch | app/src/main/java/com/yourname/musiclearning/keyboard/KeyboardScreen.kt:197-198 | feeding the callbacks to the player in order leaves exactly the pitches the calls leave sounding playing; no track is released or evicted from the cache |
| Screen.HearKeyboard | app/src/main/java/com/yourname/musiclearning/keyboard/KeyboardScreen.kt:194-199 | a silent player wired to the keyboard plays every pressed key, and only those when the keyboard is in sync; no track is released or evicted |
| Screen.Dispose | app/src/main/java/com/yourname/musiclearning/keyboard/KeyboardScreen.kt:160-162 | disposing the screen releases every cached track and empties the cache; no created track is forgotten, so every track ever created has been released |

## Left out

- Sound synthesis is not modelled: `midiToFreq`, `buildPcm16` (the sine wave, its envelope, the sample rate and the 16-bit clamp), buffer sizing and `AudioTrack.write`. A track is only an identity and a playing flag.
- Player.NotePlayer.NoteOn: the pause, flush and rewind before `play()` are not modelled, since the head position is always 0 afterwards. A track that reaches the end of its two-second sample stays "playing" in the model, because natural playback end is a device-side event.
- Player.NotePlayer.Release: a `Throwable` from `release()` is swallowed by the source. The model records every track as released.
- HitTest.KeyAtPosition: requires a positive width. With a zero width the source's `x / whiteW` is an infinity or NaN, which `toInt()` maps to an extreme `Int` or to 0. With a negative width the columns run backwards and every black footprint is an empty range. Exact reals do not represent the first case, and the model does not cover the second.
- Keys.BuildThreeOctaves: pitches are unbounded integers. In the source `startMidi + i` is a 32-bit `Int`, which wraps for a start above `Int.MAX_VALUE - 35`. There the pitches jump to negative values, the layout stops ascending, and the 21/15 counts need not hold. The model does not cover such starts.
- Gestures.PianoKeyboard: the handlers hit-test with the corrected `HitTest.KeyAtPosition`, not with the source's `keyAtPosition` as written. The two agree on the screen's layout from 60 (`HitTest.AsWrittenAgreesAt60`). On other layouts the code as written can press and sound a pitch that the keyboard does not have, and `Valid()`'s `pressed <= Pitches(keys)` would not hold. That defect is recorded under "## Findings".
- HitTest.Locate: the source's `keyAtPosition` never returns null. It clamps every point into a column, and with no white key `coerceIn(0, -1)` throws `IllegalArgumentException`. The model returns `None` for that exception, so the handlers' `None` branches stand for the exception. The source's `midi != null` tests are dead code.
- Floating-point rounding of positions and footprint edges is not modelled: all coordinates are exact reals.
- The orientation lock (`LandscapeOnly`), the Scaffold, the top bar, the padding, and the colour values are not modelled. Colours are the abstract `Paint` values.
- Gestures.PianoKeyboard.OnPress: a tap's suspension in `tryAwaitRelease` is split into `OnPress` and `OnPressEnd`. The order in which the framework interleaves the tap and drag recognisers is not modelled. `TapThenDragElsewhere` shows what one interleaving leads to.
- Gestures.PianoKeyboard.OnPress: requires that no earlier tap is still held, because the tap recogniser handles one press at a time.
- The pressed set is a state that is read when redrawing. Recomposition and the restart of `pointerInput(keys)` when `keys` changes are not modelled.
- Keys.MakeKey: the source's `label` field is called `name`, because `label` is a reserved word in Dafny.

## Findings

| source | as written | input that shows it | evidently intended | confidence | as-written member | corrected member |
|---|---|---|---|---|---|---|
| app/src/main/java/com/yourname/musiclearning/keyboard/KeyboardScreen.kt:360-368 | `isOverBlackKey` ignores the keys being hit-tested. It rebuilds its own layout, whose local `build` also ignores its `startMidi` and always uses `60 + i`, so the black keys tested are those of middle C. | keyboard from C3 (`startMidi = 48`), 21 units wide and 1 unit high, point (0.65, 0): the black key drawn there is C#3 (49), and the code returns 61 | test the black keys of the layout passed in, the same ones that are drawn | not executed | Drawing.AsWrittenMissesDrawnKey | Drawing.BlackKeyDrawnWhereHit |
