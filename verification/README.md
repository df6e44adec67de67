# PyTaiko core, modelled in Dafny

PyTaiko is a taiko drum rhythm game. This project models the logic at its
core as pure Dafny functions, methods and lemmas:

- the mixer of the C audio engine (`libs/audio/audio.c`): the registry of
  audio buffers, the ring-buffer mix done in each device callback, music
  stream refill and seek, and the buffer controls;
- chart parsing (`libs/tja.py`): metadata, section lookup, bar splitting,
  the per-character note tokenizer with its syllable (moji) assignment,
  the base score, the note-hash merge and the inverse modifier;
- gameplay (`scenes/game.py`): judgement windows, the soul gauge, note,
  drumroll and balloon checks, branch evaluation and score writing. Also
  the dan mode (`scenes/dan/game_dan.py`), practice mode
  (`scenes/practice/game.py`), and the result screens (`scenes/result.py`,
  `scenes/dan/dan_result.py`);
- the menus: song selection (`scenes/song_select.py`), the song-list
  navigator (`libs/file_navigator.py`), the entry screen
  (`scenes/entry.py`), settings (`scenes/settings.py`) and the menu
  countdown (`libs/global_objects.py`);
- helpers and configuration: `libs/utils.py` and `libs/config.py`;
- the state logic of the drum character (`libs/chara_2d.py`), the
  background dancers (`libs/bg_objects/dancer.py`) and the game background
  (`libs/background.py`).

One Dafny module stands for each source file. `Common`, `Arith` and `Text`
hold shared definitions: an `Option` type, `min`/`max`, Python's `int()`
truncation and `%`, and the string built-ins the parsers use
(`split`, `find`, `strip`, `lower`, `isdigit`). Floats are modelled as
`real`. Python exceptions become `None` results. Clocks, random choices,
key presses and the results of calls into code outside the model are
passed in as parameters.

## Model

| member | source | states |
|---|---|---|
| AudioRegistry.TrackAppends | libs/audio/audio.c:616-627 | tracking a buffer that is not registered appends it at the tail of the list the mixer walks, and the list stays well formed |
| AudioRegistry.UntrackRemoves | libs/audio/audio.c:629-642 | untracking a registered buffer removes exactly that buffer from the walk and leaves its own links NULL |
| AudioRegistry.UntrackRelinks | libs/audio/audio.c:629-642 | after untracking, every remaining buffer's prev/next point at its new neighbours |
| AudioRegistry.UntrackDetaches | libs/audio/audio.c:629-642 | after untracking, the removed buffer and every buffer outside the list have NULL links |
| AudioRegistry.TrackThenUntrack | libs/audio/audio.c:616-642 | tracking a new buffer and then untracking it restores first, last and the walked sequence |
| AudioRegistry.UntrackDetachedEmpties | libs/audio/audio.c:629-642 | untracking a buffer that is not in the list (NULL links) sets first and last to NULL, so the whole registry is lost |
| AudioRegistry.NeighboursDiffer | libs/audio/audio.c:616-642 | in a well-formed list, a buffer's links are its neighbours in the walk, distinct from it and from each other |
| Audio.LoadBuffer | libs/audio/audio.c:487-524 | a failed allocation returns NULL and leaves the engine unchanged; otherwise the new buffer (volume 1, pitch 1, pan 0.5, stopped, cursor 0, zeroed data, halves ready for static and stale for streaming) is appended to the registry |
| Audio.NewBuffer | libs/audio/audio.c:496-519 | the initial field values of a loaded buffer, with a data length of channels times frames |
| Audio.UnloadBuffer | libs/audio/audio.c:526-534 | a NULL handle changes nothing; otherwise the buffer leaves both the registry and the set of live buffers |
| Audio.LoadThenUnload | libs/audio/audio.c:487-534 | loading a buffer and then unloading it gives back the engine state exactly |
| Audio.SetMasterVolume | libs/audio/audio.c:472-477 | only the master volume changes |
| Audio.Play | libs/audio/audio.c:546-559 | playing rewinds the cursor and the processed count and unpauses; a static buffer's halves become ready, a stream's halves keep their flags; data and gains are kept |
| Audio.Stop | libs/audio/audio.c:561-572 | stopping halts playback, rewinds, and marks both halves stale |
| Audio.Pause | libs/audio/audio.c:574-580 | pausing only sets the paused flag |
| Audio.Resume | libs/audio/audio.c:582-588 | resuming only clears the paused flag, so the buffer plays again exactly when its playing flag is set |
| Audio.SetVolume | libs/audio/audio.c:590-596 | the volume is stored as given and nothing else changes |
| Audio.SetPitch | libs/audio/audio.c:598-604 | a negative pitch is ignored; any other pitch is stored |
| Audio.SetPan | libs/audio/audio.c:606-614 | the pan is clamped into [0, 1] and nothing else changes |
| Audio.PauseResumeRestores | libs/audio/audio.c:574-588 | pausing and then resuming an unpaused buffer gives it back unchanged |
| Audio.StopIdempotent | libs/audio/audio.c:546-572 | stopping twice is stopping once, and play after stop plays from frame 0 |
| Audio.SetPanIdempotent | libs/audio/audio.c:606-614 | setting the clamped pan again changes nothing |
| Audio.StopBoundaryFacts | libs/audio/audio.c:223-260 | a static buffer stops at the first half-buffer boundary past its cursor that is at least its size |
| Audio.PassFacts | libs/audio/audio.c:224-250 | one pass of the inner loop mixes at least one frame, stays inside one half, and ends exactly at the next half boundary when it runs to the end of the half |
| Audio.MixPass | libs/audio/audio.c:223-260 | one pass keeps the mixing invariant: the frames fed so far are those of the reference mix, a half is marked stale exactly when the cursor has left it, and the stop test fires exactly when a static buffer reaches its size |
| Audio.MixBuffer | libs/audio/audio.c:218-262 | mixing one buffer over a callback gives the reference buffer state and feeds, for output frame k, ring frame (cursor + k) mod size when that half is ready and nothing otherwise |
| Audio.MixOne | libs/audio/audio.c:216-264 | one step of the registry walk adds exactly that buffer's frames to the output and updates only that buffer |
| Audio.MixStep | libs/audio/audio.c:196-273 | each step of the registry walk moves the callback's state on by one buffer: that buffer has been through the callback and its frames are added to the output |
| Audio.MixCallback | libs/audio/audio.c:196-273 | one device callback updates every registered buffer as the reference says, touches no other state, and output frame k holds the contributions of all buffers in registry order |
| Audio.CallbackOnlyMarksStale | libs/audio/audio.c:248-260 | a callback never makes a half ready; the cursor advances by the frames consumed, which is all of them for a stream |
| Audio.BothStaleIsSilent | libs/audio/audio.c:229-231 | with both halves stale a buffer contributes only silence |
| Audio.ReadsInBounds | libs/audio/audio.c:237-243 | every sample the mixer reads lies inside the buffer's data |
| Audio.StaticStopsAtEnd | libs/audio/audio.c:257-260 | a playing static buffer consumes min(frames per callback, frames left) and stays playing exactly when it has not reached its end |
| Audio.StaticPlayReadsFromStart | libs/audio/audio.c:546-559 | a static buffer just played feeds its frames 0, 1, 2, ... while it stays in the first half |
| Audio.ToDevice | libs/audio/audio.c:1079-1087 | without a resampler, every decoded frame becomes one two-sample device frame: a mono sample goes to both channels and stereo frames are kept as they are; a file of three or more channels keeps its first two channels, the corrected behaviour of the Findings row |
| Audio.InterleavedLength | libs/audio/audio.c:1085 | the plain copy of frames of `channels` samples is `channels` samples per frame long |
| Audio.StereoIsCopied | libs/audio/audio.c:1079-1087 | for a stereo file, converting to the device layout gives exactly the plain copy the source makes |
| Audio.CopiedAsWritten | libs/audio/audio.c:1079-1087 | as written, the copy into a half is two samples per frame for mono and `channels` samples per frame otherwise, so wider than the half for three or more channels |
| Audio.RefillHalfAsWritten | libs/audio/audio.c:1041-1098 | as written, refilling a stale half runs past the ring's allocation exactly when the half's offset plus the copy's length exceeds two samples a frame; otherwise it keeps the buffer well formed and changes only its data and ready flags |
| Audio.UpdateMusicStreamAsWritten | libs/audio/audio.c:1028-1101 | as written, without a decoder nothing changes, and any result keeps the buffer well formed with only its data and ready flags changed |
| Audio.RefillHalfAgrees | libs/audio/audio.c:1041-1098 | for mono and stereo files the as-written refill of a half is exactly the device-layout refill |
| Audio.CopiedUpToStereo | libs/audio/audio.c:1079-1087 | for mono and stereo files the as-written copy is the device-layout conversion |
| Audio.StaleHalfAgrees | libs/audio/audio.c:1079-1094 | for a stale half whose copy is in the device layout, the as-written copy and padding equal the modelled refill |
| Audio.CopyThenPad | libs/audio/audio.c:1079-1094 | the copy and the zero fill keep the data's length and the samples before the half |
| Audio.CopyThenPadIsSplice | libs/audio/audio.c:1079-1094 | when the copy is two samples a frame, copying and zeroing to the end of the half is replacing the half by the frames plus zero padding |
| Audio.PaddedCopy | libs/audio/audio.c:1089-1094 | zeroing after a short copy leaves the samples after the half as they were |
| Audio.UpdateAgreesUpToStereo | libs/audio/audio.c:1028-1101 | for mono and stereo files update_music_stream as written is exactly the modelled update |
| Audio.ThreeChannelsOverrun | libs/audio/audio.c:1085 | refilling the second half of a two-frame ring from a three-channel file writes past the ring |
| Audio.ThreeChannelsSpill | libs/audio/audio.c:1085-1094 | refilling the first half from a three-channel file changes the second half, which was ready to play; the corrected update leaves it alone |
| Audio.RefillHalf | libs/audio/audio.c:1040-1098 | a stale half is overwritten with the decoded frames padded with zeros and becomes ready; the other half and a ready half are untouched |
| Audio.UpdateMusicStream | libs/audio/audio.c:1028-1101 | on the path without a resampler, for any channel count: without a decoder nothing changes; otherwise both halves end ready, each stale half holds its decoded frames in the device layout plus zero padding, and a ready half keeps its samples |
| Audio.RefillDecoded | libs/audio/audio.c:1035-1101 | with a decoder and no resampler, both halves end ready, a stale half holds its frames converted to the device layout and padded with zeros, and a ready half and the samples past the ring keep their values |
| Audio.RefillBoth | libs/audio/audio.c:1035-1101 | refilling half 0 and then half 1 changes only the stale halves' samples and the two ready flags |
| Audio.DeviceFramesFit | libs/audio/audio.c:1041-1087 | the at most half a ring of frames the decoder delivers, once in the device's two channels, fit in a half, whatever the file's channel count |
| Audio.SpliceHalf | libs/audio/audio.c:1079-1094 | writing one half replaces exactly that half's samples and leaves the other half and the tail as they were |
| Audio.RefillIdempotent | libs/audio/audio.c:1035-1040 | an update right after an update changes nothing, whatever the decoder would deliver |
| Audio.SeekMusicStream | libs/audio/audio.c:1010-1026 | a refused seek changes nothing; a successful one sets the processed count to the target, rewinds the cursor and marks both halves stale |
| Audio.SeekThenRefill | libs/audio/audio.c:1010-1101 | after a successful seek the stream is silent until refilled, the processed-frame count is the target frame, and after a refill the next callback reads the ring from frame 0 |
| Audio.NewStreamIsSilentUntilRefilled | libs/audio/audio.c:839-849 | a freshly loaded stream, once played, outputs silence until its first refill |
| Audio.CopiedFitsData | libs/audio/audio.c:904-912 | the capped copy of update_audio_stream never writes past the buffer's data |
| Audio.UpdateAudioStreamAsWritten | libs/audio/audio.c:896-919 | as written: the input is copied up to the capacity, but the size is set to the requested frame count |
| Audio.UpdateAudioStreamOverrun | libs/audio/audio.c:896-919 | a two-frame stream updated with four frames reports four frames, so the mixer's later reads fall past its data |
| Audio.UpdateAudioStream | libs/audio/audio.c:896-919 | corrected: the size never grows past the capacity, the buffer stays well formed, and every sample the mixer can read comes from the new input |
| Utils.Rounded | libs/utils.py:43-50 | the result lies within one half of the input, a tie is broken away from zero, and the sign of the input is kept |
| Utils.RoundedOdd | libs/utils.py:43-50 | rounding commutes with negation |
| Utils.RoundedUnique | libs/utils.py:43-50 | the result is the only integer within one half of the input that breaks ties away from zero |
| Utils.FindComment | libs/utils.py:62 | the position found is the first `//` of the line; None means the line holds none |
| Utils.KeptPart | libs/utils.py:62-66 | a line without a comment is kept whole; a commented line keeps the text before its first comment or nothing, and what is kept holds no comment |
| Utils.CommentOnlyLineVanishes | libs/utils.py:64-66 | a comment at the start of the line or after only whitespace drops the whole line |
| Utils.CodeBeforeCommentKept | libs/utils.py:64-66 | text with a non-space character before the first comment is kept exactly |
| Utils.StripComments | libs/utils.py:56-67 | the result is the concatenation of every line's kept part, with no separators, and is no longer than the input |
| Utils.PixelsPerFrame | libs/utils.py:69-77 | a zero tempo gives 0; a zero time signature divides by zero; otherwise the result times the frames of one measure is the distance |
| Config.KeyCode | libs/config.py:106-108 | a single letter or digit maps to the code of its upper-case character; other one-character strings fail |
| Config.KeyString | libs/config.py:92-97 | a letter or digit code maps back to its one-character string |
| Config.KeyStringOfKeyCode | libs/config.py:92-108 | a stored letter or digit survives a load and a save, with a lower-case letter coming back in upper case |
| Config.KeyCodeOfKeyString | libs/config.py:92-108 | a letter or digit code survives a save and a load |
| Config.LoadBindings | libs/config.py:115-133 | every binding becomes its key code, in order, and one unknown binding fails the whole load |
| Config.SaveBindings | libs/config.py:135-147 | every code becomes its key string, in order, and one unknown code fails the whole save |
| Config.SaveAfterLoad | libs/config.py:115-147 | saving after loading gives back bindings written as upper-case letters and digits |
| Config.LoadAfterSave | libs/config.py:115-147 | loading after saving gives back letter and digit codes |
| Tja.BalloonHitsCapped | libs/tja.py:258-259 | every balloon adds at most 100 hits to the score budget |
| Tja.BaseScoreIsLeastMultiple | libs/tja.py:264-266 | with at least one counted note, the base score is the smallest multiple of ten that, given to every counted note, reaches the points left after balloons and drumrolls |
| Tja.CalculateBaseScore | libs/tja.py:238-266 | the loop computes the base score of the counted notes, balloons and drumroll time; a chart without counted notes gets 1000000; the result is a multiple of ten |
| Tja.RollEndNotCounted | libs/tja.py:260-261 | a type-8 roll end never earns the per-note score |
| Tja.RollMsPrefix | libs/tja.py:250-257 | appending a note changes no drumroll length before the last old note |
| Tja.CourseNumber | libs/tja.py:396-414 | a COURSE value selects course 0 to 6 exactly when it is that number or one of its names (ura and edit both select 4); any other value selects none |
| Tja.CourseNamesDisjoint | libs/tja.py:399-412 | no COURSE value names two courses |
| Tja.ParseIntList | libs/tja.py:430 | the empty pieces of the comma-split list are dropped, and one piece that is not an integer fails the list |
| Tja.LevelStep | libs/tja.py:418-424 | an empty LEVEL gives level 0; otherwise the float value truncated toward zero, and a non-number fails |
| Tja.CourseHeaderStep | libs/tja.py:417-464 | a course header line changes only that course's data and never its branching flag |
| Tja.CourseStep | libs/tja.py:396-416 | a COURSE line that names a course starts fresh data for it; an unknown value keeps the course being read and resets its data; the course being read always has an entry |
| Tja.MetadataStep | libs/tja.py:335-464 | one metadata line keeps the invariant that the course being read has an entry |
| Tja.Metadata | libs/tja.py:329-464 | reading all lines keeps that invariant |
| Tja.ScanSection | libs/tja.py:487-506 | a section found lies inside the data, its start line directly after a #START line |
| Tja.ScanSectionSound | libs/tja.py:494-503 | a section found begins after a #START line and ends at an #END line, both under a COURSE line that selects the course |
| Tja.ScanSectionComplete | libs/tja.py:494-503 | a COURSE line selecting the course, followed by a #START line and an #END line with no COURSE line between, is always found |
| Tja.DataToNotes | libs/tja.py:477-532 | no section gives no bars, and every bar returned is non-empty |
| Tja.SplitBarsCount | libs/tja.py:513-530 | every comma-ending line closes exactly one bar, and at most one unclosed bar follows |
| Tja.ClosedBarsHoldNotes | libs/tja.py:516-525 | every bar closed by a comma holds a note string, or the "" that keeps an empty bar a bar |
| Tja.SplitBarsKeepsContent | libs/tja.py:513-530 | the bars, flattened and without "", are the section's lines with lone commas dropped and trailing commas cut, in order |
| Tja.AssignMoji | libs/tja.py:534-598 | only syllables change, and only on the last three notes: the newest gets its type's syllable, the one before the quick or plain form by timing, and the middle of a quick don triplet "ko" |
| Tja.AssignMojiInRange | libs/tja.py:534-598 | every syllable assigned is one of the twelve, 0 to 11, when the notes' syllables were |
| Tja.AssignMojiIdempotent | libs/tja.py:534-598 | the syllables depend only on the notes' types and times: a second pass over the same notes changes nothing |
| Tja.MakeNote | libs/tja.py:824-849 | a digit makes a note of that type at the current time and index; 5 and 6 make drumrolls; 7 and 9 make balloons whose count is the next BALLOON value or 1, 9 being a kusudama |
| Tja.TokStep | libs/tja.py:816-864 | "." does not advance time; every other character advances it by one increment; a note-making character appends one note; a type-8 note with no note before it fails |
| Tja.TokenizeTime | libs/tja.py:816-864 | over a bar string the time advances by one increment per character other than "." |
| Tja.TokenizeContinues | libs/tja.py:816-864 | over a bar string the notes already made are kept up to their syllables, the new notes take consecutive indices, and no new type-9 note directly follows a type-9 note |
| Tja.TokenizeBalloons | libs/tja.py:840-849 | the balloons made take the BALLOON values in order, then 1 each once the values run out |
| Tja.HashMerge | libs/tja.py:870-891 | the merge loop and the two extends produce the reference merge, a permutation of play notes and bars together |
| Tja.MergeSorted | libs/tja.py:877-886 | merging two lists sorted by hit time gives a sorted list |
| Tja.MergeTiesTakePlayNote | libs/tja.py:59-63 | every play note not later than the first bar, ties included, is placed before it |
| Tja.InverseType | libs/tja.py:911-918 | don and kat swap, big don and big kat swap, other types stay |
| Tja.ModifierInverse | libs/tja.py:911-918 | only the note types change, each by the inverse mapping |
| Tja.InverseTwice | libs/tja.py:911-918 | inverting twice gives the chart back |
| Game.WindowsFor | scenes/game.py:729-736 | below NORMAL the easy windows (41.7/108.4/125.1 ms) apply, from NORMAL up the standard ones (25.0/75.1/108.4 ms), in either set GOOD < OK < BAD |
| Game.Judge | scenes/game.py:757-797 | a hit is GOOD within the good window, OK within the ok window but outside the good one, BAD within the bad window only, and judges nothing beyond it; the four cases are exhaustive and disjoint |
| Game.CloserIsNoWorse | scenes/game.py:757-797 | a hit closer to the note is never judged worse than a farther hit that was judged at all |
| Game.OkPoints | scenes/game.py:783 | an OK is worth half the base score rounded down to a multiple of ten |
| Game.DifficultySlot | scenes/game.py:2259 | a difficulty indexes the four per-difficulty lists as Python does: -4 to 3 are in range, -1 to -4 counting from the end |
| Game.RowFor | scenes/game.py:2271-2310 | the gauge table row for a difficulty and star level exists exactly when Python's `table[difficulty][level-1]` does, negative indices included, and every row raises the gauge on GOOD and OK and lowers it on BAD |
| Game.NewGauge | scenes/game.py:2251-2261 | a new gauge is empty and not clear, with the difficulty capped at ONI and the level at 10 |
| Game.Step | scenes/game.py:2319 | the gauge points a GOOD is worth are positive on every usable gauge |
| Game.AddGood | scenes/game.py:2315-2322 | a GOOD raises the gauge by one step, capped at the maximum 87, and never lowers it |
| Game.AddOk | scenes/game.py:2323-2330 | an OK raises the gauge by the row's OK share of a step, capped at 87 |
| Game.AddBad | scenes/game.py:2331-2337 | a BAD lowers the gauge by the row's BAD share of a step, floored at 0 |
| Game.UpdateGauge | scenes/game.py:2338-2340 | the gauge is clear exactly above its difficulty's clear start less one (ONI uses the HARD start) and rainbow exactly at the maximum |
| Game.RainbowIsClear | scenes/game.py:2259-2340 | a full gauge is clear on every difficulty |
| Game.GaugeGood | scenes/game.py:770-771 | the optional gauge takes a GOOD when there is one and stays between empty and full |
| Game.GaugeOk | scenes/game.py:787-788 | the optional gauge takes an OK when there is one and stays between empty and full |
| Game.GaugeBad | scenes/game.py:808-809 | the optional gauge takes a BAD when there is one and stays between empty and full |
| Game.Counted | scenes/game.py:772-773 | the branch counter moves by the given amount only while a branch section counts that kind of event |
| Game.PopNote | scenes/game.py:642-654 | a correct note leaves its own queue only when it is at the front; a balloon also takes the next other note; the queues only lose notes at their fronts, at most two |
| Game.ComboAfter | scenes/game.py:656-663 | notes below type 7 extend the combo and the best combo follows it; other notes leave the counters alone |
| Game.NoteCorrect | scenes/game.py:642-672 | a correct note leaves the front of its don or kat lane when it is there, leaves the other lanes alone, adds one to the combo and raises the best combo to it for a note below type 7, leaves score and judgement counts unchanged and changes nothing else about the player; the combo stays at or below the best combo, and queues only shrink |
| Game.CheckDrumroll | scenes/game.py:674-683 | a drumroll hit is worth 100 points, counts one drumroll hit and one for a drumroll branch condition, and touches neither the queues nor the gauge |
| Game.CheckBalloon | scenes/game.py:689-709 | a KAT does nothing to a balloon; a DON is worth 100 points and pops the balloon on its count-th hit, which ends balloon mode and resets the hit counter |
| Game.BalloonHit | scenes/game.py:698-708 | one DON hit on a balloon being played keeps it up before its count and pops it at its count |
| Game.DonHits | scenes/game.py:689-709 | k DON hits on a fresh balloon keep it up for fewer than count hits, pop it at count, and are worth 100 points each |
| Game.JudgedGood | scenes/game.py:762-778 | a GOOD adds one GOOD, the base score, a combo step for notes below type 7 and one to an accuracy branch condition |
| Game.JudgedOk | scenes/game.py:780-795 | an OK adds one OK, the OK points, a combo step and half a point to an accuracy branch condition |
| Game.JudgedBad | scenes/game.py:797-814 | a BAD adds one BAD, breaks the combo, drops the front note of the drum's queue and scores nothing |
| Game.JudgeFront | scenes/game.py:757-814 | a judged hit adds at most one judgement and only advances the player |
| Game.CheckNote | scenes/game.py:724-815 | with no notes left nothing changes; the raise for a balloon mode without a balloon is the only failure; a sound player stays sound |
| Game.CheckNoteAdvances | scenes/game.py:724-815 | a successful hit never takes the player back and adds at most one judgement |
| Game.CheckNoteJudges | scenes/game.py:745-815 | outside a roll, the counters move by exactly the judgement `Judge` gives for the front note of the drum's queue, and a hit outside the bad window only resets the drumroll counter |
| Game.Miss | scenes/game.py:554-567 | an overdue note counts one BAD, breaks the combo and takes one off an accuracy branch condition |
| Game.MissOverdue | scenes/game.py:554-582 | at most one overdue don and one overdue kat note are counted BAD and dropped per frame; with none overdue nothing changes |
| Game.StartOrEndRoll | scenes/game.py:584-608 | a due roll or balloon head starts its mode; a due tail, or a head whose tail is due, ends both modes and drops those notes; a due head with no tail behind it is Python's IndexError |
| Game.PlayNoteManager | scenes/game.py:552-608 | a frame of note management adds at most two BADs and only advances the player |
| Game.InsertByHit | scenes/game.py:432 | inserting a note keeps the multiset of notes and keeps a hit-time-sorted list sorted |
| Game.SortByHit | scenes/game.py:432 | sorting returns a permutation of the notes in hit-time order |
| Game.AtTime | scenes/game.py:432 | picking the notes at one hit time gives only notes at that time |
| Game.AtTimeSnoc | scenes/game.py:432 | a note added at the end of a list is picked last exactly when it is at the chosen time |
| Game.InsertPasses | scenes/game.py:432 | an insertion passes the last note when the new note is strictly earlier, leaving that note last |
| Game.InsertAppends | scenes/game.py:432 | a note no earlier than the last one goes at the end |
| Game.PassLaterNote | scenes/game.py:432 | passing a note later than the inserted one keeps the notes at any one time in their order |
| Game.InsertByHitStable | scenes/game.py:432 | an insertion passes only notes strictly later than the new one, so the notes at any one time keep their order, the new note last among them |
| Game.SortByHitStable | scenes/game.py:432 | the sort is stable like Python's `sorted`: the notes at any one hit time come out in their input order |
| Game.Ahead | scenes/game.py:435-441 | a lane's queue holds exactly the notes of that lane still ahead of now, each as often as the notes hold it, sorted when the notes are |
| Game.SortedTail | scenes/game.py:435-441 | dropping the first note of a sorted queue leaves it sorted |
| Game.AheadDistributes | scenes/game.py:435-441 | the queue keeps the notes' order: the queue of two stretches of notes joined is the queue of each, joined |
| Game.MergeSection | scenes/game.py:427-441 | merging a branch section gives a sorted permutation of the old and new notes and rebuilds each lane from the notes still ahead |
| Game.ChosenLevel | scenes/game.py:906-926 | the condition value picks expert between the thresholds, master from the master threshold (when not expert) and normal below both |
| Game.DecidedCount | scenes/game.py:904-905 | an accuracy condition is decided as a percentage of the section's notes clamped to [0, 100]; other conditions on the raw count |
| Game.NextSections | scenes/game.py:907-932 | the chosen path loses its first section, and every other path loses its first section when it has one |
| Game.EvaluateBranch | scenes/game.py:899-935 | before the end time nothing changes; after it the chosen path's first section is merged in, the sections advance, branching stops and the counter restarts; an empty chosen path is Python's IndexError |
| Game.ChosenLevelMonotone | scenes/game.py:906-926 | with the expert threshold not above the master one, a higher condition value never picks a lower level |
| Game.CrownOnWrite | scenes/game.py:182-188 | the crown is donderful when there are BADs and no OKs, full combo with no BADs, clear with a clear gauge otherwise, and none else |
| Game.WriteScoreAsWritten | scenes/game.py:169-206 | an auto play writes nothing; a winning score replaces the row including its crown; otherwise a winning crown is written alone |
| Game.CrownCanDrop | scenes/game.py:190-204 | as written, a better score with a lesser crown lowers the stored crown from full combo to clear |
| Game.WriteScore | scenes/game.py:169-206 | the corrected rule keeps the better score and the better crown of the stored row and the new play |
| Game.WriteScoreMonotone | scenes/game.py:169-206 | under the corrected rule the stored score and crown never go down |
| GameDan.RemainingNotes | scenes/dan/game_dan.py:106 | the remaining notes and the three judgement counts add up to the course's total notes |
| GameDan.ExamValue | scenes/dan/game_dan.py:145-155 | each exam type reads its own total (gauge percentage truncated, GOODs, OKs plus BADs, BADs, score, best combo) and an unknown type reads 0 |
| GameDan.Progress | scenes/dan/game_dan.py:110-122 | the bar fill is the value's share of the red value, reversed for a `less` exam, clamped to [0, 1]; a `more` bar is full exactly from the red value, a `less` bar empty exactly from it |
| GameDan.Counter | scenes/dan/game_dan.py:113-119 | a `less` exam shows what is left before the red value, others show the value, never below 0 |
| GameDan.BarFor | scenes/dan/game_dan.py:124-130 | the bar is max exactly when full, gold from half up to full, red below half |
| GameDan.ExamFails | scenes/dan/game_dan.py:260-273 | a failed exam stays failed; a `more` exam fails below its red value once the course end time is set; a `less` exam fails once its value reaches the red value; other ranges never fail |
| GameDan.LessFailureEmptiesBar | scenes/dan/game_dan.py:113-122 | a `less` exam fails exactly when its counter shows 0, which is exactly when its bar is empty |
| GameDan.CheckExamFailures | scenes/dan/game_dan.py:256-273 | every exam's flag is updated on its own value and no failed flag is cleared |
| GameDan.FailuresSticky | scenes/dan/game_dan.py:260-261 | once failed, an exam stays failed through any run of later checks |
| GameDan.DanStep | scenes/dan/game_dan.py:381 | a GOOD on the dan gauge is worth the positive 100 / (0.89 * total notes) |
| GameDan.DanAddGood | scenes/dan/game_dan.py:377-383 | a GOOD adds one step, capped at the dan maximum 89, and never lowers an in-range gauge |
| GameDan.DanAddOk | scenes/dan/game_dan.py:388-394 | an OK adds half a step, capped at 89 |
| GameDan.DanAddBad | scenes/dan/game_dan.py:399-404 | a BAD takes two steps, floored at 0, and never raises an in-range gauge |
| GameDan.DanGaugeFlags | scenes/dan/game_dan.py:409-411 | the dan gauge is rainbow exactly when full, and clear exactly when rainbow |
| GameDan.AddSongEntry | scenes/dan/game_dan.py:207-223 | at a song's end, while songs are missing an entry, one entry is appended whose counts are the totals less the earlier entries, so that all entries sum to the totals |
| GameDan.NextSongIndex | scenes/dan/game_dan.py:224-252 | after a song the course moves to the next song while one is left and stays on the last |
| GameDan.LatchEnd | scenes/dan/game_dan.py:225-248 | the course end time is taken on the first frame past the last song and never moved after |
| Practice.GogoStarts | scenes/practice/game.py:41-49 | the positions returned are exactly the notes in gogo time that are first or follow a note out of gogo time, in increasing order |
| Practice.GetGogoTimeMarkers | scenes/practice/game.py:41-49 | the one-pass loop records exactly the hit times of the notes that begin a gogo-time stretch |
| Practice.GogoMarkersStep | scenes/practice/game.py:41-49 | one more note adds its hit time to the markers exactly when it starts a gogo-time stretch |
| Practice.StartsGogoLift | scenes/practice/game.py:41-49 | whether a note starts gogo time does not change when later notes are added, so the starts found so far stay starts |
| Practice.AllGogoOneMarker | scenes/practice/game.py:41-49 | a chart in gogo time throughout has one marker, at its first note |
| Practice.ScrubLeft | scenes/practice/game.py:118-119 | the left key moves one bar back and wraps from the first bar (or the -1 a pause leaves) to the last |
| Practice.ScrubRight | scenes/practice/game.py:120-121 | the right key moves one bar on and wraps from the last bar to the first |
| Practice.ScrubInverse | scenes/practice/game.py:118-121 | left and right undo each other on every bar index |
| Practice.ScrubFromBeforeStart | scenes/practice/game.py:118-121 | from the -1 a pause at the start leaves, right reaches the first bar and left the last |
| Practice.NearestBar | scenes/practice/game.py:58-66 | the scan finds the first bar at the least distance from the song time |
| Practice.PauseSong | scenes/practice/game.py:51-68 | a pause leaves the scrub index on the bar before the nearest one, -1 for the first, and the scrub time is that bar's time with Python's negative indexing |
| Practice.ResumeBars | scenes/practice/game.py:71-72 | play resumes at the scrub bar and the music at the bar before it, neither below the first bar |
| Practice.After | scenes/practice/game.py:82-84 | a queue keeps exactly its notes after the resume time, each as often as the queue holds it |
| Practice.AfterDistributes | scenes/practice/game.py:82-84 | the filter keeps the queue's order: filtering two stretches of notes joined is filtering each and joining the results |
| Practice.AfterSortedIsSuffix | scenes/practice/game.py:82-84 | on a queue sorted by hit time the kept notes are a suffix of the queue |
| Practice.CountJudged | scenes/practice/game.py:87 | the note total counts the notes of types 1 to 4 and is zero exactly when there are none |
| Practice.Resume | scenes/practice/game.py:69-93 | resuming reloads the queues with exactly the notes after the resume time, times the resume and restart from the first bar plus the start delay, and recounts the total notes |
| Result.ResultCrown | scenes/result.py:132-137 | the result screen shows donderful with no OKs and no BADs, full combo with OKs but no BADs, clear with any BAD |
| Result.CrownsDisagreeWithoutOks | scenes/result.py:132-137 | with no OKs the result screen's crown and the crown `write_score` stores differ: donderful against full combo without BADs, clear against donderful with them |
| Result.CrownsAgreeWithOks | scenes/result.py:132-137 | with OKs both rules give full combo exactly without BADs |
| Result.ResultGaugeState | scenes/result.py:467-493 | the result gauge is rainbow exactly at 87, clear above 69 below that, and failed otherwise, on every difficulty the game passes |
| Result.ResultGaugeStricterThanGame | scenes/result.py:474-493 | an EASY or NORMAL gauge at 60 is clear in play but shows a failure on the result screen |
| Result.ResultClearImpliesGameClear | scenes/result.py:474-493 | every gauge the result screen shows as clear or rainbow is also clear in play, on every difficulty |
| Result.ResultGaugeMonotone | scenes/result.py:474-493 | a longer gauge up to the full 87 never shows a worse state: a clear stays clear and a rainbow stays a rainbow |
| Result.NewAnimator | scenes/result.py:422-426 | a new score animator shows all zeros and starts at the rightmost digit |
| Result.WithoutLeadingZeros | scenes/result.py:432 | `str(int(...))` of a digit string drops exactly its leading zeros, keeping one digit |
| Result.Advance | scenes/result.py:433-439 | below nine steps the current digit rolls on by one; on the tenth it settles on the target digit and the index moves left |
| Result.Shown | scenes/result.py:440-445 | an all-zero display shows as many zeros as digits have been reached, otherwise the number without leading zeros |
| Result.Tick | scenes/result.py:428-439 | past the leftmost digit a call only marks the animator finished; before it, it advances |
| Result.NextScore | scenes/result.py:428-445 | each call returns the display after its step, and the finishing call returns the number itself |
| Result.RollOnTick | scenes/result.py:433-435 | on a digit that has rolled fewer than nine times, one call shows it one higher and leaves every other digit and the index alone |
| Result.SettleTick | scenes/result.py:436-438 | the tenth call on a digit puts its target digit in place and moves the index one digit left |
| Result.RunRolls | scenes/result.py:428-445 | from a fresh animator, after k calls (up to ten per digit) the k / 10 rightmost digits show the target, the next shows k % 10, the rest are zero, and the index is on that next digit |
| Result.RunRollsOn | scenes/result.py:433-435 | the calls that roll a digit on: the point k - 1 calls reach, ticked once, is the point of k calls |
| Result.RunSettlesOne | scenes/result.py:436-438 | the calls that settle a digit: after ten calls on it the digit shows the target and the next digit to the left has not moved |
| Result.RunSettles | scenes/result.py:428-445 | after ten calls per digit every digit shows the target and the index is -1 |
| Result.FinishShowsTarget | scenes/result.py:428-445 | the call after the roll has settled finishes the animator and returns the target number |
| DanResult.VerdictAsWritten | scenes/dan/dan_result.py:156-161 | as written, the course fails when any exam failed and is a gold clear when every bar's fill reaches the exam's gold value |
| DanResult.ResultOf | scenes/dan/game_dan.py:110-122 | an exam's kept progress is its clamped bar fill, in [0, 1] |
| DanResult.GoldMissedAboveOne | scenes/dan/dan_result.py:158 | with a gold value above 1 a passed exam can never give a gold clear as written |
| DanResult.GoldClearMissed | scenes/dan/dan_result.py:158 | a GOOD-count exam with red 100 and gold 120 passed with 130 GOODs reaches gold but is shown as a red clear |
| DanResult.CourseVerdict | scenes/dan/dan_result.py:156-161 | the corrected verdict fails when any exam failed, is a gold clear exactly when every exam's value reaches its gold value, and is a red clear otherwise |
| DanResult.GoldFillsBars | scenes/dan/dan_result.py:156-161 | under the corrected verdict a gold clear of `more` exams with gold at or above red means every bar is full |
| DanResult.MaxHitsIsTotals | scenes/dan/dan_result.py:121-143 | the max-hits count is the sum of the four per-judgement totals the screen shows |
| DanResult.MaxHitsOfCourse | scenes/dan/dan_result.py:141 | after the course the max-hits count is the judged notes plus the drumroll hits of the whole course |
| DanResult.VisualLength | scenes/dan/dan_result.py:225 | the drawn gauge width is `int(gauge_length * 8)`, at most 712 on the dan gauge |
| DanResult.ResultGaugeFlags | scenes/dan/dan_result.py:235-237 | the result's dan gauge is clear and rainbow exactly when full at 89 |
| DanResult.HandleInput | scenes/dan/dan_result.py:46-54 | a don press turns to the second page, and a press on the second page starts the fade-out |
| DanResult.FadeNeedsTwoPresses | scenes/dan/dan_result.py:46-54 | leaving the screen takes two presses from the first page and one from the second, and any press reaches the second page |
| FileNavigator.NavigateLeft | libs/file_navigator.py:1510-1515 | one item back with wrap-around from the first to the last, within the list; nothing without items |
| FileNavigator.NavigateRight | libs/file_navigator.py:1517-1522 | one item on with wrap-around from the last to the first, within the list; nothing without items |
| FileNavigator.NavigateInverse | libs/file_navigator.py:1510-1522 | left and right undo each other on every selected index |
| FileNavigator.BoxOffset | libs/file_navigator.py:1467-1472 | a box's offset from the selected one is its distance the short way round the ring, zero only for the selected box |
| FileNavigator.LayoutFor | libs/file_navigator.py:1475-1483 | both layouts have positive spacing and gap and non-negative side shifts at a positive screen scale |
| FileNavigator.BoxPosition | libs/file_navigator.py:1485-1491 | the selected box sits at the centre, boxes to its right shift right by the right side offset and boxes to its left shift left by the left one |
| FileNavigator.PositionsOrdered | libs/file_navigator.py:1485-1491 | when the spacing plus the right shift exceeds the gap, a box further right in the ring is always drawn further right |
| FileNavigator.SpacingMonotone | libs/file_navigator.py:1485-1491 | a box at a larger offset is placed at least one spacing further along |
| FileNavigator.OrderedOnOneSide | libs/file_navigator.py:1485-1491 | two boxes on the same side of the selected one are drawn in ring order |
| FileNavigator.OrderedRightOfCentre | libs/file_navigator.py:1485-1491 | when the spacing plus the right shift exceeds the gap, every box right of the selected one is drawn right of it |
| FileNavigator.OrderedLeftOfCentre | libs/file_navigator.py:1485-1491 | every box left of the selected one is drawn left of it |
| FileNavigator.OrderedAcrossCentre | libs/file_navigator.py:1485-1491 | a box left of the selected one is drawn left of every box right of it |
| FileNavigator.LayoutsOrdered | libs/file_navigator.py:1475-1483 | both layouts meet the conditions under which box order is kept |
| FileNavigator.PlaceBox | libs/file_navigator.py:1493-1497 | a box not yet placed jumps to its target; a placed box keeps its position and only gets the new target; the selected box's target is the centre |
| FileNavigator.FolderCrownOf | libs/file_navigator.py:1365-1371 | a folder's crown for a difficulty is DFC when every song is DFC, FC when every song is exactly FC, clear when every song is at least cleared, and none when any song is missing a score or below clear |
| FileNavigator.FolderCrownAtMostSong | libs/file_navigator.py:1365-1371 | a folder's crown is never better than any of its songs' crowns, on the scale none, clear, FC, DFC |
| FileNavigator.AddingSongNeverRaises | libs/file_navigator.py:1365-1371 | adding a song to a folder never raises its crown |
| FileNavigator.MixedFullCombosShowClear | libs/file_navigator.py:1365-1371 | a folder with one DFC song and one FC song shows only a clear crown |
| FileNavigator.StatFlags | libs/file_navigator.py:1106-1112 | the statistics read a course's cleared and full-combo flags from column 4 of the row, the drumroll count, and both are false without a score |
| FileNavigator.StatsReadDrumroll | libs/file_navigator.py:1108-1109 | a DFC play with no drumroll hits counts as neither cleared nor a full combo in the statistics |
| FileNavigator.AddToStat | libs/file_navigator.py:1114-1124 | a new bucket starts at one song; an existing one counts one more song and at most one more full combo or clear, never more than its songs |
| FileNavigator.Statistics | libs/file_navigator.py:1103-1124 | every bucket after a run of courses stays bounded, and no bucket is lost |
| FileNavigator.StatisticsCounts | libs/file_navigator.py:1103-1124 | each (course, level) bucket counts exactly the courses with that course and level |
| FileNavigator.AddRecent | libs/file_navigator.py:1537-1555 | the new entry comes first, followed by the first 24 (or all, if fewer) of the other songs' entries in their old order; at most 25 are kept |
| FileNavigator.Others | libs/file_navigator.py:1551 | the filter keeps exactly the entries not starting with the song's hash and a bar, each as often as the list holds it |
| FileNavigator.OthersDistributes | libs/file_navigator.py:1551 | the filter keeps the list's order: filtering two stretches of entries joined is filtering each and joining the results |
| FileNavigator.OthersTwice | libs/file_navigator.py:1551 | filtering twice is filtering once |
| FileNavigator.OthersPrefix | libs/file_navigator.py:1551-1553 | cutting an already filtered list to its first entries leaves nothing more to filter |
| FileNavigator.OthersKeepsAll | libs/file_navigator.py:1551-1553 | the filter keeps a list with no entry of the given song exactly as it is |
| FileNavigator.AddRecentIdempotent | libs/file_navigator.py:1537-1555 | playing the same song twice leaves the recent list as playing it once |
| FileNavigator.ParseFavorite | libs/file_navigator.py:1575 | a favourites line parses only when it has exactly three bar-separated fields |
| FileNavigator.ScanFavorites | libs/file_navigator.py:1570-1580 | the scan reads the lines front to back and fails on a malformed non-empty line; when told to stop at the song it stops at the first line about it; a scan that does not stop keeps every non-empty line about other songs and only those |
| FileNavigator.AddFavorite | libs/file_navigator.py:1559-1590 | outside the favourites folder a listed song is refused as soon as its line is read and an unlisted one is appended; inside it the song's lines are removed by rewriting the rest; a malformed line read before that fails |
| FileNavigator.RefusedAtFirstListed | libs/file_navigator.py:1570-1578 | outside the favourites folder, a song listed on a line after only readable lines is refused, whatever the lines after it hold |
| FileNavigator.RefusedBeforeMalformed | libs/file_navigator.py:1570-1580 | a song's own line followed by a malformed line is refused outside the favourites folder, but fails inside it, where the whole file is read |
| FileNavigator.ScanAppend | libs/file_navigator.py:1570-1580 | appending a readable line to a file that does not list the song keeps the scan readable |
| FileNavigator.FavoriteEntryParses | libs/file_navigator.py:1575-1588 | the line `add_favorite` appends reads back as the same song when hash and titles contain no bar |
| FileNavigator.ScanFindsListed | libs/file_navigator.py:1575-1578 | when the scan reads the whole file, a line about the song anywhere in it makes the scan find the song |
| FileNavigator.AddFavoriteTwiceRefused | libs/file_navigator.py:1576-1578 | after a song is appended, adding it again outside the favourites folder is refused |
| FileNavigator.GenreIndex | libs/file_navigator.py:801-803 | a genre takes its box texture from the first map, else the second, else the default index, and the default is chosen exactly when neither map has it |
| FileNavigator.AfterFirstColon | libs/file_navigator.py:800 | `split(":", 1)[1]` is the text after the first colon, and fails exactly when there is no colon |
| FileNavigator.ApplyLine | libs/file_navigator.py:798-810 | a genre line sets the genre and its texture; other lines leave both; only a colon-less collection line fails |
| FileNavigator.NameFallback | libs/file_navigator.py:811-815 | an empty name falls back to the genre, else the folder's name |
| FileNavigator.ParseBoxDef | libs/file_navigator.py:787-819 | a parsed box definition always has a name when its folder has one, and keeps the default texture without a genre line |
| FileNavigator.ParseFromStep | libs/file_navigator.py:797-815 | each stripped line is applied and the name fallback run before the next line; a line that raises ends the parse with what was read before it |
| FileNavigator.ApplyGenreLine | libs/file_navigator.py:799-803 | a `#GENRE:` line sets the genre to the stripped text after the colon and the texture to that genre's index |
| FileNavigator.ApplyTitleLine | libs/file_navigator.py:804-805 | a `#TITLE:` line sets the name to the stripped text after the colon |
| FileNavigator.ApplyCollectionLine | libs/file_navigator.py:809-810 | a `#COLLECTION` line sets the collection to the stripped text after its first colon, and raises without a colon |
| FileNavigator.GenreLineSetsTexture | libs/file_navigator.py:787-819 | a file holding one genre line gives the folder's name, that genre and the genre's texture index |
| FileNavigator.TitleLineNames | libs/file_navigator.py:787-819 | a file holding one title line names the box by it, or by the folder when the title is empty |
| FileNavigator.TitleThenGenre | libs/file_navigator.py:787-819 | a title line then a genre line give the title as name, and the genre with its texture |
| FileNavigator.CollectionLineSets | libs/file_navigator.py:787-819 | a file holding one collection line with a colon gives the folder's name, the default texture and that collection |
| FileNavigator.ColonlessCollectionStops | libs/file_navigator.py:809-819 | a collection line without a colon ends the parse, so a genre line after it is never read |
| SongSelect.ToggleUra | scenes/song_select.py:610-616 | the ura switch flips ura mode, mirrors oni and ura as 7 - d, and resets the press count |
| SongSelect.ToggleUraTwice | scenes/song_select.py:610-616 | switching twice gives back the cursor with its press count cleared |
| SongSelect.Tab | scenes/song_select.py:549-551 | TAB switches ura only on oni or ura and stays on oni or ura |
| SongSelect.TabTwice | scenes/song_select.py:549-551 | two TAB presses restore a cursor with no pending presses |
| SongSelect.NavigateLeft | scenes/song_select.py:555-582 | left walks the option slots and the sorted courses backwards, stops at the leftmost slot, jumps to the first course from an unknown one, and fails where Python indexes `diffs[-3]` with two courses or takes `min` of none |
| SongSelect.NavigateRight | scenes/song_select.py:584-608 | right walks the slots and courses forwards, stops at the last course, and on oni or ura of a song with both counts presses, switching ura on the tenth |
| SongSelect.NavigateKeepsSlot | scenes/song_select.py:555-608 | outside ura mode a song with courses never makes either key fail, and the cursor stays on an option slot or one of its courses |
| SongSelect.RightUndoesLeft | scenes/song_select.py:555-608 | away from the leftmost slot and the oni/ura counting, right undoes left |
| SongSelect.RightPressesCount | scenes/song_select.py:592-595 | on oni or ura of a song with both, right presses only count while the count stays below ten |
| SongSelect.TenPressesSwitchUra | scenes/song_select.py:592-595 | ten right presses from a clear count switch ura, and fewer do not |
| SongSelect.DonPressed | scenes/song_select.py:514-526 | a don press cancels on slot -3, opens the modifiers on -2, the sound selector on -1, and confirms anywhere else |
| SongSelect.ConfirmOnlyOnCourse | scenes/song_select.py:514-526 | outside ura mode a song is confirmed exactly when the cursor is on one of its courses |
| SongSelect.InputLeft | scenes/song_select.py:820-826 | left moves back on the open row and stops at its first entry |
| SongSelect.InputRight | scenes/song_select.py:828-834 | right moves on along the open row and stops at its last entry, the level at the box's limit |
| SongSelect.LeftRightUndo | scenes/song_select.py:820-834 | left and right undo each other away from the row's ends and do nothing at them |
| SongSelect.RandomSort | scenes/song_select.py:773-785 | a random draw gives the drawn difficulty with a level up to its limit, or for ura a level from {1, 5..10} |
| SongSelect.RandomSortCovers | scenes/song_select.py:773-785 | every valid sort is the result of some draw |
| SongSelect.InputSelect | scenes/song_select.py:787-818 | select moves between the box row, the level row and the confirmation, and hands back a sort only from the confirmation's middle entry or the special boxes, without changing the menu |
| SongSelect.ThreeSelectsChoose | scenes/song_select.py:787-818 | from a difficulty box, three selects hand back that box and its level capped at the box's limit |
| SongSelect.Confirm | scenes/song_select.py:1132-1138 | confirm moves to the next modifier and does nothing once confirmed |
| SongSelect.ConfirmsLatch | scenes/song_select.py:1132-1138 | from the start, n confirms reach modifier n and the selector is confirmed exactly from the fifth on |
| SongSelect.SpeedLeftAsWritten | scenes/song_select.py:1162 | as written, the speed step down floors at 0.01 |
| SongSelect.SpeedLeftLeavesGrid | scenes/song_select.py:1162-1177 | as written, one step down from 0.1 gives 0.01, and a step up then 0.11, off the 0.1 grid |
| SongSelect.SpeedLeft | scenes/song_select.py:1162 | the corrected step down floors at 0.1 and is 0.1 slower above 0.2 |
| SongSelect.SpeedRight | scenes/song_select.py:1177 | a step up is 0.1 faster |
| SongSelect.SpeedOnGrid | scenes/song_select.py:1162-1177 | with the corrected floor, speeds on the 0.1 grid stay on it, left stops at 0.1 and left undoes right |
| SongSelect.ModLeftWith | scenes/song_select.py:1153-1166 | on a boolean modifier left is undone by right, on random it steps down to 0 and stays within 0 to 2; nothing once confirmed |
| SongSelect.ModLeft | scenes/song_select.py:1153-1166 | as written, on the speed slot left slows the speed by 0.1 from 0.11 up and sets it to 0.01 below, so a speed of at least 0.01 stays so; nothing once confirmed |
| SongSelect.ModLeftCorrected | scenes/song_select.py:1153-1166 | with the corrected floor, on the speed slot left slows the speed by 0.1 from 0.2 up and sets it to 0.1 below, so a speed of at least 0.1 stays so; nothing once confirmed |
| SongSelect.ModLeftAtSlowest | scenes/song_select.py:1162 | at speed 0.1 the left key as written gives 0.01, while the corrected one leaves the modifiers alone |
| SongSelect.ModRight | scenes/song_select.py:1168-1181 | right flips a boolean modifier, speeds up by 0.1, and steps random round 0, 1, 2; nothing once confirmed |
| SongSelect.PressChangesOne | scenes/song_select.py:1153-1181 | each press, as written or corrected, changes only the modifier under the cursor |
| SongSelect.RandomCycles | scenes/song_select.py:1165-1180 | three right presses bring random back round, left stops at 0, and right undoes left above 0 |
| Entry.MoveLeft | scenes/entry.py:401-405 | one box left, stopping at the first, and nothing while the highlighted box is still sliding; a move starts the slides of the box left and the box reached, unless they had started before, and no other box changes (with entry.py:477-487) |
| Entry.MoveRight | scenes/entry.py:407-411 | one box right, stopping at the last, and nothing while the highlighted box is still sliding; a move starts the slides of the box left and the box reached, unless they had started before, and no other box changes (with entry.py:489-499) |
| Entry.MovesUndo | scenes/entry.py:477-499 | once both boxes have finished a slide, left and right undo each other away from the ends; a box that is not sliding stops a move exactly at the end |
| Entry.SecondMoveBlocked | scenes/entry.py:401-411 | a move onto a box whose slide has not finished (never started or still running) leaves it sliding, so a second move in the same frame is ignored (with entry.py:477-499) |
| Entry.BothKatsMoveOnce | scenes/entry.py:346-353 | the middle box is reached from the fresh boxes with the first box left sliding; both kats in one frame then end on the first box, the right kat ignored while that slide runs, and back on the middle box once every slide has finished |
| Entry.SelectedLocation | scenes/entry.py:473-506 | the boxes lead to song select (two-player song select with two players), practice select and settings, in that order |
| Entry.QueryAsWritten | libs/utils.py:107-118 | a key query answers only for the strings "0" (either player), "1" and "2", and answers False for anything else, a `PlayerNum` included |
| Entry.QueryWithTextAnswers | libs/utils.py:107-118 | given a player's number as its string, the don and kat queries answer exactly for that player's keys |
| Entry.QueryDefaultAnswersAny | libs/utils.py:107-118 | with the default "0" the queries answer for either player's keys |
| Entry.PlayerInputWith | scenes/entry.py:340-353 | once a box is chosen input is ignored; otherwise the don answer chooses the box and the kat answers move the highlight by at most one |
| Entry.PlayerInputAsWritten | scenes/entry.py:340-353 | as written the queries are given a `PlayerNum` and never answer, so a player's input leaves the boxes unchanged |
| Entry.PlayerInput | scenes/entry.py:340-353 | with the queries answering for the player asked, a don of that player chooses the box and their kats move the highlight by at most one; nothing once a box is chosen |
| Entry.SideLeft | scenes/entry.py:82-89 | the left kat puts the side cursor next to an entered player's own side, or one step left, within the three sides |
| Entry.SideRight | scenes/entry.py:90-97 | the right kat puts the side cursor next to an entered player's own side, or one step right, within the three sides |
| Entry.SideInput | scenes/entry.py:62-97 | a don on the middle goes back to the title; a don on a side enters the first player there, or the second on the free side with two-player mode on; kats then move the side cursor |
| Entry.ModeInputWith | scenes/entry.py:98-114 | mode select passes input to each entered player and reopens side select with the cursor on the middle exactly when the back test passes |
| Entry.ModeSelectAsWritten | scenes/entry.py:98-114 | as written, every query of mode select is given a `PlayerNum`, so no press chooses a box or reopens side select |
| Entry.OwnDonIgnored | scenes/entry.py:98-114 | as written, a lone first player's left don in mode select chooses nothing, while with the queries answering it chooses the box |
| Entry.ModeInputPrecedence | scenes/entry.py:98-114 | with the queries answering but the back test read with Python's precedence, mode select reopens side select exactly when that test passes |
| Entry.OwnDonLeavesModeSelect | scenes/entry.py:102 | once the queries answer, a lone first player choosing a box with the right don also reopens side select in the same frame |
| Entry.ModeInput | scenes/entry.py:98-114 | with the back test as meant, only the other player's don, once one player has entered, reopens side select |
| Entry.OwnDonStaysInModeSelect | scenes/entry.py:102-110 | with the back test as meant, a player's own presses never leave mode select |
| Entry.Frame | scenes/entry.py:61-114 | with the queries answering for the player asked and the back test as meant, a frame keeps the screen invariant, and leaves for the title only from the middle of side select on a don |
| Entry.SideInputValid | scenes/entry.py:62-97 | a second entrant can only take the side the first left free |
| Entry.ChosenBoxStays | scenes/entry.py:340-343 | once a box is chosen, frames in mode select leave the boxes alone |
| Settings.Headers | scenes/settings.py:22-23 | the header row is the config's sections in order followed by "Exit" |
| Settings.Toggle | scenes/settings.py:52-54 | a boolean setting flips |
| Settings.ToggleTwice | scenes/settings.py:52-54 | flipping twice restores a boolean setting |
| Settings.PositionIn | scenes/settings.py:73-79 | a value counts as its index in the allowed list, and as position 2 when it is not in it |
| Settings.StepAlong | scenes/settings.py:72-81 | a step along an allowed list always lands on an allowed value |
| Settings.NumericChange | scenes/settings.py:57-83 | sample rate and buffer size step along their allowed lists; any other number moves by one |
| Settings.StepAlongMoves | scenes/settings.py:72-81 | on an ascending list a step moves one place, stops at the ends, and a step back undoes it |
| Settings.UnknownCountsAsThird | scenes/settings.py:73-75 | a value not in the list steps as if it were the third entry |
| Settings.AllowedListsAscend | scenes/settings.py:72-78 | the sample rate and buffer size lists are ascending |
| Settings.NumericUndo | scenes/settings.py:68-69 | any other number comes back after a step each way |
| Settings.StringCycle | scenes/settings.py:86-102 | the language alternates between "ja" and "en", an unknown language becomes "ja", other strings stay |
| Settings.StringCycleTwice | scenes/settings.py:94-99 | two cycles restore a known language |
| Settings.CurrentSettings | scenes/settings.py:45-50 | the current settings are the current section's, and none under "Exit" |
| Settings.EditorStartValid | scenes/settings.py:22-28 | the screen starts with its cursors in range |
| Settings.NextHeader | scenes/settings.py:167-170 | the right kat moves the header cursor round the list and resets the setting cursor |
| Settings.PreviousHeader | scenes/settings.py:171-174 | the left kat moves the header cursor back round the list and resets the setting cursor |
| Settings.HeadersUndo | scenes/settings.py:167-174 | the two header moves undo each other |
| Settings.NextSetting | scenes/settings.py:185-187 | the right kat moves the setting cursor round the current section |
| Settings.PreviousSetting | scenes/settings.py:188-190 | the left kat moves the setting cursor back round the current section |
| Settings.SettingsUndo | scenes/settings.py:185-190 | the two setting moves undo each other |
| Settings.SetCurrent | scenes/settings.py:52-144 | storing a value changes exactly the current setting's value and keeps the sections, names and sizes |
| Settings.ApplyRight | scenes/settings.py:191-211 | a right don flips a boolean and steps a number up; on a string it starts capturing a key under a keys section and a button under a gamepad section, and cycles it elsewhere; on a key list whose first key is one character it starts key capture, on a non-empty button list button capture, and changes nothing else |
| Settings.ApplyLeft | scenes/settings.py:212-222 | a left don flips a boolean, steps a number down and cycles a string outside the key and gamepad sections; it changes nothing else and never starts or ends capturing |
| Settings.LeftUndoesRight | scenes/settings.py:191-222 | a left don undoes a right don on a boolean and on a string outside the key and gamepad sections (a language among "ja" and "en") |
| Settings.SetCurrentRestores | scenes/settings.py:191-222 | storing a value and then the old one gives back the screen |
| Settings.CaptureKey | scenes/settings.py:109-125 | a letter key binds the current setting to it and ends capturing; no key changes nothing |
| Settings.CaptureButton | scenes/settings.py:131-144 | a button binds the current setting to it and ends capturing; the back key ends capturing |
| Settings.Update | scenes/settings.py:146-226 | a frame keeps the cursors in range, leaves for the entry screen exactly on a don under "Exit" outside capture, and enters a section only under a real section |
| Settings.ExitIsLast | scenes/settings.py:22-23 | when no section is named "Exit", the "Exit" header is the last |
| Timer.Decimal | libs/global_objects.py:185 | `str(n)` of a natural number is a non-empty string of digits without a leading zero |
| Timer.DecimalValue | libs/global_objects.py:205 | reading the shown digits back gives the number |
| Timer.NewTimer | libs/global_objects.py:183-191 | a new timer shows its time, is not finished and last ticked now |
| Timer.Update | libs/global_objects.py:192-216 | the confirm action runs exactly when the time is 0, the timer has not finished and the zero voice is silent; unless frozen, one second comes off exactly when a second has passed and time is left; the blip plays below 10 and the zero voice on reaching 0 |
| Timer.ConfirmAtMostOnce | libs/global_objects.py:194-196 | over any run of frames the confirm action runs at most once, and never once the timer has finished |
| Timer.RunTicks | libs/global_objects.py:200-205 | a frozen timer keeps its time; otherwise the time never goes below 0 and falls by at most one second per 1000 ms |
| Chara.Resting | libs/chara_2d.py:55-60 | the looping animation to return to is gogo over clear over normal |
| Chara.SetAnimation | libs/chara_2d.py:41-68 | a request is ignored when already playing, during a short animation, or a ten-combo in gogo; a balloon result or gogo end returns to the resting loop; gogo start sets gogo; anything else remembers the current animation |
| Chara.TempBlocks | libs/chara_2d.py:50-51 | a short animation, once playing, blocks every request |
| Chara.Update | libs/chara_2d.py:70-107 | the clear and rainbow flags latch; a rising rainbow edge plays the soul animation and a rising clear edge the clear animation with the clear loop to return to; a finished short animation gives way to the one to return to |
| Chara.FlagsLatch | libs/chara_2d.py:80-87 | over any run of frames the clear and rainbow flags, once set, stay set |
| Chara.KeyframeAtStart | libs/chara_2d.py:30-33 | a keyframe lasts 2250 / bpm ms, twice that for character 0 |
| Chara.KeyframeAfterBpmAsWritten | libs/chara_2d.py:94 | as written, after a tempo change every character's keyframe lasts 2250 / bpm ms |
| Chara.BpmChangeHalvesCharacterZero | libs/chara_2d.py:30-94 | as written, character 0 moved to 200 bpm gets 11.25 ms keyframes where one made at 200 bpm has 22.5 ms |
| Chara.KeyframeAfterBpm | libs/chara_2d.py:30-99 | the corrected rebuild gives each character the keyframe length a character made at the new tempo has |
| Chara.BpmChangeMatchesStart | libs/chara_2d.py:30-99 | with the doubling kept, a faster tempo always means shorter keyframes |
| Animation.Keyframes | libs/chara_2d.py:36 | keyframe i of n covers [d * i, d * (i + 1)) |
| Animation.KeyframesTile | libs/bg_objects/dancer.py:29-31 | the keyframe windows join end to end from 0 to the total duration d * n |
| Animation.KeyframesEven | libs/bg_objects/dancer.py:31 | every keyframe window lasts exactly d |
| Dancer.SpawnPositions | libs/bg_objects/dancer.py:136-138 | the fill order holds exactly the slots below the dancer count among centre, left, right, far left, far right, each once, in that order |
| Dancer.KeepIsSubsequence | libs/bg_objects/dancer.py:138 | the filtered fill order keeps the order of the full one |
| Dancer.AddDancer | libs/bg_objects/dancer.py:155-161 | while dancers and slots last, the next dancer goes to the next slot of the fill order; otherwise nothing changes; the group invariant holds |
| Dancer.NewGroup | libs/bg_objects/dancer.py:132-153 | a new group has one dancer out, in the first slot of the fill order (the centre from three slots up), and every other slot empty |
| Dancer.AddDancersCount | libs/bg_objects/dancer.py:155-161 | n calls bring out min(active + n, dancers, slots) dancers |
| Dancer.FullGroupFillsSlots | libs/bg_objects/dancer.py:155-161 | with every dancer out every slot is occupied |
| Dancer.HalfBeat | libs/bg_objects/dancer.py:29 | one keyframe lasts half a beat: (60000 / bpm) / 2 ms |
| Dancer.LoopAt | libs/bg_objects/dancer.py:29-31 | a dancer's loop has one window per keyframe, each half a beat long, joined end to end from 0 to the total duration |
| Dancer.UpdateBpm | libs/bg_objects/dancer.py:53-59 | a new tempo rebuilds the loop with the same keyframes as one made at that tempo |
| Background.Threshold | libs/background.py:128 | the gauge length at which every dancer is out is the gauge's clear start for the difficulty capped at ONI, at least 52 |
| Background.Milestone | libs/background.py:129-132 | the milestone never passes the dancer count, reaches it exactly at the threshold, and is non-negative on a non-negative gauge |
| Background.MilestoneReached | libs/background.py:129-130 | below the threshold, milestone k is reached exactly when the gauge covers k steps of threshold / dancers |
| Background.MilestoneMonotone | libs/background.py:129-132 | a fuller gauge never reaches a lower milestone |
| Background.NewBg | libs/background.py:94-96 | the background starts at milestone 1 with neither flag set |
| Background.AddChibi | libs/background.py:99-108 | a chibi is added when the scene has chibis and nothing happens otherwise |
| Background.AddRenda | libs/background.py:110-115 | a drumroll effect is added when the scene has them and nothing happens otherwise |
| Background.Update | libs/background.py:117-146 | a dancer comes out exactly when the scene has dancers and the gauge passes a new milestone; the fever starts on the gauge's clear edge and the rainbow fever on its rainbow edge; the flags then follow the gauge; without a gauge nothing changes |
| Background.RunAddsBounded | libs/background.py:127-136 | the milestone never falls, and over a song at most dancers - 1 dancers join the first |
| Background.FullGaugeAddsDancer | libs/background.py:131-135 | a gauge at the threshold brings out a dancer exactly when the last milestone was not yet reached |

## Left out

- Drawing: every `draw` method, textures, fonts, outlined text, videos, transitions and the background and character artwork. None of it changes the rules modelled here.
- Animation clocks (`Animation` objects, `is_finished`, fade timers): their outcome is a boolean parameter wherever the logic reads it, and the entry boxes' slides are a state each frame receives.
- Key presses and raylib key queries: the keys pressed in a frame are a parameter. Key names other than letters and digits in `libs/config.py` are not modelled.
- Text.Lower, Text.IsDigit and Config.KeyCode: ASCII only. Python's `str.lower`, `str.isdigit` and `str.isalnum` (libs/config.py:106) also fold or accept non-ASCII letters and digits, which the model treats as neither.
- Randomness (`random.choice`, `random.sample`, `randint`, `shuffle`): the random pick is a parameter constrained to the source's range, and the dancers' shuffled order is a list index.
- Floating point: floats are exact `real`s, so rounding errors of the source's arithmetic are not modelled.
- The audio engine's mutex: each locked function is one atomic step, and threads are not modelled.
- The audio device and codecs: PortAudio setup and host queries, libsndfile decoding and Speex resampling. Decoded frames are a parameter of the refill.
- Audio.UpdateMusicStream, Audio.RefillDecoded and Audio.UpdateMusicStreamAsWritten: only the path without a resampler is modelled (libs/audio/audio.c:1077-1087). With a resampler (audio.c:1061-1075) Speex writes its output frames in the file's own channel layout straight into the half, so a mono file is not duplicated into both channels, and the zero fill starts at two samples per frame written.
- Audio.Buffer: the cursor and the processed-frame count are unbounded naturals, where the source's `unsigned int` fields (libs/audio/audio.c:95-96) wrap after 2^32 frames, about 27 hours at 44.1 kHz.
- The mix's sample arithmetic: the pan gains, buffer volume and master volume multiplied into each sample. A sample value is abstract; the model states which ring frame each output frame reads.
- The seconds conversions of the audio engine's time queries, other than the processed-frame count a seek sets.
- Persistence: sqlite reads and writes, song hashing, TOML reading and writing, and directory scans. The score row read from the database and the favourites file's lines are parameters; `write_score` returns the row it would write.
- Chart metadata other than the course data (title, subtitle, BPM, offset, wave file and the like): it feeds drawing and audio, not the chart rules modelled.
- `scoreinit`/`scorediff` in a chart: the base score is computed from the notes alone, as the source does.
- The difficulty-sort statistics' per-genre totals shown on screen (scenes/song_select.py:754-761): they are sums of the per-level counters, which are modelled.
- The nameplate and character resets of the entry screen: drawing state only.
- Entry.Slide: `Animation` is not part of this model, so a box's `move` animation is three states: not started, sliding, finished. The model assumes that `start` makes it started and unfinished, and that only the clock finishes it. Each frame receives the slides as they stand.
- The dancer start animations, the chibi and drumroll effect objects and the collaboration background presets: the background models only how many of each are spawned and when.
- The 2P gauge of the background and `don_bg`: player 1's gauge drives the milestones and fevers as in the single-player path.
- The two-player, dan-select and practice song-select scenes: they dispatch to logic already modelled.
- `scenes/game_dan.py`: an outdated copy of `scenes/dan/game_dan.py`, which is the one the game uses.
- AudioRegistry.UntrackRemoves: requires the buffer to be in the list, because `untrack_audio_buffer` does not check membership; what happens to a detached buffer is stated separately by AudioRegistry.UntrackDetachedEmpties.
- Audio.MixCallback: requires every mixable buffer to hold at least two frames, because the callback divides by half the size and a one-frame buffer divides by zero.
- Game.Step: requires a positive note count and a difficulty with a gauge table row; the source divides by the note count and indexes the table, and raises otherwise.
- Game.UpdateGauge: below difficulty -4, where Python's `clear_start[difficulty]` raises IndexError, the model uses the EASY clear start; the game never builds such a gauge.
- Game.AddGood: requires a usable gauge for the same reason as Game.Step.
- Game.AddOk: requires a usable gauge for the same reason as Game.Step.
- Game.AddBad: requires a usable gauge for the same reason as Game.Step.
- Game.DecidedCount: requires a non-zero note count in the branch requirements; the source divides by it for a 'p' condition.
- Game.EvaluateBranch: requires a non-zero note count for the same reason as Game.DecidedCount.
- GameDan.Progress: requires a positive red value; the source divides by it, so zero raises, and a negative red value is not modelled.
- GameDan.DanStep: requires a positive note count; the source divides by it.
- DanResult.ResultOf: requires a positive red value for the same reason as GameDan.Progress.
- Practice.NearestBar: requires at least one bar; the source reads the first bar's time.
- Practice.PauseSong: requires at least one bar for the same reason.
- Practice.Resume: requires at least one bar and an index the pause can produce.
- Practice.ScrubLeft: requires at least one bar; the source would take the index modulo zero.
- Practice.ScrubRight: requires at least one bar for the same reason.
- Chara.KeyframeAtStart: requires a positive tempo; the source divides by it.
- Dancer.LoopAt: requires a positive tempo; the source divides by it.
- Tja.ModifierInverse: returns the new play list. The source copies only the list (libs/tja.py:913-917) and assigns `type` on the shared Note objects, so the input list and any draw list sharing those notes are inverted in place. In `apply_modifiers` that in-place change is the only effect kept. The model has no object identity, so it does not state the aliasing.
- Result.ResultGaugeState: below difficulty -3, with a gauge short of the maximum, Python's `clear_start[difficulty]` raises IndexError. The model reads the first entry there, which is 69 like every entry. The game never passes such a difficulty.
- FileNavigator.FolderCrownOf and FileNavigator.StatFlags: every column of a stored row is an integer. A NULL column is not modelled. For a NULL crown column (libs/file_navigator.py:1365-1371) the DFC and FC tests read it as neither, and the clear test's `None >= Crown.CLEAR` raises TypeError. For a NULL drumroll column the statistics (libs/file_navigator.py:1106-1107) read neither flag.

## Findings

| source | as written | input that shows it | evidently intended | confidence | as-written member | corrected member |
|---|---|---|---|---|---|---|
| libs/audio/audio.c:896-919 | `update_audio_stream` caps the copy at the buffer's capacity but then sets `sizeInFrames` to the requested frame count | a stream with room for 2 frames updated with 4 frames: the size becomes 4, so the mixer reads frames 2 and 3 past the data | the size never exceeds the capacity that was copied | not executed | Audio.UpdateAudioStreamOverrun | Audio.UpdateAudioStream |
| scenes/game.py:190-204 | a better score replaces the stored row together with the new crown, even when the new crown is worse | stored score 900000 with a full combo, then 950000 with a plain clear: the stored crown drops from FC to clear | the stored crown only ever rises, as the crown comparison at the end of `write_score` intends | not executed | Game.CrownCanDrop | Game.WriteScoreMonotone |
| scenes/dan/dan_result.py:158 | the gold test compares the exam's progress, a fraction in [0, 1], with the gold value, a count | a `judgeperfect` exam with red 100 and gold 120 passed with 130 GOODs: the progress is at most 1.0, below 120, so a gold clear is shown as red | gold is reached when the value reaches the gold count | not executed | DanResult.GoldClearMissed | DanResult.GoldFillsBars |
| scenes/song_select.py:1162 | the speed modifier's floor is written as `max(0.1, speed*10 - 1)/10`, so the lowest speed is 0.01 | speed 0.1, left pressed: the speed becomes 0.01, a value off the 0.1 grid the right key uses | the speed stops at 0.1 | not executed | SongSelect.ModLeftAtSlowest | SongSelect.ModLeftCorrected |
| libs/utils.py:107-118 | the key queries compare the player with the strings "0", "1" and "2", but mode select passes `PlayerNum` members (scenes/entry.py:102, 110 and 345), which equal none of them | player 1 alone in mode select presses their left don: the query answers False and no box is chosen | the queries answer for the player passed, as they do when it is passed as a string | not executed | Entry.OwnDonIgnored | Entry.QueryWithTextAnswers |
| scenes/entry.py:102-110 | `and` binds tighter than `or` in the mode-select back tests, so once the queries answer for the player passed, any right don press of either player passes them | with the queries answering, player 1 alone in mode select presses their own right don to choose a box: the same press reopens side select | only the other player's don, once one player has entered, reopens side select | not executed | Entry.OwnDonLeavesModeSelect | Entry.OwnDonStaysInModeSelect |
| libs/audio/audio.c:1085 | without a resampler, a file that is not mono is copied into the two-channel ring at its own width, `frames_read * channels` samples into a half of `2 * subBufferSizeFrames` | a three-channel file and a two-frame ring: refilling the second half writes three samples where two remain, past the ring; refilling only the first half overwrites the second, which was ready to play | each half holds two samples per frame, as the zero fill's offset `frames_written * AUDIO_DEVICE_CHANNELS` assumes; the corrected member keeps the first two channels of each frame, a choice the source does not make | not executed | Audio.ThreeChannelsOverrun | Audio.UpdateMusicStream |
| libs/chara_2d.py:30-94 | a tempo change sets every character's keyframe length to 2250/bpm, while character 0 was made with twice that | character 0 made at 100 bpm, tempo changes to 200 bpm: its keyframes last 11.25 ms, against 22.5 ms for one made at 200 bpm | character 0 keeps its doubled keyframes after a tempo change | not executed | Chara.BpmChangeHalvesCharacterZero | Chara.BpmChangeMatchesStart |
