# Four ScummVM components, modelled and proved in Dafny

This project models four small pieces of ScummVM and proves properties of
them.

- **The FLAC audio stream** (`flac_convert.dfy`, `flac_stream.dfy`). libFLAC
  pushes decoded blocks into `FLACStream`'s write callback, and the stream
  turns them into a pull interface, `readBuffer`. The model covers:
  - how a block is clipped at the last sample of the stream;
  - the five converters that narrow planar 4 to 32-bit samples to
    interleaved `int16`, and how the best one is chosen;
  - the sample cache that holds what did not fit the caller's buffer;
  - seeking, end of data, and the `makeFLACStream` factory.

  libFLAC is abstract: it is a queue of decoded blocks plus the decoder
  state it ends in. The main theorem concerns `ReadBuffer`. The samples it
  writes are a prefix of everything the stream will still deliver (the
  cache, then the clipped and converted queued blocks). That future stream
  loses exactly this prefix. Each fast converter writes the same samples
  as a reference interleaving `Converted`, which is also what the generic
  converter writes.
- **The Illusions engine's input layer** (`illusions_input.dfy`). Key maps
  and input events turn actions and mouse buttons into button bits.
  `Input` keeps pressed, new and enabled button masks, moves the cursor by
  keyboard within the screen, and follows the `gosanta` cheat code.
- **The Toltecs movie player** (`toltecs_movie.dfy`). The model covers:
  - the run-length frame and palette decoders, which are one decoder with
    two limits;
  - a round trip through a reference encoder;
  - the audio chunk prefetch over the chunk stream;
  - the rule that grows the chunk buffer;
  - the nibble swap of the subtitle colour.
- **The Labyrinth of Time button interface** (`lab_interface.dfy`). The
  model covers creating, freeing, drawing and toggling buttons, and
  matching a key or a mouse position against the attached button list.

`wrappers.dfy` holds the `Option` type.

## Model

| member | source | states |
|---|---|---|
| FlacConvert.Narrow | audio/decoders/flac.cpp:470-474 | Storing into an `int16` keeps every value in range, and is congruent to the value modulo 2^16 otherwise. At 16 bits it is a plain store, since every 16-bit sample is already in range. |
| FlacConvert.AdvanceTwice | audio/decoders/flac.cpp:519-534 | Converting `a` frames and then `b` more leaves every channel cursor where converting `a + b` frames at once does. This is why the two converter calls of the write callback, one to the caller's buffer and one to the cache, read one continuous run of frames. |
| FlacConvert.ConvertSampleScalesUp | audio/decoders/flac.cpp:456-462 | For samples of at most 16 bits, the per-sample rule shifts left by `16 - bits`, which is multiplication by 2^(16-bits). |
| FlacConvert.ConvertSampleScalesDown | audio/decoders/flac.cpp:463-469 | For samples of more than 16 bits, the rule shifts right by `bits - 16`, which is floor division by 2^(bits-16). |
| FlacConvert.ScaledFits | audio/decoders/flac.cpp:456-462 | A sample in its bit range, scaled up to 16 bits, fits an `int16`. |
| FlacConvert.Widen8 | audio/decoders/flac.cpp:361-384 | The 8-bit shift `<< 8` agrees with the generic rule at 8 bits. |
| FlacConvert.ShlIsMul | audio/decoders/flac.cpp:461 | A left shift by k is multiplication by 2^k. |
| FlacConvert.ShrIsDiv | audio/decoders/flac.cpp:468 | An arithmetic right shift by k is floor division by 2^k. |
| FlacConvert.ConvertedAt | audio/decoders/flac.cpp:453-478 | Output sample `f * nch + c` is channel c's sample f, converted: the output is frame-interleaved. |
| FlacConvert.ConvertedIndex | audio/decoders/flac.cpp:453-478 | Every output index holds the converted sample of its channel and frame. |
| FlacConvert.ConvertedSplit | audio/decoders/flac.cpp:513-534 | Converting a+b frames gives the first a frames followed by the next b frames from the advanced cursors, so a block split between the caller's buffer and the cache is the whole block. |
| FlacConvert.ConvertMonoNS | audio/decoders/flac.cpp:336-358 | The mono 16-bit fast path writes exactly the reference interleaving at the destination, leaves every other element unchanged, and advances the cursor. |
| FlacConvert.ConvertMono8Bit | audio/decoders/flac.cpp:361-384 | The same for mono 8-bit: each sample is widened by `<< 8`. |
| FlacConvert.ConvertStereoNS | audio/decoders/flac.cpp:387-417 | The same for stereo 16-bit: left and right are written alternately. |
| FlacConvert.ConvertStereo8Bit | audio/decoders/flac.cpp:420-450 | The same for stereo 8-bit. |
| FlacConvert.ConvertGeneric | audio/decoders/flac.cpp:453-478 | The generic converter, for any channel count and 4 to 32 bits, writes the reference interleaving and advances every cursor by the frame count. |
| FlacStream.OutputChannels | audio/decoders/flac.cpp:109 | `getChannels` is at most 2, equals the stream's channel count when that is at most 2, is 2 otherwise, and is 0 exactly when the stream has no channels. |
| FlacStream.BestMethod | audio/decoders/flac.cpp:311-333 | Mono or stereo at 8 or 16 bits selects the matching fast converter; every other combination selects the generic one. |
| FlacStream.BestMethodApplicable | audio/decoders/flac.cpp:311-333 | The converter selected is always valid for the stream's channel count and bit depth. |
| FlacStream.ConvertBuffers | audio/decoders/flac.cpp:519-534 | Calling through the selected converter writes the reference interleaving, whichever converter was selected. |
| FlacStream.Clip | audio/decoders/flac.cpp:498-502 | A block is clipped only when a last sample is set and the block reaches it. The clipped block ends exactly at the last sample, or is empty if it started past it. `lastSampleWritten` is set exactly when the block reaches the end. |
| FlacStream.CallbackReadStatus | audio/decoders/flac.cpp:296-309 | Continue exactly when bytes were requested and some were read. End of stream exactly when none were read and the input is at its end. Abort otherwise. |
| FlacStream.LastSampleFor | audio/decoders/flac.cpp:176-178 | The last-sample bound is 0 (no bound) exactly when the total length is unknown; otherwise it is `total_samples + 1`. |
| FlacStream.UnknownLengthNeverClipped | audio/decoders/flac.cpp:498-502 | With the corrected bound, a stream of unknown length never has a block clipped. |
| FlacStream.AsWrittenUnknownLengthClipsToOneFrame | audio/decoders/flac.cpp:176-178 | As written, a stream of unknown length gets bound 1, and its first block is clipped to a single frame and ends the stream. |
| FlacStream.AsWrittenCacheOverflows | audio/decoders/flac.cpp:71-75 | A legal stereo block of 32769 frames produces 65538 samples, more than the 65536-sample cache holds. |
| FlacStream.CacheHoldsAnyBlock | audio/decoders/flac.cpp:528-533 | With room for the largest block on both output channels, the cache-space assertion holds for every well-formed block. |
| FlacStream.UpcomingBounded | audio/decoders/flac.cpp:498-502 | Blocks numbered consecutively from `first` never deliver more than `lastSample - first` frames in total. |
| FlacStream.WholeFramesMultiple | audio/decoders/flac.cpp:493 | The model's frame-alignment predicate is "a multiple of the channel count". |
| FlacStream.FLACStream.GetChannels | audio/decoders/flac.cpp:109 | The output channel count is at most 2, and 0 only for a stream without channels. |
| FlacStream.FLACStream.IsStereo | audio/decoders/flac.cpp:96 | `isStereo` holds exactly when two channels are output. |
| FlacStream.FLACStream.EndOfData | audio/decoders/flac.cpp:98-102 | At end of data nothing is left to deliver: the cache is empty and the decoder will produce no more samples. A stream without channels is always at end of data. A stream with channels is at end of data once its last sample was written and the cache was drained, and never while cached samples remain. |
| FlacStream.FLACStream.constructor | audio/decoders/flac.cpp:146-184 | After set-up the stream has the metadata's info whenever STREAMINFO arrived, even if metadata processing then failed. The last-sample bound (the corrected one, see Findings) and the length are set only when set-up succeeded with channels. The cache is empty and holds `CACHE_CAPACITY` samples. End of data holds exactly when initialisation failed or no STREAMINFO arrived. |
| FlacStream.FLACStream.CallbackWrite | audio/decoders/flac.cpp:480-539 | The clipped, converted block first fills what is still requested of the caller's buffer; the rest is appended to the cache. Counters and `lastSampleWritten` are updated. |
| FlacStream.FLACStream.ProcessSingleBlock | audio/decoders/flac.cpp:200-203 | Decoding one block moves samples from the future stream to the caller's buffer without losing or reordering any. With an empty queue, the decoder reaches its end state. |
| FlacStream.FLACStream.CopyFromCache | audio/decoders/flac.cpp:243-256 | Cached samples are copied to the caller first, in order, and the cache keeps the rest. |
| FlacStream.FLACStream.CheckDecoderState | audio/decoders/flac.cpp:274-284 | The decoder is fine exactly in end-of-stream or frame-sync state. End of stream marks the last sample written. |
| FlacStream.FLACStream.ReadBuffer | audio/decoders/flac.cpp:227-294 | Without channels the result is -1, and the flag, the decoder state and the buffer are unchanged. Otherwise the samples written are a whole number of frames, at most the request, and are exactly the front of the future stream, which loses them. The result is -1 after a decoder error, and the count written otherwise. A short read happens only at end of data. |
| FlacStream.FLACStream.ReadFrames | audio/decoders/flac.cpp:240-294 | With channels: the cached samples and then the decoded blocks fill the buffer's front. What is written is a whole number of frames, at most the request, and is exactly what the future stream loses. The result is -1 unless decoding stopped at the end of the stream or at a frame sync, and a short read happens only at end of data. |
| FlacStream.FLACStream.SeekAbsolute | audio/decoders/flac.cpp:210-217 | On success the decoder continues from the seek target, and `lastSampleWritten` is set exactly when the target is at or past the last sample. On failure the flag is kept. |
| FlacStream.FLACStream.Seek | audio/decoders/flac.cpp:219-225 | Seeking empties the cache first, then seeks as `SeekAbsolute`. On failure the decoder is in the seek-error state, nothing is pending, the cache is empty and `lastSampleWritten` is kept. |
| FlacStream.MakeFLACStream | audio/decoders/flac.cpp:629-639 | The factory returns null exactly when set-up leaves the stream at end of data; otherwise it returns a fresh, valid stream. |
| IllusionsInput.Handled | engines/illusions/input.cpp:67-75 | A mapping that matches takes the event's up or down state; any other mapping is unchanged. |
| IllusionsInput.SecondPressIsQuiet | engines/illusions/input.cpp:65-78 | A second press with no release in between fires no mapping and changes nothing. |
| IllusionsInput.PressAfterReleaseFires | engines/illusions/input.cpp:65-78 | After a release, a press of a matching mapping fires again. |
| IllusionsInput.Clip | engines/illusions/input.cpp:251-252 | `CLIP` stays in range and keeps values already inside it. A value below the range becomes its low end, one above it its high end. |
| IllusionsInput.ClipIdempotent | engines/illusions/input.cpp:251-252 | Clipping twice is clipping once. |
| IllusionsInput.CursorStep | engines/illusions/input.cpp:182-197 | Only the four cursor actions move the cursor: up by (0, -4), down by (0, 4), left by (-4, 0) and right by (4, 0). |
| IllusionsInput.MovedCursor | engines/illusions/input.cpp:249-253 | The cursor stays on the screen. On each axis it moves by exactly the delta when the target is on the screen. A target before the screen's start is clamped to 0, one past its end to the last pixel. |
| IllusionsInput.CheatStep | engines/illusions/input.cpp:208-214 | A key-up with cheat mode off moves the cheat index one step further or back to 0, never past 7. It steps further exactly when the key is the next letter of the code. |
| IllusionsInput.KeyUp | engines/illusions/input.cpp:208-214 | Once cheat mode is on (index 7), a key-up leaves the index at 7. Otherwise the index steps further exactly when the key is the next letter of the code, and goes back to 0 on any other key. |
| IllusionsInput.TypingTheCodeActivates | engines/illusions/input.cpp:207-215 | Releasing `g o s a n t a` from the start switches cheat mode on. |
| IllusionsInput.StrayGRestarts | engines/illusions/input.cpp:209-213 | A wrong letter resets the index to 0, even when it is a `g`, so `ggo` does not advance. |
| IllusionsInput.ActiveStaysActive | engines/illusions/input.cpp:208 | Once cheat mode is on, no key switches it off. |
| IllusionsInput.CheatIndexMeaning | engines/illusions/input.cpp:207-215 | A cheat index below 7 means the last keys released are the first letters of the code. At 7, the whole code was typed in a row. |
| IllusionsInput.InputEvent.constructor | engines/illusions/input.cpp:47-48 | A new event has mask 0 and no mappings. |
| IllusionsInput.InputEvent.SetBitMask | engines/illusions/input.cpp:50-53 | Sets the event's mask. |
| IllusionsInput.InputEvent.Add | engines/illusions/input.cpp:37-43 | Appends one mapping, in the up state. |
| IllusionsInput.InputEvent.AddKey | engines/illusions/input.cpp:55-58 | Appends a mapping for the action with no mouse button. |
| IllusionsInput.InputEvent.AddMouseButton | engines/illusions/input.cpp:60-63 | Appends a mapping for the mouse button with no action. |
| IllusionsInput.InputEvent.Handle | engines/illusions/input.cpp:65-78 | Every mapping is updated as `Handled`. The result is the mask exactly when some mapping went from up to down, and empty otherwise. |
| IllusionsInput.Input.constructor | engines/illusions/input.cpp:85-97 | Every mask is empty except the enabled one, which holds all sixteen buttons. The cursor is at the origin and the cheat index is 0. |
| IllusionsInput.Input.MouseMove | engines/illusions/input.cpp:113-117 | A mouse move puts the cursor at the mouse and clears the moved-by-keyboard flag. |
| IllusionsInput.Input.LookSeesEnabledPress | engines/illusions/input.cpp:233-235 | A pressed, enabled bit is seen through any mask containing it. |
| IllusionsInput.Input.LookIgnoresDisabled | engines/illusions/input.cpp:233-239 | Bits that are all disabled are never seen, either as pressed or as new. |
| IllusionsInput.Input.LookButtonStates | engines/illusions/input.cpp:233-235 | True exactly when some bit of the mask is held and enabled. |
| IllusionsInput.Input.LookNewButtons | engines/illusions/input.cpp:237-239 | True exactly when some bit of the mask is newly pressed and enabled. |
| IllusionsInput.Input.IsCheatModeActive | engines/illusions/input.cpp:255-257 | Cheat mode is on exactly when the index has reached the code's length. Once on, no key-up changes the index. |
| IllusionsInput.Input.SetCheatModeActive | engines/illusions/input.cpp:255-261 | Cheat mode reads back as set. |
| IllusionsInput.Input.HandleKey | engines/illusions/input.cpp:207-215 | Key-downs and keys pressed in cheat mode leave the index unchanged; a key-up steps it as `CheatStep`. |
| IllusionsInput.Input.MoveCursorByKeyboard | engines/illusions/input.cpp:249-253 | The cursor moves by the delta, clipped to the screen, and is marked as moved by keyboard. |
| IllusionsInput.Input.HandleAction | engines/illusions/input.cpp:181-205 | A cursor action moves the cursor, and any other action leaves it alone. Every event handles the event. The masks of the events that fired are added to the button states. The new buttons are exactly the bits this added. |
| IllusionsInput.Input.HandleEvents | engines/illusions/input.cpp:198-200 | The loop over the events collects the masks of those that fired, and updates each event's key map. |
| IllusionsInput.Input.HandleMouseButton | engines/illusions/input.cpp:217-223 | The button's bit is set or cleared in the held mask, then the event is handled as the empty action. No event's mask changes. |
| IllusionsInput.Input.PollButton | engines/illusions/input.cpp:225-231 | Returns true exactly when `lookButtonStates` holds, and then releases the whole mask; otherwise nothing changes. |
| IllusionsInput.Input.SetButtonState | engines/illusions/input.cpp:241-243 | Presses exactly the enabled bits of the mask. |
| IllusionsInput.Input.DiscardButtons | engines/illusions/input.cpp:245-247 | Releases the mask's bits and keeps the others. |
| IllusionsInput.Input.DiscardAllEvents | engines/illusions/input.cpp:147-149 | Releases all sixteen button bits. |
| IllusionsInput.Input.ActivateButton | engines/illusions/input.cpp:151-154 | Enables the mask's bits and releases them, so none reads as pressed. |
| IllusionsInput.Input.DeactivateButton | engines/illusions/input.cpp:156-158 | Disables the mask's bits, which are then never seen as pressed or new. |
| IllusionsInput.Input.SetCursorPosition | engines/illusions/input.cpp:164-166 | Sets both the current and the previous cursor position. |
| IllusionsInput.Input.GetCursorDelta | engines/illusions/input.cpp:168-174 | The delta is previous minus current. The previous position then catches up, so the next delta is zero until the cursor moves. |
| ToltecsMovie.Fill | engines/toltecs/movie.cpp:262 | `memset` writes the value into exactly the run and leaves every other byte. |
| ToltecsMovie.Run | engines/toltecs/movie.cpp:234-267 | The run-length decoder keeps the destination size and consumes whole pairs. Once started below the limit, it stops at most 254 bytes past it. It fails when it would read past the source or write past the destination. |
| ToltecsMovie.RunFrame | engines/toltecs/movie.cpp:250-267 | The decoder writes only between where it started and where it stopped; every byte it skips keeps its value. |
| ToltecsMovie.ZeroPairsNeverFinish | engines/toltecs/movie.cpp:240-241 | A source of zero pairs never moves the destination, so it always runs out of source. |
| ToltecsMovie.DecodeEncoded | engines/toltecs/movie.cpp:250-267 | Decoding the run-length encoding of some pixels writes exactly those pixels and consumes the whole encoding. |
| ToltecsMovie.FrameRoundTrip | engines/toltecs/movie.cpp:250-267 | An encoded full 640x400 frame decodes to that frame on any screen. |
| ToltecsMovie.FirstPaletteSkippedStaysZero | engines/toltecs/movie.cpp:147-149 | Palette bytes the first palette chunk skips stay zero. |
| ToltecsMovie.Memset | engines/toltecs/movie.cpp:243 | The destination becomes `Fill` of its old contents. |
| ToltecsMovie.UnpackPalette | engines/toltecs/movie.cpp:234-248 | The palette becomes the decoder's result with limit `elemCount * elemSize`. |
| ToltecsMovie.UnpackRle | engines/toltecs/movie.cpp:250-267 | The screen becomes the decoder's result with limit 256000. |
| ToltecsMovie.SwapNibbles | engines/toltecs/movie.cpp:172 | The high nibble of the colour is the old low nibble, and the low nibble is the old high nibble. |
| ToltecsMovie.MaxNonAudio | engines/toltecs/movie.cpp:114-120 | The chunk buffer's size is at least every non-audio chunk seen and equals one of them, or 0 when there are none. |
| ToltecsMovie.ChunkBufferCapacity | engines/toltecs/movie.cpp:103-123 | The buffer grows only when a bigger chunk arrives, and ends as large as the largest non-audio chunk. |
| ToltecsMovie.Prefetch | engines/toltecs/movie.cpp:214-226 | At most the budget of audio chunks is queued. Prefetch stops on a chunk boundary, and stops before the end only when the budget is used up. |
| ToltecsMovie.PrefetchQueuesAudioOnly | engines/toltecs/movie.cpp:217-222 | Only audio chunk payloads are queued. |
| ToltecsMovie.PrefetchSplits | engines/toltecs/movie.cpp:208-232 | Prefetching m chunks and then n chunks from where it stopped is the same as prefetching m+n chunks. |
| ToltecsMovie.ReadAudioChunks | engines/toltecs/movie.cpp:214-226 | The loop over the chunk stream queues exactly what `Prefetch` describes. |
| ToltecsMovie.MoviePlayer.constructor | engines/toltecs/movie.cpp:47-48 | A new player has no prefetch position and an empty audio queue. |
| ToltecsMovie.MoviePlayer.FetchAudioChunks | engines/toltecs/movie.cpp:208-232 | Prefetch resumes at the last prefetch position, or at the current position the first time. It queues `framesPerSoundChunk / 2` audio chunks and records where it stopped. The archive position is restored. |
| LabInterface.NumKeyMatches | engines/lab/interface.cpp:94-113 | A key equal to a button's valid key equivalent always selects it. A digit key selects a button exactly when it is the equivalent, or the id is the digit minus 1 for '1' to '9', or 9 for '0'. The 16-bit subtraction lets other keys match too: a key above '0' selects the id `key - '0' - 1` (so ':' also selects 9), and a key below '0' selects `key - '0' + 65535`. |
| LabInterface.Button.constructor | engines/lab/interface.cpp:49-64 | A button has the given position, id, key and image size, and is enabled. |
| LabInterface.Interface.constructor | engines/lab/interface.cpp:44-47 | No list is attached and no button is pressed. |
| LabInterface.Interface.CreateButton | engines/lab/interface.cpp:49-64 | A new enabled button, with x scaled to the screen. |
| LabInterface.Interface.FreeButtonList | engines/lab/interface.cpp:66-74 | The list is left empty. |
| LabInterface.Interface.ToggleButton | engines/lab/interface.cpp:85-92 | The button's enabled flag becomes the requested state. |
| LabInterface.Interface.DrawButtonListAsWritten | engines/lab/interface.cpp:76-83 | As written, drawing a list leaves every button enabled. |
| LabInterface.Interface.DrawButtonList | engines/lab/interface.cpp:76-83 | Drawing a list keeps every button's enabled state. |
| LabInterface.Interface.AttachButtonList | engines/lab/interface.cpp:144-146 | The list becomes the one the hit checks search. |
| LabInterface.Interface.CheckNumButtonHit | engines/lab/interface.cpp:94-113 | Returns the first enabled button the key selects, or null when none does or no list is attached. Never returns a disabled button. |
| LabInterface.Interface.CheckButtonHit | engines/lab/interface.cpp:115-129 | Returns the first enabled button containing the point and records it as pressed, or null with the pressed button unchanged. |
| LabInterface.Interface.HandlePressedButton | engines/lab/interface.cpp:131-142 | The pressed button is forgotten. |
| LabInterface.Interface.GetButton | engines/lab/interface.cpp:148-155 | Returns the first button with the id, enabled or not, or null when there is none. |

## Left out

- libFLAC itself: frame parsing, the read, seek, tell, length and EOF
  callbacks, and the error callback.
  - The decoder is a queue of already decoded blocks and the state it ends
    in.
  - Only the read callback's status mapping is kept, as
    `CallbackReadStatus`, with the bytes read and the end-of-stream flag as
    parameters.
  - `callbackMetadata` is folded into the constructor's metadata parameter.
- The `callWrap*` trampolines, the destructor and `getStreamDecoderState`:
  these are only plumbing.
- `Timestamp`, `getLength`'s time unit and `convertTimeToStreamPos`. The seek
  target is a frame index, and the length is a frame count.
- FlacStream.FLACStream.constructor: the class runs the corrected program. It
  uses `LastSampleFor`, which leaves the bound at 0 (no clipping) for a stream
  of unknown length, and a cache of `CACHE_CAPACITY` = 131072 samples. The
  code as written sets `total_samples + 1` and has 65536 samples; those
  values are modelled by `AsWrittenUnknownLengthClipsToOneFrame` and
  `AsWrittenCacheOverflows` (see Findings).
- FlacStream.FLACStream.ReadBuffer: does not state that the buffer past the
  samples written is left untouched. That would need a frame condition
  threaded through every converter and cache copy, and it is not needed for
  what the stream delivers.
- FlacStream.FLACStream.SeekAbsolute: the outcome of libFLAC's seek is a
  parameter. It either fails, or succeeds with the blocks still to decode
  and possibly one block delivered during the seek. Which frame libFLAC
  lands on is not modelled. A failed seek always leaves the decoder in
  the seek-error state with nothing pending; libFLAC's refusal to seek from
  some states without changing its state is not modelled.
- Input values that break the source's `assert`s are excluded by `requires`:
  - a request that is not a whole number of frames;
  - a block whose header disagrees with the stream info;
  - a null buffer.
- Logging (`warning`, `debug`) is left out everywhere.
- Illusions: the key-down, key-up and mouse-button cases of `processEvent`
  forward to the handlers modelled here. Only its mouse-move case is
  modelled, as `MouseMove`.
- Illusions: `MOUSE_NONE`, `MOUSE_LEFT_BUTTON`, `MOUSE_RIGHT_BUTTON`, the
  action identifiers and `CLIP` come from `input.h` and `common/util.h`,
  which are not part of this model. The mouse buttons are taken as distinct
  single bits and `MOUSE_NONE` as 0.
- Illusions: a mask is modelled as the set of its bits, because masks are
  only combined bitwise. The screen size from `g_system` is a constructor
  parameter.
- Illusions: `getCursorPosition` and `setInputEvent` are plain accessors and
  are not modelled.
- Toltecs: `playMovie`'s timing, screen and palette updates, subtitles,
  screen shake and abort handling are left out. So are reading the
  archive header and `MoviePlayer`'s destructor. Only the chunk-buffer
  growth rule and the subtitle colour swap are modelled from it.
- ToltecsMovie.MoviePlayer.FetchAudioChunks: the archive is a map from chunk
  offsets to chunk headers. Queuing an audio chunk records its payload's
  offset and size, not its bytes.
- ToltecsMovie.UnpackRle and ToltecsMovie.UnpackPalette require the source
  to be well formed: it must hold enough pairs, and every run must fit the
  destination. The C code reads and writes past the buffers otherwise,
  which is undefined behaviour.
- Labyrinth: drawing, images, pen colours, delays and screen updates are
  left out.
  - `Common::Rect::contains` and `vgaScaleX` are parameters.
  - A button keeps only what the matching rules read.
  - `createButton`'s null result on a failed allocation is not modelled.
- LabInterface.Interface.HandlePressedButton: the pressed-then-released
  redraw and the delay between them are not modelled. Only the forgetting
  of the pressed button is.

## Findings

| source | as written | input that shows it | evidently intended | confidence | as-written member | corrected member |
|---|---|---|---|---|---|---|
| audio/decoders/flac.cpp:528-533 | The sample cache holds 65536 `int16` samples, but a block of up to 65535 frames is cached on up to two output channels, so a cached block can need 131070 samples. | A stereo stream of known length (65538 frames) with 32769-frame blocks. Its first block is not clipped. A block delivered while seeking, when nothing is requested, makes `numSamples` 65538 > `cacheSpace` 65536. | The cache holds any legal block on every output channel: 65536 × 2 samples. | medium; not executed | FlacStream.AsWrittenCacheOverflows | FlacStream.CacheHoldsAnyBlock |
| audio/decoders/flac.cpp:176-178 | `_lastSample = total_samples + 1` also when `total_samples` is 0, which in STREAMINFO means "unknown length". | `total_samples` 0 gives `_lastSample` 1. The first block is then clipped to one frame, and the stream ends. | Unknown length leaves `_lastSample` at 0, which means no clipping. | medium; not executed | FlacStream.AsWrittenUnknownLengthClipsToOneFrame | FlacStream.UnknownLengthNeverClipped |
| engines/lab/interface.cpp:76-83 | `toggleButton(..., true)` sets `_isEnabled`, so the test of `_isEnabled` that follows never sees a disabled button. | A list holding one disabled button ends with that button enabled. | Each button is drawn and left in the state it had. | high; not executed | LabInterface.Interface.DrawButtonListAsWritten | LabInterface.Interface.DrawButtonList |
