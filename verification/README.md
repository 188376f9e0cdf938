# Listening test: session engine, table records and time label

This project models the sequential core of a blind listening-test application
in Dafny. The application decodes an audio file, builds a high-quality (HQ)
and a low-quality (LQ) rendition of it, lets the listener play the two in
random order, and records whether the listener picked the better one. The
model has three parts.

- **The session (`SongSession` in `Audio.cpp`), modules `Pcm` and `Audio`.**
  - Opening a file decides which tests it qualifies for. A 24-bit file
    qualifies for the bit-depth test. A 24-bit file at 96 kHz or 192 kHz also
    qualifies for the sample-rate test.
  - Reading a file fills the buffer that the conversions start from.
  - The rate conversion keeps every `samplingrate / 48000`-th frame (no
    filter).
  - The depth conversion keeps the top byte of each 24-bit sample, offset by
    0x80.
  - A coin decides which of the two play slots gets the HQ rendition.
  - The answer check, and the transport state over the FMOD sound and
    channel handles: started, paused, playing, stopped.
- **The table records (`Model.cpp`), module `Model`.** This covers `Song`
  (path, file name, rate, depth), `Result` (file name, test type, verdict),
  the column text of both, and the append, remove, get and reset operations
  of the two list models. Module `Decimal` models `QString::number` and
  `QString::toInt`, which the column text goes through.
- **The window logic (`MainWindow.cpp`), module `MainWindow`.** This covers
  the `H:MM:SS / H:MM:SS` time label the timer refreshes while a session
  plays, and the rule that enables the confirm button.

Every call into FMOD that reports something about a file or a playback is an
input of the model:
- what `createSound(path)` reports about a file (`Option<StreamInfo>`);
- the PCM bytes `readData` delivers (`Option<seq<Byte>>`);
- whether `createSound(buffer, …)` and `playSound` succeed (two booleans);
- the position and length the channel reports.

The paused state of a channel is the exception: the model keeps it itself,
as the state `setPaused` last set (see "## Left out"). `rand() % 2` is an
input bit as well. The C++ integer conversions are
written out:
- `uint32_t` and `uint8_t` casts are reductions modulo 2^32 and 2^8;
- `vector::size()` returned as `int` wraps;
- a negative `int` index compared with `size()` becomes a huge unsigned
  value.

The model follows the C++ implementation in `Audio.cpp`. It does not follow
the declarations in `Audio.h`, which describe a different SDL/ffmpeg version
of the class (`data_192_32`, `fill_audio`, `msToSample`, a `bool
startPlaying`) with no implementation among these files.

Four behaviours of the code shape the model:
- `convertSamplingrate` draws the HQ/LQ coin on every call (Audio.cpp:165),
  so `ConvertSamplingrate` takes a fresh `coin`. `convertBitdepth` never
  touches it, so a bit-depth test keeps the coin of the last rate
  conversion.
- `startPlaying` (Audio.cpp:197-227) hands whatever buffer the table selects
  to FMOD, an empty one included. The `created` input says whether FMOD
  accepted it.
- `getTimeInfo` (Audio.cpp:254-265) asks FMOD for position and length in
  milliseconds, so `GetTimeInfo` takes both as inputs. Outside playback it
  leaves its outputs untouched.
- The decimated buffer has `floor(bytes / step)` bytes (Audio.cpp:173). Its
  whole frames are copied, and the few bytes after the last whole frame keep
  the zero fill of `resize`.

## Model

| member | source | states |
|---|---|---|
| Audio.OpenSound | Audio.cpp:88-117 | Opening reports success exactly when FMOD can probe the file, and records the path. A failed probe changes nothing else. A successful one records the rate and the channel count reduced to 8 bits. The bit-depth flag is set afterwards iff it was set before or this file is 24-bit. The rate flag is set afterwards iff it was set before or this file is 24-bit at 96000 or 192000 Hz. The probe's sound handle is released, so no sound is held afterwards. The channel, the buffers and the coin are kept. |
| Audio.OpenFreshEligibility | Audio.cpp:104-109 | In a fresh session: depth test iff 24-bit; rate test iff 24-bit at 96000 or 192000 Hz; so rate test implies depth test. The rate and the 8-bit channel count are recorded. |
| Audio.OperationsKeepFlagsConsistent | Audio.cpp:104-109 | Every session operation preserves "rate test implies depth test". |
| Audio.NewSession | Audio.cpp:75-82 | A new session offers no test, holds no sound or channel, does not play, and has three empty buffers. |
| Audio.ReadSound | Audio.cpp:119-146 | The decoded bytes go to `data192_24` for a rate-test file and to `data48_24` for a depth-only file. Nothing is stored for a file with no test or one that fails to open. Apart from those two buffers and the released sound handle, nothing changes. Every buffer stays within a 32-bit length. |
| Audio.ConvertSamplingrate | Audio.cpp:164-180 | Always stores the new coin and selects the rate test. It fills `data48_24` with the decimation of the source by `samplingrate / 48000` at `3 * channels` bytes per frame, only if the rate test is allowed and `data48_24` is empty. Otherwise the buffer is unchanged. Nothing else changes. |
| Audio.ConvertSamplingrateTwice | Audio.cpp:164-168 | The conversion is cached: running it twice equals running it once with the second coin. |
| Pcm.Decimate | Audio.cpp:168-174 | The output has `floor(n / step)` bytes. |
| Pcm.DecimateFrames | Audio.cpp:171-178 | Each output frame `i` below `floor(floor(n / step) / frame)` is source frame `i * step`, read in bounds. Every byte after the last copied frame is 0. |
| Pcm.KeptPrefixFrame | Audio.cpp:176-178 | After `count` copies, frame `i < count` of the output is source frame `i * step`, and the read lies inside the source. |
| Pcm.KeptFrameInBounds | Audio.cpp:177 | Each `memcpy` of the loop reads inside the source and writes inside the destination. |
| Pcm.KeptFramesIsFramesOverStep | Audio.cpp:173-174 | The number of copied frames equals the number of whole source frames divided by the step. |
| Pcm.DecimateInPlace | Audio.cpp:173-178 | The `resize` + `memcpy` loop produces exactly the decimation. |
| Audio.ConvertBitdepth | Audio.cpp:182-195 | Always selects the depth test and keeps the coin. It fills `data48_8` with the requantization of `data48_24`, only if the depth test is allowed and `data48_8` is empty. Otherwise the buffer is unchanged. |
| Audio.ConvertBitdepthTwice | Audio.cpp:183-185 | The depth conversion is idempotent. |
| Audio.Requantize32 | Audio.cpp:186-193 | The loop with 32-bit count and index has `floor(n / 3)` entries. For a buffer a 32-bit length describes, it is the plain requantization. |
| Pcm.Requantize | Audio.cpp:188-193 | Output length is `floor(n / 3)`. Each output byte, read as signed, is the 24-bit little-endian sample divided by 2^16 (rounded down). The read of byte `3i + 2` is in bounds. |
| Pcm.TopByteOfSample | Audio.cpp:192 | `(src[3i+2] + 0x80) mod 256`, read as a signed byte, is the top 8 bits of sample `i`. |
| Pcm.RequantizeTruncates | Audio.cpp:192 | Requantization truncates: each sample lies within 2^16 above its 8-bit value scaled back. |
| Pcm.RequantizeMonotone | Audio.cpp:192 | A larger 24-bit sample never gets a smaller 8-bit byte. |
| Audio.StartPlaying | Audio.cpp:197-227 | A no-op while a sound or channel exists. Otherwise both handles exist exactly when creating and starting succeed. The sound is the table entry of the slot's rendition, and the channel starts paused. A failure leaves the session as it was. Only the two handles ever change. |
| Audio.Launch | Audio.cpp:220-226 | A sound is held only if `playSound` also succeeded, and its channel starts paused. |
| Audio.HqFinerThanLq | Audio.cpp:203-218 | In the rate test, HQ has a higher rate at the same depth. In the depth test, HQ has a higher depth at the same rate. |
| Audio.IsPlaying | Audio.cpp:233-241 | Playing implies that a channel exists. |
| Audio.TogglePlaying | Audio.cpp:243-245 | With a channel, the playing state flips. Only the channel changes. |
| Audio.StopPlaying | Audio.cpp:247-252 | Afterwards nothing is held and nothing plays. Buffers, flags and coin are kept. |
| Audio.TimeInfoFollowsTransport | Audio.cpp:229-271 | An idle session and a freshly started (paused) one leave the time outputs alone. After the first toggle they report FMOD's position and length, and after stopping they are left alone again. A seek reaches FMOD from a successful start until the stop, and never after a failed start. |
| Audio.TransportKeepsChannelHasSound | Audio.cpp:229-265 | Start (as written and with corrected rates), toggle and stop keep "a channel implies a sound", so `getTimeInfo` never queries a missing sound. |
| Audio.PlayPauseStop | Audio.cpp:197-252 | From idle: start then toggle plays the slot's rendition, a second toggle pauses, and stop returns to idle. |
| Audio.IsCorrectAnswer | Audio.cpp:273-275 | The answer is correct iff the chosen slot plays HQ, equivalently iff the other slot plays LQ. |
| Audio.SlotsDiffer | Audio.cpp:273-275 | The two slots play different renditions and get opposite verdicts. |
| Audio.RateTestPipeline | Audio.cpp:104-180 | For a 96/192 kHz 24-bit file: the step is 2 or 4. HQ is the decoded file at its own rate. LQ is its decimation at 48 kHz. |
| Audio.DepthTestPipeline | Audio.cpp:119-195 | For a 24-bit file of any other rate: HQ is the decoded file at 24 bits and LQ its requantization at 8 bits. |
| Audio.HighRateDepthTest | Audio.cpp:164-195 | For a 96/192 kHz file, the depth conversion alone yields an empty LQ buffer. After the rate conversion, LQ is the requantized decimation. |
| Audio.DepthTestPlaysAtWrongRate | Audio.cpp:216 | A 44.1 kHz stereo 24-bit file in the depth test is created at 48000 Hz. |
| Audio.SoundAtDataRate | Audio.cpp:203-218 | Same buffers and depths as the table, each at the rate of its samples. It equals the table whenever the rate test is allowed. |
| Audio.StartPlayingAtDataRate | Audio.cpp:197-227 | `startPlaying` with each buffer created at the rate of its samples. In the bit-depth test the sound plays at 48 kHz for a decimated source and at the source's own rate otherwise. A failure leaves the session as it was, and only the two handles ever change. |
| Audio.DepthTestKeepsSourceRate | Audio.cpp:203-218 | With the corrected rates, the played sound runs at 48 kHz for a rate-test file and at the source rate otherwise. It coincides with `startPlaying` whenever the rate test is allowed. |
| Decimal.NumberText | Model.cpp:16-18 | `QString::number` yields at least one digit and no leading zero. |
| Decimal.CanonicalDigitsAreNumberText | Model.cpp:16-18 | A non-empty digit string without a leading zero is the `QString::number` text of its value. So digits, value and "no leading zero" pin the text. |
| Decimal.NumberRoundTrip | Model.cpp:16-18 | The digits of `QString::number(n)` denote `n`. |
| Decimal.NumberLength | MainWindow.cpp:31 | A number below 10^k has at most k digits. |
| Decimal.ToInt | Model.cpp:43 | `toInt` yields the parsed value of an optionally signed decimal between whitespace when it fits in `int`. It yields 0 when the value does not fit, and 0 for text that is not such a number. |
| Decimal.ToIntOfNumber | Model.cpp:42-47 | `toInt(number(n)) == n` for every `n` that fits in `int`. |
| Decimal.ToIntOfLargeNumber | Model.cpp:42-44 | `toInt(number(n)) == 0` when `n` does not fit in `int`. |
| Model.Split | Model.cpp:31 | `split('/', SkipEmptyParts)` yields only non-empty parts without '/'. |
| Model.SplitEmptyIffAllSlashes | Model.cpp:33-38 | The split is empty exactly when the path consists only of slashes. That is the case that traps. |
| Model.SplitLastIsLastSegment | Model.cpp:31-34 | The last part of the split equals the segment read back from the end of the path: skip trailing slashes, then take characters up to the previous '/'. |
| Model.SongSetData | Model.cpp:24-51 | Column 0 needs a non-slash character. It sets the path and sets the file name to the last segment, which is non-empty and free of '/'. Columns 1 and 2 store `toInt` reduced to 32 and 8 bits. Other columns change nothing. Only the addressed field changes. |
| Model.SongGetData | Model.cpp:11-22 | Column 0 is the file name. Columns 1 and 2 are digit strings without a leading zero that denote rate and depth, which is exactly the `QString::number` text. Any other column is empty. |
| Model.NewSong | Model.cpp:5-9 | The constructor stores the path, its last segment, the rate and the depth. |
| Model.SongRoundTrip | Model.cpp:11-51 | Writing back the text of column 1 (rate fits in `int`), column 2, or a nonexistent column leaves the song unchanged. |
| Model.SongRateRoundTripOverflow | Model.cpp:42-44 | A rate above `INT_MAX` comes back as 0. |
| Model.SongNameRoundTrip | Model.cpp:24-41 | Writing back column 0 keeps the file name and replaces the path by it. |
| Model.ResultGetData | Model.cpp:65-76 | Column 1 is "Sampling Rate" or "Bit Depth". Column 2 is "Pass" or "Fail". Other columns are empty. Writing any column's text back with `setData` restores the record. |
| Model.ResultCopyColumn | Model.cpp:65-103 | Writing the text one result shows in a column into another result copies exactly that field. |
| Model.ResultSetData | Model.cpp:78-103 | Column 0 sets the name. In column 1, "Sampling Rate" and "Bit Depth" select their test type. In column 2, "Pass" and "Fail" set the verdict to true and false. Each column sets only its own field, and unrecognised text changes nothing. Other columns change nothing. |
| Model.ResultTextDeterminesRecord | Model.cpp:65-76 | Two results with the same text in all three columns are equal. |
| Model.NewResult | Model.cpp:59-63 | The constructed result shows its name, its test type's string and its verdict's string. |
| Model.SongRowCount | Model.cpp:108-110 | The row count is the list length whenever that fits in `int`. |
| Model.SongColumnCount | Model.cpp:112-114 | The column count is exactly the set of columns a song shows: every column with text lies below it, and every column below it shows text for a song with a file name. |
| Model.AppendSong | Model.cpp:146-150 | One more row: the new song is last and earlier rows are untouched. |
| Model.RemoveSong | Model.cpp:152-160 | An index not in `[0, size)` changes nothing, a negative one included. Otherwise exactly row `idx` goes and the others keep their order (as a multiset: the list minus that song). |
| Model.GetItem | Model.cpp:162-168 | Row `idx` when in range, the default song otherwise. |
| Model.NegativeIndexIsNoOp | Model.cpp:152-168 | A negative index is always past the end: removing is a no-op and getting returns the default song. |
| Model.AppendThenRemove | Model.cpp:146-168 | Removing the row just appended restores the list. Getting it returns the appended song. |
| Model.RemoveShiftsRows | Model.cpp:152-168 | After removing row `idx`, row `j` is the former row `j` below `idx` and the former row `j + 1` from `idx` on. |
| Model.ResultRowCount | Model.cpp:173-175 | The row count is the list length whenever that fits in `int`. |
| Model.ResultColumnCount | Model.cpp:177-179 | The column count is exactly the set of columns a result shows: every column with text lies below it, and every column below it shows text for a result with a file name. |
| Model.AppendResult | Model.cpp:211-215 | One more row: the new result is last and earlier rows are untouched. |
| Model.ResetList | Model.cpp:217-221 | The result list has no rows afterwards, and its row count is 0. |
| Model.ResetThenAppend | Model.cpp:211-221 | After a reset, appending results yields exactly those results, whatever the list held before. |
| MainWindow.Clock | MainWindow.cpp:36-38 | Minutes and seconds are below 60. `hour * 3600 + min * 60 + sec` is the whole seconds of `ms`. Hours are at most 1193. |
| MainWindow.Pad2 | MainWindow.cpp:41 | `%02d` gives exactly two digits denoting the value. |
| MainWindow.ParseClockLayout | MainWindow.cpp:41-43 | `H:MM:SS` text reads back field by field. |
| MainWindow.FormatTime | MainWindow.cpp:30-47 | The text fits `temp[16]` with its terminator. It reads back as the whole seconds of `ms`, its hours have no leading zero, and it contains no space or '/'. |
| MainWindow.FormatTimeCanonical | MainWindow.cpp:36-47 | Any `H:MM:SS` text without a leading zero in its hours that reads back as the whole seconds of `ms` is the time text of `ms`: the contract pins the text. |
| MainWindow.TimeLabel | MainWindow.cpp:53-59 | The label splits at its first space into the two times. They read back as the whole seconds of position and length, in that order, and neither time has a leading zero in its hours. |
| MainWindow.TimerTick | MainWindow.cpp:26-62 | Without a session, or while it is not playing, the label keeps its text. While playing, the label is exactly the time label of FMOD's position and length, and it reads back as their whole seconds. |
| MainWindow.PausedTickKeepsLabel | MainWindow.cpp:27-28 | After pausing or stopping a playing session, a tick leaves the label alone. |
| MainWindow.ConfirmFollowsSelection | MainWindow.cpp:288-297 | Through any sequence of HQ and LQ combo selections, each of which runs `fctComboHandler`, the confirm button is enabled only when the test type and both audio choices are picked (index above 0). After at least one selection it is enabled exactly then, and the test type index is never touched. |
| MainWindow.ConfirmFromConstruction | MainWindow.cpp:327-341 | Starting from the constructor, which disables the button, the button is never enabled while a combo is on its placeholder or empty. |

## Left out

- FMOD and `AudioSystem` (Audio.cpp:3-73): foreign library calls. Their results are model inputs.
- Decoding: the PCM bytes `readData` delivers are an input. A short read (`byteread < bytelength`) is not distinguished from a full one.
- `rand` and `srand(time(NULL))`: replaced by an input bit.
- The SDL/ffmpeg declarations in `Audio.h` (`fill_audio`, `msToSample`, `sampleToMs`, `spec`): they have no implementation here.
- The test-type combo handler (MainWindow.cpp:298-325): it calls `setTestType`, `getHQFactors` and `getLQFactors`, which `Audio.cpp` does not define, and it does not run `fctComboHandler` itself. `MainWindow.ConfirmFollowsSelection` therefore covers HQ and LQ selections only.
- The `MainWindow.cpp` calls to session methods that `Audio.cpp` does not define, such as `setTestInfo` and `getTestTypes`: no implementation exists to model.
- The getters `enableSamplingrateTest`, `enableBitdepthTest`, `getSamplingrate`, `getBitdepth` and `isSamplingrateTest` (Audio.cpp:148-162, 277-279): they only return a field or a constant.
- `SongModel::data` / `ResultModel::data` and `headerData` (Model.cpp:116-144, 181-209): Qt role dispatch.
- The `beginInsertRows` / `beginRemoveRows` notifications: Qt plumbing. (`resetList` announces rows `0..size`, one more than it removes. In release builds that only affects the view. A debug build of Qt asserts on it.)
- `ResultModel::saveList` (Model.cpp:223-250): spreadsheet file I/O.
- The timer slider updates (`setRange`, `setValue`), and all other widgets, dialogs and signal wiring.
- Real-time playback, threads and device timing: they are not present as code here.
- Audio.NewSession: `SongSession`'s constructor leaves the rate, the channel count, the coin and the test-type flag uninitialised. The model takes their initial values as parameters.
- Model.DefaultSong: `Song()` leaves the rate and the depth uninitialised. The model fixes them at 0, so `GetItem` past the end returns a song with both fields 0.
- Audio.IsPlaying: the paused state is kept by the model as the state `setPaused` last set, rather than asked from FMOD through `getPaused`. The source reads a channel whose `getPaused` fails (for example once its sound has ended) as paused. The model has no such channel: a started channel plays until it is toggled or stopped.
- Audio.TogglePlaying: the same abstraction applies. A toggle always flips the paused state of an existing channel, including one whose sound has ended.
- Audio.TogglePlaying: without a channel, the call goes to a null FMOD handle. The model treats it as changing nothing, and does not model a crash.
- Audio.StopPlaying: `channel->stop()` on a null handle is treated the same way.
- Decimal.ToInt: only ASCII whitespace is trimmed. The other Unicode spaces that Qt accepts are not modelled.
- Model.RemoveSong: `size_t` is taken as 32 bits wide (`SIZE_T_MODULUS`), the width of the 32-bit x86 build that the inline-assembly trap of `Song::setData` requires. The precondition excludes a negative index for a list of more than 2^31 elements, whose row count `int` cannot hold anyway. A 64-bit build only moves the excluded lists beyond 2^63 elements.
- Model.GetItem: same precondition as `RemoveSong`.
- Audio.ReadSound: it requires decoded data shorter than 2^32 bytes, which is what a 32-bit FMOD length can describe.
- Audio.ConvertSamplingrate: it requires a rate of at least 48000 Hz and at least one channel when the conversion runs. Otherwise the source divides by zero.

## Findings

| source | as written | input that shows it | evidently intended | confidence | as-written member | corrected member |
|---|---|---|---|---|---|---|
| Audio.cpp:203-218 | In the bit-depth test both renditions are created at a fixed 48000 Hz. `data48_24` holds the undecimated source whenever the file does not qualify for the rate test. | A 24-bit 44.1 kHz stereo file: the bit-depth test plays its samples at 48000 Hz, so one second of audio lasts 0.92 s and the pitch rises. | Create each buffer at the rate of its samples: 48 kHz after decimation, the source rate otherwise. | not executed | Audio.DepthTestPlaysAtWrongRate | Audio.StartPlayingAtDataRate |

A related ordering constraint is stated by `Audio.HighRateDepthTest`. For a 96 kHz or 192 kHz file the bit-depth test works on `data48_24`, which only `convertSamplingrate` fills. So the rate conversion must run before the depth conversion, or the LQ rendition is empty.
