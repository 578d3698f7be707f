# Sound service core, modelled in Dafny

`nabu.misc.sound.Services` is a web service that records from the microphone,
plays audio and repairs WAV headers. Three sequential parts of it are modelled here:

- **WAV length patcher** (`updateWavLength`, `writeInt`). `wav_header.dfy` and
  `little_endian.dfy` cover them. The buffer is an `array<byte>` patched in place.
  The RIFF size at offset 4 becomes `length - 8`. The chunk id at [36, 40) is then
  decoded as ASCII and compared with "data" and "list", ignoring case.
  "data" rewrites offset 40 with `length - 44`. "list" rewrites offset 74 with
  `length - 16`. That offset belongs to the "LIST" layout of one streaming
  producer (the Watson text-to-speech output the source's doc comment names), so
  the model treats it as that producer's layout, not as general RIFF.
  `writeInt` is the 4-byte little-endian store of the RIFF size fields.
  The function `PatchedHeader` describes the new buffer. The method is proved
  to produce it, and the lemmas prove the field values, the frame and idempotence.
- **Capture format selection** (`getBestFormat`), in `format_selection.dfy`.
  The nested loops over line infos and their formats are a method. The method is
  proved equal to `Select`, a left fold of the loop body `Step` over the flattened
  list. The lemmas about `Select` state the selection rule: the first format is
  taken unconditionally, and later formats replace it only as the code allows.
  They also prove the order dependence.
- **Recorder slot** (`record`, `isRecording`, `stopRecording`), in `recorder.dfy`.
  The class `RecorderSlot` holds the static fields: the `recorder` slot, `output`,
  whether the `stopper` thread has been started, and the format the threads share. It also holds `captureRunning`, which is not a Java static field: it stands for the recorder thread not yet having made its final write to `output`, which `FinishCapture` requires and clears.
  `IsRecording()` is Java's `recorder != null`, read from the slot field (a
  one-line getter without a contract of its own). The constructor, `Record` and
  `StopRecording` contracts state its value after each call. The threads are not modelled. The recorder
  thread's final write to `output` is the method `FinishCapture`. The bounded
  `join` becomes two choices of the caller: whether `FinishCapture` has run before
  `StopRecording`, and whether the join is interrupted.

Java `byte`s are the `newtype byte` (0..255, the unsigned reading of the bits).
Java `int`s are the subset type `Int32`. `>>>` and the narrowing `(byte)` cast are
written out as `ShiftRightBytes` and `NarrowToByte`.

Two behaviours of the code are worth stating outright:

- The comment at Services.java:40 says ULAW is preferred, but line 45 lets a later format with fewer channels replace a ULAW best (`FewerChannelsDisplaceUlaw`).
- If the timed join at Services.java:128 returns before the recorder thread ends, `stopRecording` returns whatever `output` holds at that moment (`FailedAndEarlyStops`).

## Model

| member | source | states |
|---|---|---|
| LittleEndian.ToUnsigned | src/main/java/nabu/misc/sound/Services.java:180 | `>>>` reads the int's bit pattern unsigned: the result is in [0, 2^32) and congruent to the value modulo 2^32 |
| LittleEndian.ToSigned | src/main/java/nabu/misc/sound/Services.java:180 | the Java int with a given 32-bit pattern, congruent to it modulo 2^32 |
| LittleEndian.Overwrite | src/main/java/nabu/misc/sound/Services.java:178-182 | writing a field keeps the length, puts the field's bytes at its offset and keeps every other position |
| LittleEndian.WriteInt | src/main/java/nabu/misc/sound/Services.java:178-182 | the array afterwards is the old array with the value's four bytes, least significant first, at [offset, offset+4); nothing else changes |
| LittleEndian.DecodeEncode | src/main/java/nabu/misc/sound/Services.java:178-182 | decoding the four stored bytes little-endian gives back the value modulo 2^32 |
| LittleEndian.SignedRoundTrip | src/main/java/nabu/misc/sound/Services.java:178-182 | reading the stored bytes back as a signed int gives exactly the value |
| LittleEndian.EncodeDecode | src/main/java/nabu/misc/sound/Services.java:178-182 | every four bytes are what the store writes for the int they spell, so the store is onto |
| WavHeader.MatchesIgnoringCase | src/main/java/nabu/misc/sound/Services.java:169-173 | the ASCII decode plus `equalsIgnoreCase` accepts a chunk id exactly when each byte is the word's letter in lower or upper case (both directions) |
| WavHeader.ChunkKindOf | src/main/java/nabu/misc/sound/Services.java:169-175 | the id at [36, 40) is a "data" chunk exactly when its bytes spell "data" in any mix of case, and a "list" chunk exactly when they do not spell "data" but spell "list" |
| WavHeader.PatchedHeader | src/main/java/nabu/misc/sound/Services.java:165-176 | the patch never changes the buffer's length |
| WavHeader.UpdateWavLength | src/main/java/nabu/misc/sound/Services.java:165-176 | the array afterwards is `PatchedHeader` of the array before |
| WavHeader.ChunkIdKept | src/main/java/nabu/misc/sound/Services.java:169-175 | bytes [36, 40) are never written, so the chunk kind before and after the patch is the same |
| WavHeader.RiffSizePatched | src/main/java/nabu/misc/sound/Services.java:166-167 | after the patch bytes [4, 8) decode little-endian to length - 8 |
| WavHeader.DataSizePatched | src/main/java/nabu/misc/sound/Services.java:170-171 | with "data" (any case) at 36, bytes [40, 44) decode to length - 44 and every byte outside [4, 8) and [40, 44) is unchanged |
| WavHeader.ListSizePatched | src/main/java/nabu/misc/sound/Services.java:173-174 | with "list" (any case) at 36, bytes [74, 78) decode to length - 16 and every byte outside [4, 8) and [74, 78) is unchanged |
| WavHeader.OtherChunkOnlyRiffSize | src/main/java/nabu/misc/sound/Services.java:169-175 | with any other id only bytes [4, 8) may change |
| WavHeader.PatchIdempotent | src/main/java/nabu/misc/sound/Services.java:165-176 | a patched buffer still meets the precondition, and patching it again gives the same bytes |
| WavHeader.ShortDataBuffer | src/main/java/nabu/misc/sound/Services.java:165-176 | a 48-byte buffer with "data" at 36 is patchable; afterwards its RIFF size reads 40 and its data size reads 4 |
| FormatSelection.Step | src/main/java/nabu/misc/sound/Services.java:36-47 | one format of the loop: the best afterwards is always set, is either the old best or the format, and a format below minChannels never replaces a set best |
| FormatSelection.Select | src/main/java/nabu/misc/sound/Services.java:33-51 | the fold yields nothing exactly when there are no formats, and otherwise one of the given formats, never a synthesized one |
| FormatSelection.FlattenMembers | src/main/java/nabu/misc/sound/Services.java:34-35 | the flattened list holds exactly the formats some line info lists |
| FormatSelection.FlattenEmpty | src/main/java/nabu/misc/sound/Services.java:34-35 | the flattened list is empty exactly when every line info lists no format |
| FormatSelection.GetBestFormat | src/main/java/nabu/misc/sound/Services.java:31-52 | the nested loops return the fold over the flattened formats: null exactly when no line info lists a format, otherwise a format some line info lists |
| FormatSelection.SelectFromLineInfos | src/main/java/nabu/misc/sound/Services.java:33-51 | over line infos, the result is null exactly when none lists a format, otherwise a listed format |
| FormatSelection.FirstOrEligible | src/main/java/nabu/misc/sound/Services.java:36-39 | the result is the first format or one with at least minChannels channels |
| FormatSelection.IneligibleNeverReplaces | src/main/java/nabu/misc/sound/Services.java:39 | formats with fewer than minChannels channels never change a best that is already set |
| FormatSelection.FirstAdoptedUnconditionally | src/main/java/nabu/misc/sound/Services.java:36-38 | the first format is taken even with fewer than minChannels channels, and stays when no later format has enough |
| FormatSelection.ReplacementRule | src/main/java/nabu/misc/sound/Services.java:39-47 | at each later step the best changes exactly when the format has enough channels and is a switch from non-ULAW to ULAW or has strictly fewer channels; on equal channels without such a switch the earlier best stays |
| FormatSelection.NoUlawFewestChannels | src/main/java/nabu/misc/sound/Services.java:44-47 | without ULAW formats the result has no more channels than the first format or any format with at least minChannels channels |
| FormatSelection.NoUlawEarliest | src/main/java/nabu/misc/sound/Services.java:44-47 | without ULAW formats the result is a candidate and every earlier candidate has strictly more channels, so ties go to the earlier entry |
| FormatSelection.UlawKept | src/main/java/nabu/misc/sound/Services.java:40-47 | a ULAW best stays ULAW while every later eligible format is ULAW |
| FormatSelection.UlawWins | src/main/java/nabu/misc/sound/Services.java:40-43 | an eligible ULAW format after the first makes the result ULAW, unless an eligible non-ULAW format comes later |
| FormatSelection.UlawAfterStereoPcm | src/main/java/nabu/misc/sound/Services.java:40-43 | stereo PCM followed by mono ULAW, minChannels 1: the ULAW format is selected |
| FormatSelection.OrderDecidesTies | src/main/java/nabu/misc/sound/Services.java:44-47 | two mono formats swapped in order give different results: the earlier one is kept |
| FormatSelection.FewerChannelsDisplaceUlaw | src/main/java/nabu/misc/sound/Services.java:44-46 | a later mono PCM format replaces a stereo ULAW best |
| Recorder.RecorderSlot.constructor | src/main/java/nabu/misc/sound/Services.java:28-29 | the static fields start null: nothing is recording, there is no output and no stopper thread has been started |
| Recorder.RecorderSlot.Record | src/main/java/nabu/misc/sound/Services.java:54-118 | an unsupported format or a line that cannot be opened throws with the fields unchanged; otherwise output is a fresh empty stream, the slot is filled (IsRecording) with a new, unstarted stopper, and the format is 16 kHz, 16-bit, signed, big-endian with the requested channels or 1 |
| Recorder.RecorderSlot.FinishCapture | src/main/java/nabu/misc/sound/Services.java:93-106 | the recorder thread's end sets output to null when `AudioSystem.write` throws an IOException, otherwise to `Some` of what the stream holds; the slot and the stopper are not touched |
| Recorder.RecorderSlot.StopRecording | src/main/java/nabu/misc/sound/Services.java:124-136 | an empty slot returns null and changes nothing; a stopper already started throws with nothing changed; otherwise the stopper is started, an interrupted join throws with the slot still filled, and an uninterrupted one clears the slot (not IsRecording), then fails when output is null and returns output's bytes otherwise |

## Left out

- Thread creation and coordination are not modelled: the recorder and stopper threads, the `line.read` loop that fills `output`, `join(10000)` and its race. The point of that code is concurrency. The join's outcome is the caller's choice: whether `FinishCapture` ran before `StopRecording`, and whether the join is interrupted (`StopRecording`'s `interrupted` parameter).
- Recorder.RecorderSlot.FinishCapture: the recorder thread's final step (lines 93-106) is one atomic step. The moment between line 98 and line 100, when `output` is a new stream that is still being filled, is not modelled.
- Recorder.RecorderSlot.Record: a `record` while a recording is active overwrites the slot, as the source does. The earlier recorder thread would still write `output` when it ends, but it is not tracked apart from the new one.
- Every call into `javax.sound` is not modelled: `AudioSystem`, `TargetDataLine`, `Clip`, `AudioInputStream`, `AudioSystem.write`. These are foreign library calls. This covers `play`, opening and starting the line inside `record`, and WAVE encoding. Their answers are parameters (`lineSupported`, `lineOpens`, `encoded`, the line infos' formats).
- FormatSelection.GetBestFormat: it does not model `AudioSystem.getTargetLineInfo`, or the ClassCastException a line info that is not a `DataLine.Info` would raise. The line infos are passed in as their format lists.
- A format is its channel count and encoding. Sample rate, sample size, signedness and endianness play no part in the selection. Each of the five `Encoding` constants is its own constructor and any other encoding object is `Other`; the selection tests only identity with `Ulaw`.
- Logging (`System.out.println`, `printStackTrace`), the unused `targetFormat`, the `frameSize` local (used only to build the unused `targetFormat`) and the `getTargetEncodings` print loop are not modelled. They have no effect on state or results.
- The `@WebService`/`@WebParam` transport layer is not modelled.
- WavHeader.UpdateWavLength: requires length ≥ 44, and ≥ 78 when the id is "list". Shorter buffers are outside the model. For most of them the source throws `ArrayIndexOutOfBoundsException`, possibly after a partial write. But a buffer of 40 to 43 bytes whose id is neither "data" nor "list" is patched without error: only [4, 8) is written. The model does not promise that case. It also does not model `copyOfRange`'s zero padding for lengths between 36 and 40.
- Case-insensitive comparison uses ASCII case mapping only. The chunk id decodes to ASCII characters or U+FFFD, and Java's Unicode case maps act on those the same way, so the result is unaffected.
