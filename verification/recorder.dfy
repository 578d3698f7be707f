/** The static `recorder` and `output` fields of nabu.misc.sound.Services and the
    operations that move them: `record`, `isRecording` and `stopRecording`. The
    capture and stop threads are not modelled; what the recorder thread leaves in
    `output` when it ends is the one step of it that is (`FinishCapture`), and the
    bounded `join` in `stopRecording` becomes the caller's choice of whether that
    step has happened yet, and of whether the join is interrupted. */
module Recorder {
  import opened Options
  import opened LittleEndian

  const SAMPLE_RATE: int := 16000
  const SAMPLE_SIZE_IN_BITS: int := 16
  const DEFAULT_CHANNELS: int := 1

  /** The `AudioFormat(sampleRate, sampleSizeInBits, channels, signed, bigEndian)`
      that `record` builds. */
  datatype CaptureFormat = CaptureFormat(sampleRate: int, sampleSizeInBits: int, channels: int, signed: bool, bigEndian: bool)

  /** 16 kHz, 16-bit, signed, big-endian, with the requested channels or one. */
  function RecordingFormat(channels: Option<int>): CaptureFormat
  {
    CaptureFormat(SAMPLE_RATE, SAMPLE_SIZE_IN_BITS,
                  if channels.None? then DEFAULT_CHANNELS else channels.value, true, true)
  }

  /** Why `record` throws before touching the slot. */
  datatype RecordError =
    | FormatNotSupported  // `AudioSystem.isLineSupported` refused the format
    | LineUnavailable     // getting or opening the line threw LineUnavailableException

  /** Why `stopRecording` throws. */
  datatype StopError =
    | NoOutputFound        // IllegalStateException("No output found"), line 131
    | Interrupted          // InterruptedException from the timed join, line 128
    | StopperStarted       // IllegalThreadStateException: this record's stopper already ran, line 126

  class RecorderSlot {
    /** `recorder != null`. */
    var hasRecorder: bool
    /** `output`: `None` for null, otherwise the bytes of the stream. */
    var output: Option<seq<byte>>
    /** The last recorder thread has not yet made its final write to `output`. */
    var captureRunning: bool
    /** `stopper.start()` has been called on the stopper thread of the last `record`. */
    var stopperStarted: bool
    /** The format the last `record` built, shared with its threads. */
    var format: Option<CaptureFormat>

    /** The static fields before any call: all null. */
    constructor ()
      ensures !IsRecording() && output == None && !captureRunning && !stopperStarted && format == None
    {
      hasRecorder := false;
      output := None;
      captureRunning := false;
      stopperStarted := false;
      format := None;
    }

    /** Java's `isRecording()`: whether the recorder slot is filled. */
    predicate IsRecording()
      reads this
    {
      hasRecorder
    }

    /** Java's `record(channels)`. `lineSupported` and `lineOpens` are what the
        platform answers; either refusal throws before any field is written.
        Otherwise `output` becomes a fresh empty stream and the recorder slot is
        filled with a new recorder thread and a new, unstarted stopper thread,
        replacing whatever it held. */
    method Record(channels: Option<int>, lineSupported: bool, lineOpens: bool) returns (r: Result<(), RecordError>)
      modifies this
      ensures !lineSupported ==> r == Err(FormatNotSupported) && unchanged(this)
      ensures lineSupported && !lineOpens ==> r == Err(LineUnavailable) && unchanged(this)
      ensures lineSupported && lineOpens ==>
                r == Ok(()) && IsRecording() && captureRunning && !stopperStarted &&
                output == Some([]) && format == Some(RecordingFormat(channels))
    {
      var fmt := RecordingFormat(channels);
      if !lineSupported {
        return Err(FormatNotSupported);
      }
      if !lineOpens {
        return Err(LineUnavailable);
      }
      output := Some([]);
      hasRecorder := true;
      captureRunning := true;
      stopperStarted := false;
      format := Some(fmt);
      r := Ok(());
    }

    /** The end of the recorder thread: `output` becomes null when
        `AudioSystem.write` throws an IOException (`encoded == None`), and
        otherwise `Some` of what the stream installed at line 98 holds, complete
        or, when another exception stopped the write, part-written. The slot
        itself is not touched, so this may come after `stopRecording`. */
    method FinishCapture(encoded: Option<seq<byte>>)
      requires captureRunning
      modifies this
      ensures output == encoded && !captureRunning
      ensures hasRecorder == old(hasRecorder) && stopperStarted == old(stopperStarted) && format == old(format)
    {
      output := encoded;
      captureRunning := false;
    }

    /** Java's `stopRecording()`. With an empty slot it returns null and changes
        nothing. Otherwise it starts the stopper thread, which throws when that
        thread was already started. `interrupted` says whether the timed join is
        interrupted: then the call throws with the slot still filled. If not, it
        clears the slot, then fails when `output` is null and otherwise returns
        what `output` holds, whether or not the recorder thread has finished. */
    method StopRecording(interrupted: bool) returns (r: Result<Option<seq<byte>>, StopError>)
      modifies this
      ensures !old(hasRecorder) ==> r == Ok(None) && unchanged(this)
      ensures old(hasRecorder) && old(stopperStarted) ==> r == Err(StopperStarted) && unchanged(this)
      ensures old(hasRecorder) && !old(stopperStarted) ==>
                stopperStarted && output == old(output) &&
                captureRunning == old(captureRunning) && format == old(format)
      ensures old(hasRecorder) && !old(stopperStarted) && interrupted ==>
                r == Err(Interrupted) && IsRecording()
      ensures old(hasRecorder) && !old(stopperStarted) && !interrupted ==>
                !IsRecording() &&
                (old(output) == None ==> r == Err(NoOutputFound)) &&
                (old(output).Some? ==> r == Ok(Some(old(output).value)))
    {
      if hasRecorder {
        if stopperStarted {
          return Err(StopperStarted);
        }
        stopperStarted := true;
        if interrupted {
          return Err(Interrupted);
        }
        hasRecorder := false;
        if output == None {
          return Err(NoOutputFound);
        }
        return Ok(Some(output.value));
      }
      r := Ok(None);
    }
  }

  /** A client: not recording before `record`, recording after it, not after
      `stopRecording`, and a second `stopRecording` returns null. */
  method StopTwice(wave: seq<byte>)
  {
    var slot := new RecorderSlot();
    assert !slot.IsRecording();
    var started := slot.Record(None, true, true);
    assert started == Ok(()) && slot.IsRecording();
    assert slot.format == Some(CaptureFormat(16000, 16, 1, true, true));
    slot.FinishCapture(Some(wave));
    var first := slot.StopRecording(false);
    assert first == Ok(Some(wave)) && !slot.IsRecording();
    var second := slot.StopRecording(false);
    assert second == Ok(None);
  }

  /** A client: the encoder fails, so `stopRecording` throws, yet the slot is
      cleared; stopping before the recorder thread ends returns the bytes of the
      fresh stream `record` installed; an interrupted join leaves the slot filled
      and every later stop throws until the next `record`. The early stop yields
      `[]` only because the read loop that fills the stream is not modelled: the
      program returns the raw, unencoded frames read so far, not a WAVE file. */
  method FailedAndEarlyStops()
  {
    var slot := new RecorderSlot();
    var started := slot.Record(Some(2), true, true);
    slot.FinishCapture(None);
    var failed := slot.StopRecording(false);
    assert failed == Err(NoOutputFound) && !slot.IsRecording();
    started := slot.Record(Some(2), true, true);
    var early := slot.StopRecording(false);
    assert early == Ok(Some([]));
    started := slot.Record(Some(2), true, true);
    var interrupted := slot.StopRecording(true);
    assert interrupted == Err(Interrupted) && slot.IsRecording();
    var again := slot.StopRecording(false);
    assert again == Err(StopperStarted) && slot.IsRecording();
    started := slot.Record(Some(2), false, true);
    assert started == Err(FormatNotSupported) && slot.IsRecording();
  }
}
