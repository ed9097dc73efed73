/** The audio recorder component (src/components/audio-recorder.tsx): a small
    machine over the flags `isRecording`, "a recording URL exists" and the
    `recordingTime` counter, the one-second tick that advances the counter, and
    the `MM:SS` clock the component prints.

    Media capture itself (`getUserMedia`, `MediaRecorder`, `Blob`, `FileReader`,
    `URL.createObjectURL`) is outside the model: the outcome of asking for the
    microphone, each captured chunk and the finished recording's URL arrive as
    parameters. The interval timer is modelled as a stream of discrete tick
    events. */
module AudioRecorder {
  import opened Common
  import opened Text

  /** `MAX_RECORDING_TIME`, in seconds. */
  const MaxRecordingTime: nat := 300

  /** One piece of captured audio, treated as an opaque payload. */
  type Blob = seq<int>

  datatype Recorder = Recorder(
    hasMediaRecorder: bool,    // `mediaRecorderRef.current` is set
    isRecording: bool,
    audioURL: Option<string>,
    chunks: seq<Blob>,         // `audioChunksRef.current`
    recordingTime: nat,
    timerRunning: bool         // an interval is scheduled and not yet cleared
  )

  /** The component as first mounted. */
  function Initial(): (r: Recorder)
    ensures Valid(r)
    ensures OfferedControl(r) == StartControl
    ensures r.recordingTime == 0 && r.chunks == [] && !r.timerRunning
  {
    Recorder(false, false, None, [], 0, false)
  }

  // ---------------------------------------------------------------------------
  // Transitions
  // ---------------------------------------------------------------------------

  /** `startRecording`. When the microphone is granted a fresh recorder is
      created, the chunk list emptied, the recording flag raised, the counter
      reset and the one-second interval scheduled; when access fails only an
      alert is shown and nothing changes. The click and the microphone's answer
      are one step here. */
  function Start(r: Recorder, micGranted: bool): (r': Recorder)
    ensures !micGranted ==> r' == r
    ensures micGranted ==> r'.hasMediaRecorder && r'.isRecording && r'.timerRunning
    ensures micGranted ==> r'.chunks == [] && r'.recordingTime == 0
    ensures r'.audioURL == r.audioURL
  {
    if micGranted then
      r.(hasMediaRecorder := true, chunks := [], isRecording := true, recordingTime := 0, timerRunning := true)
    else
      r
  }

  /** `stopRecording`. The recorder reference is read live, but `isRecording`
      is the value seen by the render that created this copy of the handler,
      passed here as `seenRecording`. Only when both hold is the recorder
      stopped, the flag lowered and the interval cleared. */
  function Stop(r: Recorder, seenRecording: bool): (r': Recorder)
    ensures r.hasMediaRecorder && seenRecording ==> !r'.isRecording && !r'.timerRunning
    ensures !(r.hasMediaRecorder && seenRecording) ==> r' == r
    ensures r' == r.(isRecording := r'.isRecording, timerRunning := r'.timerRunning)
  {
    if r.hasMediaRecorder && seenRecording then
      r.(isRecording := false, timerRunning := false)
    else
      r
  }

  /** `resetRecording`: forget the recording URL, zero the counter and clear
      the interval. The recording flag is left as it is. */
  function Reset(r: Recorder): (r': Recorder)
    ensures r'.audioURL.None? && r'.recordingTime == 0 && !r'.timerRunning
    ensures r'.isRecording == r.isRecording && r'.hasMediaRecorder == r.hasMediaRecorder
    ensures r'.chunks == r.chunks
  {
    r.(audioURL := None, recordingTime := 0, timerRunning := false)
  }

  /** `ondataavailable`: one more chunk is appended. */
  function DataAvailable(r: Recorder, chunk: Blob): (r': Recorder)
    ensures r'.chunks == r.chunks + [chunk]
    ensures r' == r.(chunks := r'.chunks)
  {
    r.(chunks := r.chunks + [chunk])
  }

  /** `onstop`: the collected chunks become a recording whose URL (supplied by
      the browser, here a parameter) is remembered. The data URI handed to the
      page's callback is modelled on the page side. */
  function Finalized(r: Recorder, url: string): (r': Recorder)
    ensures r'.audioURL == Some(url)
    ensures r' == r.(audioURL := r'.audioURL)
  {
    r.(audioURL := Some(url))
  }

  /** The counter update inside the interval callback: one more second, but
      never past the maximum. */
  function NextTime(t: nat): (t': nat)
    ensures t' <= MaxRecordingTime
    ensures t < MaxRecordingTime ==> t' == t + 1
    ensures MaxRecordingTime <= t ==> t' == MaxRecordingTime
  {
    if t >= MaxRecordingTime then MaxRecordingTime else t + 1
  }

  /** The value of `isRecording` seen by the `stopRecording` that the interval
      callback calls. That copy was created by the render in which the record
      button was offered, and the button is offered only while not recording. */
  const StopSeenByTimer := false

  /** One firing of the interval: the counter advances (clamped), and at the
      maximum the callback calls the `stopRecording` captured at start time,
      which sees no recording in progress and does nothing. */
  function Tick(r: Recorder): (r': Recorder)
    ensures r'.recordingTime <= MaxRecordingTime
    ensures r.recordingTime < MaxRecordingTime ==> r'.recordingTime == r.recordingTime + 1
    ensures r'.recordingTime == NextTime(r.recordingTime)
    ensures r.recordingTime >= MaxRecordingTime ==> r'.recordingTime == MaxRecordingTime
    ensures r' == r.(recordingTime := r'.recordingTime)
  {
    var advanced := r.(recordingTime := NextTime(r.recordingTime));
    if r.recordingTime >= MaxRecordingTime then Stop(advanced, StopSeenByTimer) else advanced
  }

  /** `n` consecutive firings of the interval. */
  function Ticks(r: Recorder, n: nat): Recorder {
    if n == 0 then r else Tick(Ticks(r, n - 1))
  }

  /** From any counter value within the bound, `n` ticks give `min(t + n, 300)`,
      and touch nothing but the counter: in particular the recording is not
      stopped when the counter reaches the maximum. */
  lemma {:induction false} TicksSaturate(r: Recorder, n: nat)
    requires r.recordingTime <= MaxRecordingTime
    ensures Ticks(r, n).recordingTime == Min(r.recordingTime + n, MaxRecordingTime)
    ensures Ticks(r, n) == r.(recordingTime := Ticks(r, n).recordingTime)
  {
    if n > 0 {
      TicksSaturate(r, n - 1);
    }
  }

  // ---------------------------------------------------------------------------
  // Controls
  // ---------------------------------------------------------------------------

  datatype Control = ResetControl | StopControl | StartControl

  /** The control the component renders: only the reset button once a
      recording URL exists, otherwise the main button, whose click goes to
      `stopRecording` while recording and to `startRecording` otherwise. */
  function OfferedControl(r: Recorder): (c: Control)
    ensures c == ResetControl <==> r.audioURL.Some?
    ensures c == StopControl <==> r.audioURL.None? && r.isRecording
    ensures c == StartControl <==> r.audioURL.None? && !r.isRecording
  {
    if r.audioURL.Some? then ResetControl
    else if r.isRecording then StopControl
    else StartControl
  }

  /** What can happen to the component. Clicks are on the control that is
      offered; a `disabled` component receives no clicks. */
  datatype Event =
    | ControlClicked(micGranted: bool)
    | TimerFired
    | ChunkCaptured(chunk: Blob)
    | RecorderStopped(url: string)

  /** One event: only a click starts or stops a recording, only a finished
      recording sets a URL, a cleared interval no longer ticks, a click on the
      reset control clears the URL and the timer, and the counter stays within
      its bound. */
  function Step(r: Recorder, e: Event): (r': Recorder)
    ensures !e.ControlClicked? ==> r'.isRecording == r.isRecording
    ensures !e.RecorderStopped? ==> r'.audioURL.Some? ==> r'.audioURL == r.audioURL
    ensures e.TimerFired? && !r.timerRunning ==> r' == r
    ensures e.ControlClicked? && r.audioURL.Some? ==> r'.audioURL.None? && !r'.timerRunning
    ensures r.recordingTime <= MaxRecordingTime ==> r'.recordingTime <= MaxRecordingTime
  {
    match e
    case ControlClicked(granted) =>
      (match OfferedControl(r)
       case ResetControl => Reset(r)
       case StopControl => Stop(r, r.isRecording)
       case StartControl => Start(r, granted))
    case TimerFired => if r.timerRunning then Tick(r) else r
    case ChunkCaptured(c) => if r.hasMediaRecorder then DataAvailable(r, c) else r
    case RecorderStopped(url) => if r.hasMediaRecorder then Finalized(r, url) else r
  }

  function Run(r: Recorder, es: seq<Event>): Recorder
    decreases |es|
  {
    if es == [] then r else Run(Step(r, es[0]), es[1..])
  }

  /** What holds of every state the component can reach. */
  ghost predicate Valid(r: Recorder) {
    && r.recordingTime <= MaxRecordingTime
    && (r.isRecording ==> r.hasMediaRecorder)
  }

  lemma StepKeepsValid(r: Recorder, e: Event)
    requires Valid(r)
    ensures Valid(Step(r, e))
  {
  }

  /** Whatever happens, the counter stays within [0, 300] and a recording in
      progress always has a recorder behind it. */
  lemma {:induction false} RunKeepsValid(r: Recorder, es: seq<Event>)
    requires Valid(r)
    ensures Valid(Run(r, es))
    decreases |es|
  {
    if es != [] {
      StepKeepsValid(r, es[0]);
      RunKeepsValid(Step(r, es[0]), es[1..]);
    }
  }

  lemma InitialValid()
    ensures Valid(Initial())
  {
  }

  /** A click while recording stops the recording, and a second click on the
      same (now start) control begins a fresh one. */
  lemma StopThenStart(r: Recorder)
    requires r.audioURL.None? && r.isRecording && r.hasMediaRecorder
    ensures !Step(r, ControlClicked(true)).isRecording
    ensures Step(Step(r, ControlClicked(true)), ControlClicked(true)).isRecording
    ensures Step(Step(r, ControlClicked(true)), ControlClicked(true)).recordingTime == 0
  {
  }

  /** While a recorder exists, the chunks it hands over are collected in
      order after whatever was collected before. */
  lemma {:induction false} ChunksCollectedInOrder(r: Recorder, captured: seq<Blob>)
    requires r.hasMediaRecorder
    ensures Run(r, seq(|captured|, i requires 0 <= i < |captured| => ChunkCaptured(captured[i]))).chunks
            == r.chunks + captured
    decreases |captured|
  {
    var es := seq(|captured|, i requires 0 <= i < |captured| => ChunkCaptured(captured[i]));
    if captured != [] {
      var next := Step(r, es[0]);
      assert next.chunks == r.chunks + [captured[0]];
      assert es[1..] == seq(|captured[1..]|, i requires 0 <= i < |captured[1..]| => ChunkCaptured(captured[1..][i]));
      ChunksCollectedInOrder(next, captured[1..]);
      assert r.chunks + [captured[0]] + captured[1..] == r.chunks + captured;
    }
  }

  /** Once the recording is finished only reset is offered, and resetting
      brings the main button back. */
  lemma FinishedRecordingOffersReset(r: Recorder, url: string)
    ensures OfferedControl(Finalized(r, url)) == ResetControl
    ensures !r.isRecording ==> OfferedControl(Step(Finalized(r, url), ControlClicked(true))) == StartControl
  {
  }

  // ---------------------------------------------------------------------------
  // Clock
  // ---------------------------------------------------------------------------

  /** A number as at least two decimal digits: `n.toString().padStart(2, '0')`. */
  function TwoDigits(n: nat): (s: string)
    ensures AllDigits(s)
    ensures DecToNat(s) == n
    ensures |s| >= 2
    ensures n < 100 ==> |s| == 2
  {
    DecRoundTrip(n);
    PadZeroKeepsValue(NatToDec(n), 2);
    PadZero(NatToDec(n), 2)
  }

  /** Everything before the colon of a clock `M..M:SS`. */
  function MinutesField(clock: string): string
    requires |clock| >= 3
  {
    clock[..|clock| - 3]
  }

  /** The last two characters of a clock `M..M:SS`. */
  function SecondsField(clock: string): string
    requires |clock| >= 2
  {
    clock[|clock| - 2..]
  }

  /** The layout of `m + ":" + s` for a two-character `s`. */
  lemma ClockLayout(m: string, s: string)
    requires |s| == 2
    ensures var clock := m + ":" + s;
      && clock[|clock| - 3] == ':'
      && MinutesField(clock) == m
      && SecondsField(clock) == s
  {
    var clock := m + ":" + s;
    assert clock[..|clock| - 3] == m;
    assert clock[|clock| - 2..] == s;
  }

  lemma MinutesAndSeconds(seconds: nat)
    ensures seconds % 60 < 60
    ensures (seconds / 60) * 60 + seconds % 60 == seconds
    ensures seconds < 6000 ==> seconds / 60 < 100
  {
  }

  /** A minutes field and a seconds field joined by a colon, each rendered
      with `padStart(2, '0')`. */
  function Clock(minutes: nat, secs: nat): (clock: string)
    requires secs < 60
    ensures |clock| >= 5
    ensures clock[|clock| - 3] == ':'
    ensures AllDigits(MinutesField(clock)) && DecToNat(MinutesField(clock)) == minutes
    ensures AllDigits(SecondsField(clock)) && DecToNat(SecondsField(clock)) == secs
    ensures minutes < 100 ==> |clock| == 5
  {
    var m := TwoDigits(minutes);
    var s := TwoDigits(secs);
    ClockLayout(m, s);
    m + ":" + s
  }

  /** `formatTime`: whole minutes, a colon, then the remaining seconds, each
      at least two digits. The seconds field is always the last two characters
      and is below 60, and minutes * 60 + seconds gives back the input. */
  function FormatTime(seconds: nat): (clock: string)
    ensures |clock| >= 5
    ensures clock[|clock| - 3] == ':'
    ensures AllDigits(MinutesField(clock)) && AllDigits(SecondsField(clock))
    ensures DecToNat(SecondsField(clock)) < 60
    ensures DecToNat(MinutesField(clock)) * 60 + DecToNat(SecondsField(clock)) == seconds
    ensures seconds < 6000 ==> |clock| == 5
  {
    MinutesAndSeconds(seconds);
    Clock(seconds / 60, seconds % 60)
  }

  /** Reads a clock `M..M:SS` back as a number of seconds; `None` for anything
      else, including a seconds field of 60 or more. */
  function ParseClock(t: string): (v: Option<nat>)
    ensures v.Some? ==> |t| >= 4 && t[|t| - 3] == ':'
  {
    if |t| >= 4 && t[|t| - 3] == ':' && AllDigits(MinutesField(t)) && AllDigits(SecondsField(t))
       && DecToNat(SecondsField(t)) < 60
    then Some(DecToNat(MinutesField(t)) * 60 + DecToNat(SecondsField(t)))
    else None
  }

  /** Parsing the printed clock gives back the number of seconds. */
  lemma ClockRoundTrip(seconds: nat)
    ensures ParseClock(FormatTime(seconds)) == Some(seconds)
  {
  }

  /** Different durations print differently. */
  lemma FormatTimeInjective(a: nat, b: nat)
    requires FormatTime(a) == FormatTime(b)
    ensures a == b
  {
    ClockRoundTrip(a);
    ClockRoundTrip(b);
  }

  /** The maximum prints as five minutes. */
  lemma MaxPrintsAsFiveMinutes()
    ensures FormatTime(MaxRecordingTime) == "05:00"
  {
    assert NatToDec(5) == "5";
    assert NatToDec(0) == "0";
    assert TwoDigits(5) == "05";
    assert TwoDigits(0) == "00";
  }
}
