# Interview-Ace: session, recorder and rating model

Interview-Ace is a web application for mock interviews. It asks a language
model for interview questions, records a candidate's spoken and typed answers,
and sends both to two analysis calls whose results are shown as feedback. Its
own logic is the state kept by three React components. This project models
that logic as immutable Dafny datatypes and pure transition functions, and
proves what the components promise.

- `common.dfy` — `Option`, `Result` and the error of an external call.
- `text.dfy` — the string operations the components use: decimal rendering,
  `padStart` with zeros, ASCII lower-casing and substring search. It also
  defines reading a digit string back as a number. No component does that;
  it is the reference against which the rendering is proved.
- `interview_start.dfy` — the interview session page. It covers the question
  list, current index, answers, feedbacks, loading and analyzing flags, each
  handler as a state update, the query-string defaults and the sentiment icon.
  The whole page is also an event machine (`Step`, `Run`) whose reachable
  states are proved valid.
- `audio_recorder.dfy` — the recorder component: start, stop, reset, the
  clamped one-second tick, the offered control and the `MM:SS` clock. A
  parser that reads the clock back is the model's own reference for the
  clock's round trip.
- `progress.dfy` — the score badge of the progress page.

The three language-model calls and every browser API are opaque. Their
results (`Result` values, a granted/denied microphone, captured chunks, a
recording URL, a data URI) are parameters of the transitions.

Three details of the components' closures are modelled as written:

- The analysis writes its feedback at the index captured when the answer was
  submitted. The Previous and Next buttons stay enabled during analysis, so a
  late result still lands at the original question
  (`LateResultLandsAtSubmittedIndex`).
- `stopRecording` reads `isRecording` from the render that created it. The
  interval callback calls the copy created when recording started, which
  sees no recording. So reaching 300 seconds only clamps the counter and never
  stops the recording (`Tick`, `TicksSaturate`).
- The recorder's `onstop` calls the `onRecordingComplete` captured when
  recording started (src/components/audio-recorder.tsx:40-49). That callback
  closes over the page's question index of that render
  (src/app/interview/start/page.tsx:63-64), and the recorder is not remounted
  when the user navigates (src/app/interview/start/page.tsx:140). So a
  recording stopped after a Next or Previous click is stored at the question
  that was current when it started. The page model takes that index as the
  `at` of `RecordingDelivered` (`DeliverRecording`); the page and the recorder
  are separate machines, so the capture itself is assumed, not derived.

## Model

| member | source | states |
|---|---|---|
| InterviewStart.QueryGet | src/app/interview/start/page.tsx:36-37 | a query parameter's value is the value of its first occurrence, and it is absent exactly when no pair has that name |
| InterviewStart.ContextOf | src/app/interview/start/page.tsx:36-37 | role and seniority fall back to "Software Engineer" and "Mid-Level" exactly when the parameter is missing or empty, otherwise the given value is used, so both are never empty |
| InterviewStart.EmptyQueryRequest | src/app/interview/start/page.tsx:36-43 | with no query string the generator is asked for 5 questions for a Mid-Level Software Engineer |
| InterviewStart.FinishLoading | src/app/interview/start/page.tsx:41-54 | questions are replaced only when generation succeeds; on failure they stay and an error toast is shown; loading ends in both cases; nothing else changes |
| InterviewStart.FirstLoadOutcome | src/app/interview/start/page.tsx:41-54 | after the first load the error card is shown exactly when generation failed or returned no questions; otherwise the question card starts at index 0 |
| InterviewStart.ScreenOf | src/app/interview/start/page.tsx:116-243 | the question card is shown exactly when loading is over and there are questions, the error card exactly when loading is over and there are none |
| InterviewStart.EditText | src/app/interview/start/page.tsx:59-61 | editing sets the current index's text, keeps its audio (absent if there was none), and leaves every other answer and all other state unchanged |
| InterviewStart.DeliverRecording | src/app/interview/start/page.tsx:63-65 | a delivered recording sets the audio at the index that was current when the recording started, keeps the text there, and leaves every other answer and all other state unchanged |
| InterviewStart.AnswerUpdatesCommute | src/app/interview/start/page.tsx:59-65 | typing and recording delivery commute, and of two text edits only the last is kept |
| InterviewStart.Begin | src/app/interview/start/page.tsx:67-82 | submission is refused with a toast and no state change exactly when the current answer lacks a non-empty text or a non-empty audio; otherwise analysis starts, capturing the index, that index's question and the answer's text and audio |
| InterviewStart.JoinAnalyses | src/app/interview/start/page.tsx:80-83 | the joined calls give a feedback exactly when both succeed, and it holds both results |
| InterviewStart.Complete | src/app/interview/start/page.tsx:79-94 | on success one feedback, holding the voice and behavioral results, is written at the submitted index and nowhere else; on any failure the feedbacks are unchanged and a toast is shown; analysis ends in both cases |
| InterviewStart.SubmitEnabledStarts | src/app/interview/start/page.tsx:152 | whenever the submit button is enabled, the handler accepts the submission |
| InterviewStart.SubmitThenSettle | src/app/interview/start/page.tsx:67-94 | submit followed by a failed analysis restores the exact prior state; followed by success it differs only by the new feedback at the submitted index |
| InterviewStart.InFlightSurvives | src/app/interview/start/page.tsx:78-94 | while analysis runs, navigation, typing and recording delivery change neither the captured submission nor the stored feedbacks |
| InterviewStart.LateResultLandsAtSubmittedIndex | src/app/interview/start/page.tsx:78-94 | after any navigation during analysis, a successful result is stored at the submitted index only, and a failure stores nothing |
| InterviewStart.NavigationBounds | src/app/interview/start/page.tsx:227-231 | with questions shown, Previous is enabled exactly above index 0 and Next exactly below the last index, and either click keeps the index in range |
| InterviewStart.NavigationRoundTrip | src/app/interview/start/page.tsx:227-231 | Next then Previous, and Previous then Next, return to the same state |
| InterviewStart.Init | src/app/interview/start/page.tsx:28-34 | the first render shows the loading skeleton, with no answers, no feedbacks and no analysis, and satisfies the session invariant |
| InterviewStart.Previous | src/app/interview/start/page.tsx:227 | Previous moves the index one back and changes nothing else; clicked while enabled on a valid question card, the page stays valid and Next becomes enabled |
| InterviewStart.Next | src/app/interview/start/page.tsx:230 | Next moves the index one on and changes nothing else; clicked while enabled on a valid question card, the page stays valid and Previous becomes enabled |
| InterviewStart.PreviousEnabled | src/app/interview/start/page.tsx:227 | on a valid page, Previous is enabled exactly when a question precedes the current one |
| InterviewStart.NextEnabled | src/app/interview/start/page.tsx:230 | on a valid page showing questions, Next is enabled exactly when a question follows the current one |
| InterviewStart.SubmitEnabled | src/app/interview/start/page.tsx:152 | the submit button is enabled only when no analysis runs and the handler would accept the answer; when no analysis runs it is enabled exactly then |
| InterviewStart.Step | src/app/interview/start/page.tsx:39-231 | only a settled analysis changes the feedbacks, only navigation the index, only the generator's answer the questions, only typing or a delivered recording the answers; a click on a disabled submit button changes nothing |
| InterviewStart.StepKeepsValid | src/app/interview/start/page.tsx:39-231 | every event preserves the session invariant |
| InterviewStart.ReachableStatesValid | src/app/interview/start/page.tsx:39-231 | from the first render, under any events, the index stays in [0, number of questions) and feedback exists only for existing questions |
| InterviewStart.IconFor | src/app/interview/start/page.tsx:99-104 | smile exactly when the lower-cased sentiment contains "positive"; frown exactly when it contains "negative" but not "positive"; neutral otherwise |
| InterviewStart.IconIgnoresCase | src/app/interview/start/page.tsx:100 | sentiments that agree after lower-casing get the same icon |
| InterviewStart.IconExamples | src/app/interview/start/page.tsx:101-103 | a sentiment containing both words gets the smile, an upper-case "NEGATIVE" the frown, and "Neutral" the neutral icon |
| Text.Contains | src/app/interview/start/page.tsx:101-102 | substring search is true exactly when the pattern occurs at some position |
| Text.ToLowerAscii | src/app/interview/start/page.tsx:100 | lower-casing keeps the length, maps each ASCII capital to its lower-case letter, keeps every other character and leaves no capital |
| Text.NatToDec | src/components/audio-recorder.tsx:92 | a number's decimal rendering is a non-empty digit string without leading zero, one digit below 10 and two digits from 10 to 99 |
| Text.DecRoundTrip | src/components/audio-recorder.tsx:92 | reading back a rendered number gives the number |
| Text.PadZero | src/components/audio-recorder.tsx:92 | padding leaves a long enough string alone, otherwise prefixes zeros up to the width and keeps the string as the suffix |
| Text.PadZeroKeepsValue | src/components/audio-recorder.tsx:92 | zero padding does not change a digit string's value |
| AudioRecorder.TwoDigits | src/components/audio-recorder.tsx:92 | a number rendered with padStart(2, '0') is a digit string of at least two characters, exactly two below 100, with the number's value |
| AudioRecorder.Clock | src/components/audio-recorder.tsx:92 | a minutes and a seconds field joined by a colon: the seconds field is the last two characters and the minutes field everything before the colon, each reading back as its number |
| AudioRecorder.FormatTime | src/components/audio-recorder.tsx:89-93 | the clock ends in ':' and a two-digit seconds field below 60, and minutes * 60 + seconds equals the input; below 6000 seconds it is 5 characters long |
| AudioRecorder.ClockRoundTrip | src/components/audio-recorder.tsx:89-93 | parsing the printed clock gives back the number of seconds |
| AudioRecorder.FormatTimeInjective | src/components/audio-recorder.tsx:89-93 | different durations print as different clocks |
| AudioRecorder.MaxPrintsAsFiveMinutes | src/components/audio-recorder.tsx:122 | the 300-second maximum prints as "05:00" |
| AudioRecorder.Start | src/components/audio-recorder.tsx:30-69 | a granted start empties the chunks, sets recording, zeroes the counter and starts the timer; a denied microphone changes nothing |
| AudioRecorder.Stop | src/components/audio-recorder.tsx:71-79 | stop acts only when a recorder exists and the handler's view says recording, then clears the flag and the timer; otherwise it is a no-op |
| AudioRecorder.Reset | src/components/audio-recorder.tsx:81-87 | reset clears the URL, zeroes the counter and stops the timer, and does not change the recording flag or the chunks |
| AudioRecorder.DataAvailable | src/components/audio-recorder.tsx:36-38 | a captured chunk is appended and nothing else changes |
| AudioRecorder.Finalized | src/components/audio-recorder.tsx:40-43 | a finished recording sets the URL and nothing else changes |
| AudioRecorder.ChunksCollectedInOrder | src/components/audio-recorder.tsx:36-38 | while a recorder exists, the captured chunks are appended in arrival order after those already held |
| AudioRecorder.FinishedRecordingOffersReset | src/components/audio-recorder.tsx:40-43 | once a recording is finished only reset is offered, and after a reset (when not recording) the start button returns |
| AudioRecorder.NextTime | src/components/audio-recorder.tsx:56-63 | the counter advances by one below 300 and is held at 300 from there on |
| AudioRecorder.Tick | src/components/audio-recorder.tsx:56-63 | one timer firing changes only the counter, advancing it by one below 300 and holding it at 300 from there on; the stop it calls at the maximum does nothing |
| AudioRecorder.TicksSaturate | src/components/audio-recorder.tsx:55-63 | n ticks from a counter t within the bound give min(t + n, 300) and change nothing else |
| AudioRecorder.OfferedControl | src/components/audio-recorder.tsx:95-118 | only the reset control is offered once a URL exists; otherwise the main button stops while recording and starts when not |
| AudioRecorder.StopThenStart | src/components/audio-recorder.tsx:109-110 | a click while recording stops it, and the next click starts a fresh recording from 0 |
| AudioRecorder.Initial | src/components/audio-recorder.tsx:14-19 | a fresh recorder offers the start button, holds no chunks, starts its counter at 0 and runs no timer |
| AudioRecorder.Step | src/components/audio-recorder.tsx:30-118 | only a click changes the recording flag, only a finished recording sets a URL, a cleared interval does not tick, a click on the reset control clears the URL and stops the timer, and the counter stays within 300 |
| AudioRecorder.StepKeepsValid | src/components/audio-recorder.tsx:30-87 | every recorder event keeps the counter within 300 and recording only with a recorder |
| AudioRecorder.RunKeepsValid | src/components/audio-recorder.tsx:30-87 | under any sequence of events the counter stays within [0, 300] and a recording in progress has a recorder |
| Progress.ScoreBadge | src/app/progress/page.tsx:50-55 | 85 or more is Excellent, [70, 85) Good, [50, 70) Average, below 50 Needs Improvement |
| Progress.ScoreBadgeMonotone | src/app/progress/page.tsx:50-55 | a higher score never gets a worse badge |
| Progress.LabelsDistinct | src/app/progress/page.tsx:51-54 | the four badge labels are pairwise different |

## Left out

- The three language-model flows (question generation, voice analysis, behavioral analysis) are external calls. Each is a `Result` parameter; their input and output schemas appear only as the `QuestionRequest`, `VoiceFeedback` and `BehavioralFeedback` datatypes.
- `Promise.all` concurrency is one completion step that carries both results. Which error is reported first is not modelled, because the page only logs it.
- Microphone capture, `MediaRecorder`, `Blob`, `FileReader` and object URLs are browser APIs. Their results are parameters, and the data URI given to the page is the `dataUri` of `InterviewStart.DeliverRecording`.
- `setInterval` timing is a sequence of discrete tick events. Clearing the interval on unmount is not modelled.
- AudioRecorder.Start: the click and the microphone's answer are one step. In the component the click waits for `getUserMedia` (src/components/audio-recorder.tsx:32) before `isRecording` is set (54), so a second click in that wait would create a second `MediaRecorder` and a second interval that overwrites `timerRef` (56). Stop and Reset clear only the interval in `timerRef` (75-76, 84-85), so the first one keeps ticking. One `timerRunning` flag cannot represent two intervals, so the stopped timer after Stop or Reset holds only on traces without such a double click.
- AudioRecorder.Tick: the 300-second auto-stop promised for the recorder does not happen in the component. The tick calls a `stopRecording` that saw no recording in progress, so the model proves only the counter clamp.
- The progress-bar percentage uses floating point and is not modelled.
- Progress.ScoreBadge: scores are integers, not JavaScript numbers, so fractional scores are not covered.
- Text.ToLowerAscii: lower-casing covers ASCII letters only, not the full Unicode mapping of `toLowerCase`.
- The question fetch runs once per page instance. A re-run of the effect after the role or seniority changes in place would keep the old index, answers and feedbacks. It is not modelled because the page offers no way to change them in place.
- InterviewStart.Begin: the handler holds one captured submission. A second submission while one is in flight would replace it in the model, but the submit button is disabled during analysis, so `Step` never does this.
- Toasts, `console.error` and `alert` are modelled only as the `Toast` value a handler returns, or not at all for the microphone alert.
- JSX rendering, layout, the setup form, the dashboard, icons, mock data and shared types are presentation or static data.
