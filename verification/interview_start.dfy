/** The interview session page (src/app/interview/start/page.tsx): the session
    state the page keeps, each React handler read as a pure update of that
    state, the query-parameter defaults, and the sentiment icon choice.

    The three language-model calls are opaque: their results arrive as
    `Result` parameters. The two analysis calls joined by `Promise.all` are one
    completion step that carries both results. */
module InterviewStart {
  import opened Common
  import opened Text

  // ---------------------------------------------------------------------------
  // Query parameters
  // ---------------------------------------------------------------------------

  /** The page's query string, as the ordered list of its name/value pairs. */
  type Query = seq<(string, string)>

  /** `searchParams.get(name)`: the value of the first pair with that name. */
  function QueryGet(q: Query, name: string): (v: Option<string>)
    ensures v.None? <==> forall k :: 0 <= k < |q| ==> q[k].0 != name
    ensures v.Some? ==> exists k :: 0 <= k < |q| && q[k] == (name, v.value) && NameAbsent(q[..k], name)
    decreases |q|
  {
    if q == [] then None
    else if q[0].0 == name then
      assert q[0] == (name, q[0].1) && NameAbsent(q[..0], name);
      Some(q[0].1)
    else
      FirstMatchShifts(q, name, QueryGet(q[1..], name));
      QueryGet(q[1..], name)
  }

  /** A first match in the tail of `q`, whose head has another name, is a
      first match in `q` one position further on. */
  lemma FirstMatchShifts(q: Query, name: string, v: Option<string>)
    requires q != [] && q[0].0 != name
    requires v.Some? ==> exists k :: 0 <= k < |q[1..]| && q[1..][k] == (name, v.value) && NameAbsent(q[1..][..k], name)
    ensures v.Some? ==> exists k :: 0 <= k < |q| && q[k] == (name, v.value) && NameAbsent(q[..k], name)
  {
    if v.Some? {
      var k :| 0 <= k < |q[1..]| && q[1..][k] == (name, v.value) && NameAbsent(q[1..][..k], name);
      assert q[..k + 1] == [q[0]] + q[1..][..k];
      assert q[k + 1] == (name, v.value) && NameAbsent(q[..k + 1], name);
    }
  }

  ghost predicate NameAbsent(q: Query, name: string) {
    forall j :: 0 <= j < |q| ==> q[j].0 != name
  }

  const DefaultJobRole := "Software Engineer"
  const DefaultSeniority := "Mid-Level"

  /** `value || fallback` on a string that may be missing: a missing or empty
      value falls back. */
  function OrDefault(v: Option<string>, fallback: string): string {
    if v.Some? && v.value != "" then v.value else fallback
  }

  datatype SessionContext = SessionContext(jobRole: string, seniorityLevel: string)

  /** The role and seniority the page reads from its query string. */
  function ContextOf(q: Query): (ctx: SessionContext)
    ensures ctx.jobRole != "" && ctx.seniorityLevel != ""
    ensures ctx.jobRole == DefaultJobRole <==>
      QueryGet(q, "jobRole") in {None, Some(""), Some(DefaultJobRole)}
    ensures ctx.seniorityLevel == DefaultSeniority <==>
      QueryGet(q, "seniorityLevel") in {None, Some(""), Some(DefaultSeniority)}
    ensures QueryGet(q, "jobRole").Some? && QueryGet(q, "jobRole").value != "" ==>
      ctx.jobRole == QueryGet(q, "jobRole").value
    ensures QueryGet(q, "seniorityLevel").Some? && QueryGet(q, "seniorityLevel").value != "" ==>
      ctx.seniorityLevel == QueryGet(q, "seniorityLevel").value
  {
    SessionContext(OrDefault(QueryGet(q, "jobRole"), DefaultJobRole),
                   OrDefault(QueryGet(q, "seniorityLevel"), DefaultSeniority))
  }

  /** The request the page sends to the question generator. */
  datatype QuestionRequest = QuestionRequest(jobRole: string, seniorityLevel: string, numberOfQuestions: nat)

  const QuestionsAsked: nat := 5

  function RequestFor(ctx: SessionContext): QuestionRequest {
    QuestionRequest(ctx.jobRole, ctx.seniorityLevel, QuestionsAsked)
  }

  /** With no query string at all the page asks for five questions for a
      mid-level software engineer. */
  lemma EmptyQueryRequest()
    ensures RequestFor(ContextOf([])) == QuestionRequest("Software Engineer", "Mid-Level", 5)
  {
  }

  // ---------------------------------------------------------------------------
  // Analysis results
  // ---------------------------------------------------------------------------

  /** Output of the voice analysis call. */
  datatype VoiceFeedback = VoiceFeedback(toneFeedback: string, clarityFeedback: string, paceFeedback: string)

  /** Output of the behavioral analysis call. */
  datatype BehavioralFeedback = BehavioralFeedback(
    sentiment: string,
    behavioralCues: string,
    communicationStyleFeedback: string,
    approachFeedback: string)

  datatype Feedback = Feedback(voiceAnalysis: VoiceFeedback, behavioralAnalysis: BehavioralFeedback)

  /** `Promise.all` over the two calls: both values, or nothing when either failed. */
  function JoinAnalyses(voice: Result<VoiceFeedback>, behavioral: Result<BehavioralFeedback>): (f: Option<Feedback>)
    ensures f.Some? <==> voice.Ok? && behavioral.Ok?
    ensures f.Some? ==> f.value.voiceAnalysis == voice.value && f.value.behavioralAnalysis == behavioral.value
  {
    if voice.Ok? && behavioral.Ok? then Some(Feedback(voice.value, behavioral.value)) else None
  }

  // ---------------------------------------------------------------------------
  // Session state
  // ---------------------------------------------------------------------------

  /** What the user has given for one question. A field the user has not
      provided yet is absent (`undefined` in the page). */
  datatype Answer = Answer(text: Option<string>, audio: Option<string>)

  /** JavaScript truthiness of an optional string. */
  predicate Truthy(v: Option<string>) {
    v.Some? && v.value != ""
  }

  /** What an analysis in flight captured when it was submitted: the question
      index, the question text (`undefined` when the index is past the list),
      and the answer's text and audio. */
  datatype Submission = Submission(index: int, question: Option<string>, text: string, audio: string)

  /** The user-visible notifications the handlers raise. */
  datatype Toast = MissingInput | AnalysisFailed | GenerationFailed

  datatype State = State(
    questions: seq<string>,
    index: int,                    // `currentQuestionIndex`
    isLoading: bool,
    inFlight: Option<Submission>,  // present exactly while `isAnalyzing`
    answers: map<int, Answer>,
    feedbacks: map<int, Feedback>)
  {
    predicate IsAnalyzing() {
      inFlight.Some?
    }
  }

  /** A handler's effect: the new state and the toast it shows, if any. */
  datatype Reply = Reply(state: State, toast: Option<Toast>)

  /** The page as first rendered: loading, no questions, index 0. */
  function Init(): (s: State)
    ensures Valid(s)
    ensures ScreenOf(s) == LoadingSkeleton
    ensures !s.IsAnalyzing() && s.answers == map[] && s.feedbacks == map[]
  {
    State([], 0, true, None, map[], map[])
  }

  function AnswerAt(answers: map<int, Answer>, i: int): Answer {
    if i in answers then answers[i] else Answer(None, None)
  }

  function QuestionAt(questions: seq<string>, i: int): Option<string> {
    if 0 <= i < |questions| then Some(questions[i]) else None
  }

  // ---------------------------------------------------------------------------
  // Handlers
  // ---------------------------------------------------------------------------

  /** `fetchQuestions` once the generator has answered: the list is replaced
      only on success (whatever its length), an error toast is shown on
      failure, and loading ends either way. */
  function FinishLoading(s: State, generated: Result<seq<string>>): (r: Reply)
    ensures !r.state.isLoading
    ensures generated.Ok? ==> r.state.questions == generated.value && r.toast.None?
    ensures generated.Err? ==> r.state.questions == s.questions && r.toast == Some(GenerationFailed)
    ensures r.state == s.(isLoading := false, questions := r.state.questions)
  {
    match generated
    case Ok(qs) => Reply(s.(questions := qs, isLoading := false), None)
    case Err(_) => Reply(s.(isLoading := false), Some(GenerationFailed))
  }

  /** `handleTextAnswerChange`: the current question's text is replaced; its
      audio, and every other question's answer, are kept. */
  function EditText(s: State, text: string): (s': State)
    ensures s'.answers.Keys == s.answers.Keys + {s.index}
    ensures s'.answers[s.index].text == Some(text)
    ensures s'.answers[s.index].audio == AnswerAt(s.answers, s.index).audio
    ensures forall k :: k in s.answers && k != s.index ==> s'.answers[k] == s.answers[k]
    ensures s' == s.(answers := s'.answers)
  {
    var a := AnswerAt(s.answers, s.index);
    s.(answers := s.answers[s.index := a.(text := Some(text))])
  }

  /** `handleRecordingComplete`: the recording's data URI becomes the audio of
      question `at`. That is the index current when the recording was started:
      the recorder's `onstop` calls the callback captured by that start, and
      the recorder is not remounted when the user navigates. The text there,
      and every other answer, are kept. */
  function DeliverRecording(s: State, at: int, dataUri: string): (s': State)
    ensures s'.answers.Keys == s.answers.Keys + {at}
    ensures s'.answers[at].audio == Some(dataUri)
    ensures s'.answers[at].text == AnswerAt(s.answers, at).text
    ensures forall k :: k in s.answers && k != at ==> s'.answers[k] == s.answers[k]
    ensures s' == s.(answers := s'.answers)
  {
    var a := AnswerAt(s.answers, at);
    s.(answers := s.answers[at := a.(audio := Some(dataUri))])
  }

  /** First half of `analyzeCurrentAnswer`: unless the current answer has both
      a non-empty text and a non-empty recording, the submission is refused
      with a toast and nothing changes; otherwise the analysis starts and
      captures the index, the question and the answer it will analyze. */
  function Begin(s: State): (r: Reply)
    ensures var a := AnswerAt(s.answers, s.index);
      r.toast.Some? <==> !(Truthy(a.text) && Truthy(a.audio))
    ensures r.toast.Some? ==> r.toast == Some(MissingInput) && r.state == s
    ensures r.toast.None? ==> r.state.inFlight.Some? && r.state == s.(inFlight := r.state.inFlight)
    ensures r.toast.None? ==> var sub := r.state.inFlight.value;
      && sub.index == s.index
      && sub.question == QuestionAt(s.questions, s.index)
      && Some(sub.text) == s.answers[s.index].text && sub.text != ""
      && Some(sub.audio) == s.answers[s.index].audio && sub.audio != ""
  {
    var a := AnswerAt(s.answers, s.index);
    if !Truthy(a.text) || !Truthy(a.audio) then
      Reply(s, Some(MissingInput))
    else
      Reply(s.(inFlight := Some(Submission(s.index, QuestionAt(s.questions, s.index), a.text.value, a.audio.value))), None)
  }

  /** Second half of `analyzeCurrentAnswer`, when both calls have settled: on
      success one feedback, combining the two results, is stored at the index
      captured at submission (whatever the current index is now); on failure a
      toast is shown and the feedbacks are left alone. Analysis ends either way. */
  function Complete(s: State, voice: Result<VoiceFeedback>, behavioral: Result<BehavioralFeedback>): (r: Reply)
    requires s.IsAnalyzing()
    ensures !r.state.IsAnalyzing()
    ensures voice.Ok? && behavioral.Ok? ==>
      && r.state.feedbacks == s.feedbacks[s.inFlight.value.index := Feedback(voice.value, behavioral.value)]
      && r.toast.None?
    ensures !(voice.Ok? && behavioral.Ok?) ==> r.state.feedbacks == s.feedbacks && r.toast == Some(AnalysisFailed)
    ensures r.state == s.(inFlight := None, feedbacks := r.state.feedbacks)
  {
    match JoinAnalyses(voice, behavioral)
    case Some(f) => Reply(s.(inFlight := None, feedbacks := s.feedbacks[s.inFlight.value.index := f]), None)
    case None => Reply(s.(inFlight := None), Some(AnalysisFailed))
  }

  /** The Previous button's click: one question back, nothing else changes.
      Clicked while enabled on the question card, it keeps the page valid and
      leaves a question ahead, so Next becomes available. */
  function Previous(s: State): (s': State)
    ensures s'.index == s.index - 1
    ensures s' == s.(index := s'.index)
    ensures Valid(s) && ScreenOf(s) == QuestionCard && PreviousEnabled(s) ==> Valid(s') && NextEnabled(s')
  {
    s.(index := s.index - 1)
  }

  /** The Next button's click: one question on, nothing else changes.
      Clicked while enabled on the question card, it keeps the page valid and
      leaves a question behind, so Previous becomes available. */
  function Next(s: State): (s': State)
    ensures s'.index == s.index + 1
    ensures s' == s.(index := s'.index)
    ensures Valid(s) && ScreenOf(s) == QuestionCard && NextEnabled(s) ==> Valid(s') && PreviousEnabled(s')
  {
    s.(index := s.index + 1)
  }

  /** Previous is disabled on the first question, so on a valid page it is
      enabled exactly when there is a question before the current one. */
  function PreviousEnabled(s: State): (b: bool)
    ensures Valid(s) ==> (b <==> 0 < s.index)
  {
    s.index != 0
  }

  /** Next is disabled on the last question, so on a valid page showing
      questions it is enabled exactly when there is a question after the
      current one. */
  function NextEnabled(s: State): (b: bool)
    ensures Valid(s) && |s.questions| > 0 ==> (b <==> s.index < |s.questions| - 1)
  {
    s.index != |s.questions| - 1
  }

  /** The submit button is disabled during analysis and until the current
      answer has both a text and a recording. */
  function SubmitEnabled(s: State): (b: bool)
    ensures b ==> !s.IsAnalyzing()
    ensures b ==> Begin(s).toast.None?
    ensures !s.IsAnalyzing() ==> (b <==> Begin(s).toast.None?)
  {
    var a := AnswerAt(s.answers, s.index);
    !s.IsAnalyzing() && Truthy(a.audio) && Truthy(a.text)
  }

  /** Whatever the submit button lets through, the handler accepts. */
  lemma SubmitEnabledStarts(s: State)
    requires SubmitEnabled(s)
    ensures Begin(s).toast.None? && Begin(s).state.IsAnalyzing()
  {
  }

  /** What the page shows below its header. */
  datatype Screen = LoadingSkeleton | QuestionCard | GenerationErrorCard

  function ScreenOf(s: State): (v: Screen)
    ensures v == QuestionCard <==> !s.isLoading && |s.questions| > 0
    ensures v == GenerationErrorCard <==> !s.isLoading && |s.questions| == 0
  {
    if s.isLoading then LoadingSkeleton
    else if |s.questions| > 0 then QuestionCard
    else GenerationErrorCard
  }

  /** After the first load the page shows the error card exactly when the
      generator failed or returned no questions, and a toast only on failure. */
  lemma FirstLoadOutcome(generated: Result<seq<string>>)
    ensures var r := FinishLoading(Init(), generated);
      && (ScreenOf(r.state) == GenerationErrorCard <==> generated.Err? || generated.value == [])
      && (ScreenOf(r.state) == QuestionCard ==> r.state.questions == generated.value && r.state.index == 0)
      && (r.toast.Some? <==> generated.Err?)
  {
  }

  // ---------------------------------------------------------------------------
  // The page as an event-driven machine
  // ---------------------------------------------------------------------------

  /** What can happen to the page. Clicks reach a handler only when their
      control is rendered and enabled; results reach a handler only when a
      call is outstanding. */
  datatype Event =
    | QuestionsArrived(generated: Result<seq<string>>)
    | TextTyped(text: string)
    | RecordingDelivered(at: int, dataUri: string)
    | SubmitClicked
    | AnalysesSettled(voice: Result<VoiceFeedback>, behavioral: Result<BehavioralFeedback>)
    | PreviousClicked
    | NextClicked

  /** One event, gated by what the page renders and enables: only a settled
      analysis changes the stored feedbacks, only navigation moves the index,
      only the generator's answer changes the questions, and only typing or a
      delivered recording changes the answers. */
  function Step(s: State, e: Event): (s': State)
    ensures !e.AnalysesSettled? ==> s'.feedbacks == s.feedbacks
    ensures !(e.PreviousClicked? || e.NextClicked?) ==> s'.index == s.index
    ensures !e.QuestionsArrived? ==> s'.questions == s.questions
    ensures !(e.TextTyped? || e.RecordingDelivered?) ==> s'.answers == s.answers
    ensures e.SubmitClicked? && !SubmitEnabled(s) ==> s' == s
  {
    match e
    case QuestionsArrived(generated) =>
      if s.isLoading then FinishLoading(s, generated).state else s
    case TextTyped(text) =>
      if ScreenOf(s) == QuestionCard && !s.IsAnalyzing() then EditText(s, text) else s
    case RecordingDelivered(at, dataUri) =>
      DeliverRecording(s, at, dataUri)
    case SubmitClicked =>
      if ScreenOf(s) == QuestionCard && SubmitEnabled(s) then Begin(s).state else s
    case AnalysesSettled(voice, behavioral) =>
      if s.IsAnalyzing() then Complete(s, voice, behavioral).state else s
    case PreviousClicked =>
      if ScreenOf(s) == QuestionCard && PreviousEnabled(s) then Previous(s) else s
    case NextClicked =>
      if ScreenOf(s) == QuestionCard && NextEnabled(s) then Next(s) else s
  }

  function Run(s: State, es: seq<Event>): State
    decreases |es|
  {
    if es == [] then s else Run(Step(s, es[0]), es[1..])
  }

  /** What holds of every state the page can reach: the index is a valid
      question index (0 while there are none), an analysis in flight and every
      stored feedback belong to an existing question, and nothing is stored or
      in flight while loading. */
  ghost predicate Valid(s: State) {
    && 0 <= s.index
    && (|s.questions| == 0 ==> s.index == 0)
    && (|s.questions| > 0 ==> s.index < |s.questions|)
    && (s.inFlight.Some? ==> 0 <= s.inFlight.value.index < |s.questions|)
    && (forall k :: k in s.feedbacks ==> 0 <= k < |s.questions|)
    && (s.isLoading ==> |s.questions| == 0 && s.inFlight.None? && s.feedbacks == map[])
  }

  lemma InitValid()
    ensures Valid(Init())
  {
  }

  lemma StepKeepsValid(s: State, e: Event)
    requires Valid(s)
    ensures Valid(Step(s, e))
  {
  }

  /** From the first render, whatever the user does and whatever the model
      returns, the question index never leaves [0, number of questions), and
      feedback is only ever stored for an existing question. */
  lemma {:induction false} ReachableStatesValid(es: seq<Event>)
    ensures Valid(Run(Init(), es))
  {
    InitValid();
    RunKeepsValid(Init(), es);
  }

  lemma {:induction false} RunKeepsValid(s: State, es: seq<Event>)
    requires Valid(s)
    ensures Valid(Run(s, es))
    decreases |es|
  {
    if es != [] {
      StepKeepsValid(s, es[0]);
      RunKeepsValid(Step(s, es[0]), es[1..]);
    }
  }

  /** While an analysis is in flight, nothing the user does (navigating,
      typing, delivering a recording) changes what it captured or the stored
      feedbacks. */
  lemma {:induction false} InFlightSurvives(s: State, es: seq<Event>)
    requires s.IsAnalyzing()
    requires forall k :: 0 <= k < |es| ==> !es[k].AnalysesSettled?
    ensures Run(s, es).inFlight == s.inFlight
    ensures Run(s, es).feedbacks == s.feedbacks
    decreases |es|
  {
    if es != [] {
      var next := Step(s, es[0]);
      assert next.inFlight == s.inFlight && next.feedbacks == s.feedbacks;
      var rest := es[1..];
      assert forall k :: 0 <= k < |rest| ==> rest[k] == es[k + 1];
      InFlightSurvives(next, rest);
    }
  }

  /** A result that arrives after the user has moved on still lands at the
      index that was current when the answer was submitted, and only there. */
  lemma LateResultLandsAtSubmittedIndex(s: State, es: seq<Event>, voice: Result<VoiceFeedback>, behavioral: Result<BehavioralFeedback>)
    requires s.IsAnalyzing()
    requires forall k :: 0 <= k < |es| ==> !es[k].AnalysesSettled?
    ensures var done := Step(Run(s, es), AnalysesSettled(voice, behavioral));
      && !done.IsAnalyzing()
      && (voice.Ok? && behavioral.Ok? ==>
            done.feedbacks == s.feedbacks[s.inFlight.value.index := Feedback(voice.value, behavioral.value)])
      && (!(voice.Ok? && behavioral.Ok?) ==> done.feedbacks == s.feedbacks)
  {
    InFlightSurvives(s, es);
  }

  /** Submitting and then failing returns the page to exactly where it was;
      submitting and succeeding differs from it only by the new feedback at
      the submitted index. */
  lemma SubmitThenSettle(s: State, voice: Result<VoiceFeedback>, behavioral: Result<BehavioralFeedback>)
    requires SubmitEnabled(s)
    ensures var after := Complete(Begin(s).state, voice, behavioral).state;
      && (voice.Ok? && behavioral.Ok? ==>
            after == s.(feedbacks := s.feedbacks[s.index := Feedback(voice.value, behavioral.value)]))
      && (!(voice.Ok? && behavioral.Ok?) ==> after == s)
  {
  }

  /** Next then Previous, or Previous then Next, is no move at all, and the
      pair is always allowed from a question where the first click is. */
  lemma NavigationRoundTrip(s: State)
    requires Valid(s) && ScreenOf(s) == QuestionCard
    ensures NextEnabled(s) ==> PreviousEnabled(Next(s)) && Previous(Next(s)) == s
    ensures PreviousEnabled(s) ==> NextEnabled(Previous(s)) && Next(Previous(s)) == s
  {
  }

  /** With at least one question, Previous is offered exactly away from the
      first question and Next exactly away from the last. */
  lemma NavigationBounds(s: State)
    requires Valid(s) && ScreenOf(s) == QuestionCard
    ensures PreviousEnabled(s) <==> 0 < s.index
    ensures NextEnabled(s) <==> s.index < |s.questions| - 1
    ensures PreviousEnabled(s) ==> Valid(Previous(s))
    ensures NextEnabled(s) ==> Valid(Next(s))
  {
  }

  /** Typing and delivering a recording touch different fields, so their
      order does not matter; and only the last text typed is kept. */
  lemma AnswerUpdatesCommute(s: State, text: string, text2: string, dataUri: string)
    ensures EditText(DeliverRecording(s, s.index, dataUri), text) == DeliverRecording(EditText(s, text), s.index, dataUri)
    ensures EditText(EditText(s, text), text2) == EditText(s, text2)
  {
  }

  // ---------------------------------------------------------------------------
  // Sentiment icon
  // ---------------------------------------------------------------------------

  datatype SentimentIcon = Smile | Frown | Meh

  /** `renderSentimentIcon`: after lower-casing, "positive" anywhere wins, then
      "negative" anywhere, and anything else is neutral. */
  function IconFor(sentiment: string): (icon: SentimentIcon)
    ensures icon == Smile <==> HasSubstring(ToLowerAscii(sentiment), "positive")
    ensures icon == Frown <==>
      !HasSubstring(ToLowerAscii(sentiment), "positive") && HasSubstring(ToLowerAscii(sentiment), "negative")
    ensures icon == Meh <==>
      !HasSubstring(ToLowerAscii(sentiment), "positive") && !HasSubstring(ToLowerAscii(sentiment), "negative")
  {
    var lower := ToLowerAscii(sentiment);
    if Contains(lower, "positive") then Smile
    else if Contains(lower, "negative") then Frown
    else Meh
  }

  /** The icon does not depend on letter case. */
  lemma IconIgnoresCase(a: string, b: string)
    requires ToLowerAscii(a) == ToLowerAscii(b)
    ensures IconFor(a) == IconFor(b)
    ensures IconFor(ToLowerAscii(a)) == IconFor(a)
  {
    LowerIdempotent(a);
  }

  /** "positive" outranks "negative" whatever the case, and a sentiment naming
      neither is neutral. */
  lemma IconExamples()
    ensures IconFor("Positive but NEGATIVE at times") == Smile
    ensures IconFor("NEGATIVE") == Frown
    ensures IconFor("Neutral") == Meh
  {
    var mixed := ToLowerAscii("Positive but NEGATIVE at times");
    assert mixed[..8] == "positive";
    assert OccursAt(mixed, "positive", 0);
    var neg := ToLowerAscii("NEGATIVE");
    assert neg == "negative";
    assert OccursAt(neg, "negative", 0);
    var neutral := ToLowerAscii("Neutral");
    assert neutral == "neutral";
  }
}
