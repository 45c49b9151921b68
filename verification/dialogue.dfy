/** The questionnaire state machine and the message router of the `/chat` endpoint
    (backend/main.py lines 82-113 and 128-164). The process-wide session dictionary
    becomes an explicit `Session` value threaded through `Handle`. */
module Dialogue {
  import opened Wrappers
  import opened Text
  import opened Corpus

  /** The session record. `Idle` is the empty dictionary (process start, after a
      reset, after a completed questionnaire); `Diagnostic` holds the cursor, the
      answers recorded so far and the groups snapshotted when the questionnaire began. */
  datatype Session =
    | Idle
    | Diagnostic(questionIndex: nat, answers: seq<string>, questions: seq<FactorGroup>)

  /** What one call of the endpoint produces. `Delegated(q)` hands the lower-cased
      query to the retrieval-augmented answerer, whose answer is returned unchanged.
      `Fault` is the request that raises (`disclaimer + None` when no group exists). */
  datatype Response = Reply(text: string) | Delegated(query: string) | Fault

  datatype Turn = Turn(session: Session, response: Response)

  const ResetPhrase: string := "start over"
  const ResetAcknowledgement: string := "Ok, let's start over. How can I help you?"
  const TriggerPhrases: seq<string> := ["help me", "i have pain", "figure out", "my symptoms"]
  const Disclaimer: string :=
    "I can ask a few questions to help narrow down the factors based on my training data. "
    + "Please remember, I am an AI assistant and not a medical professional. "
    + "This is not a medical diagnosis. \n\n"
  const SummaryOpening: string :=
    "Thank you. Based on the information you've provided, you've mentioned factors including: "
  const SummaryClosing: string :=
    ". This information can be useful when speaking with a healthcare professional."
    + " For more specific advice, you might ask me 'When should I see a doctor?'"
  /** The placeholder list used when the session has no `answers` key. */
  const NoAnswers: seq<string> := ["none"]
  /** The separator between answers in the summary. */
  const AnswerSeparator: string := ", "

  /** The question text for one factor group. */
  function Prompt(g: FactorGroup): string
  {
    "Let's talk about '" + g.groupName + "'. Is it any of the following? "
      + Join(g.factors, FactorSeparator)
  }

  /** The summary text for a list of answers. */
  function SummaryText(answers: seq<string>): string
  {
    SummaryOpening + Join(answers, AnswerSeparator) + SummaryClosing
  }

  /** The summary mentions every answer it is given. */
  lemma SummaryMentionsEveryAnswer(answers: seq<string>, k: int)
    requires 0 <= k < |answers|
    ensures ContainsSpec(SummaryText(answers), answers[k])
  {
    JoinContainsEach(answers, AnswerSeparator, k);
    ContainsInContext(SummaryOpening, Join(answers, AnswerSeparator), SummaryClosing, answers[k]);
  }

  lemma SummaryMentionsAll(answers: seq<string>)
    ensures forall k :: 0 <= k < |answers| ==> ContainsSpec(SummaryText(answers), answers[k])
  {
    forall k | 0 <= k < |answers|
      ensures ContainsSpec(SummaryText(answers), answers[k])
    {
      SummaryMentionsEveryAnswer(answers, k);
    }
  }

  /** The session invariant: while diagnostic, one answer has been recorded per
      question passed, and the cursor never runs past the snapshotted questions. */
  predicate Consistent(s: Session)
  {
    s.Diagnostic? ==> |s.answers| == s.questionIndex && s.questionIndex <= |s.questions|
  }

  /** Python truthiness of the optional prompt: `None` and the empty string are false. */
  predicate PromptIsTruthy(o: Option<string>)
  {
    o.Some? && |o.value| > 0
  }

  /** True when the text contains at least one of the phrases. */
  function ContainsAny(text: string, phrases: seq<string>): (r: bool)
    ensures r <==> exists k :: 0 <= k < |phrases| && Contains(text, phrases[k])
    decreases |phrases|
  {
    if |phrases| == 0 then false
    else Contains(text, phrases[0]) || ContainsAny(text, phrases[1..])
  }

  predicate IsReset(q: string)
  {
    Contains(q, ResetPhrase)
  }

  predicate IsTrigger(q: string)
  {
    ContainsAny(q, TriggerPhrases)
  }

  /** Entering the questionnaire: cursor at the first group, no answers, and the
      current factor groups as the questions to ask. There is a first question
      exactly when some group exists. */
  function StartDiagnosticFlow(data: FactorData): (s: Session)
    ensures s.Diagnostic? && Consistent(s)
    ensures s.questionIndex == 0 && s.questions == data.groups
    ensures NextQuestion(s).Some? <==> |data.groups| > 0
  {
    Diagnostic(0, [], data.groups)
  }

  /** The next question, read with the dictionary defaults (cursor 0, no questions)
      when the session is empty. Total: it never indexes past the questions. */
  function NextQuestion(s: Session): (r: Option<string>)
    ensures r.Some? <==> s.Diagnostic? && s.questionIndex < |s.questions|
    ensures r.Some? ==> r.value == Prompt(s.questions[s.questionIndex])
    ensures PromptIsTruthy(r) <==> r.Some?
  {
    var idx := if s.Diagnostic? then s.questionIndex else 0;
    var questions := if s.Diagnostic? then s.questions else [];
    if idx < |questions| then Some(Prompt(questions[idx])) else None
  }

  /** The answers a summary lists: the recorded ones, or the placeholder list when
      the session has no `answers` key. */
  function RecordedAnswers(s: Session): seq<string>
  {
    if s.Diagnostic? then s.answers else NoAnswers
  }

  /** The closing summary: a reply that mentions every recorded answer, or the `none`
      placeholder when the session is empty (no `answers` key); an empty answers list
      adds nothing between the opening and the closing. The session is cleared. */
  function DiagnosticSummary(s: Session): (t: Turn)
    ensures t.session == Idle
    ensures t.response.Reply?
    ensures forall k :: 0 <= k < |RecordedAnswers(s)| ==>
      ContainsSpec(t.response.text, RecordedAnswers(s)[k])
  {
    var answers := RecordedAnswers(s);
    SummaryMentionsAll(answers);
    Turn(Idle, Reply(SummaryText(answers)))
  }

  /** The placeholder depends on the `answers` key, not on its contents: the empty
      session is summarised as `none`, while a diagnostic session with no answers
      gets nothing between the opening and the closing. */
  lemma SummaryPlaceholderCases(index: nat, questions: seq<FactorGroup>)
    ensures DiagnosticSummary(Diagnostic(index, [], questions)).response.text
         == SummaryOpening + SummaryClosing
    ensures DiagnosticSummary(Idle).response.text == SummaryOpening + "none" + SummaryClosing
  {
    assert NoAnswers[1..] == [];
  }

  /** One call of the `/chat` endpoint. The text is lower-cased; the reset phrase wins
      over everything; in diagnostic mode the text is an answer; otherwise a trigger
      phrase starts the questionnaire; anything else goes to the answerer. */
  function Handle(data: FactorData, s: Session, text: string): (t: Turn)
    ensures IsReset(Lower(text)) ==> t == Turn(Idle, Reply(ResetAcknowledgement))
    ensures Consistent(s) ==> Consistent(t.session)
  {
    var query := Lower(text);
    if IsReset(query) then
      Turn(Idle, Reply(ResetAcknowledgement))
    else if s.Diagnostic? then
      var recorded := s.(answers := s.answers + [query], questionIndex := s.questionIndex + 1);
      var next := NextQuestion(recorded);
      if PromptIsTruthy(next) then Turn(recorded, Reply(next.value))
      else DiagnosticSummary(recorded)
    else if IsTrigger(query) then
      var started := StartDiagnosticFlow(data);
      var first := NextQuestion(started);
      if first.Some? then Turn(started, Reply(Disclaimer + first.value))
      else Turn(started, Fault)
    else
      Turn(s, Delegated(query))
  }

  /** The router hands a message to the answerer exactly when the session is idle and
      the message holds neither the reset phrase nor a trigger phrase; the query is the
      lower-cased message and the session stays empty. A request fails exactly when the
      session is idle, the message holds no reset phrase but a trigger phrase, and there
      is no factor group. */
  lemma HandleRouting(data: FactorData, s: Session, text: string)
    ensures var t := Handle(data, s, text);
      && (t.response.Delegated? <==> s.Idle? && !IsReset(Lower(text)) && !IsTrigger(Lower(text)))
      && (t.response.Delegated? ==> t == Turn(Idle, Delegated(Lower(text))))
      && (t.response.Fault? <==>
            s.Idle? && !IsReset(Lower(text)) && IsTrigger(Lower(text)) && |data.groups| == 0)
  {
  }

  /** A diagnostic answer is recorded lower-cased and moves the cursor by exactly one;
      the reply is the next group's question while one is left, and otherwise the
      summary of all answers, after which the session is cleared. Trigger phrases are
      not consulted. */
  lemma DiagnosticAnswerStep(data: FactorData, s: Session, text: string)
    requires s.Diagnostic?
    requires !IsReset(Lower(text))
    ensures var t := Handle(data, s, text);
      var answers := s.answers + [Lower(text)];
      if s.questionIndex + 1 < |s.questions| then
        t == Turn(Diagnostic(s.questionIndex + 1, answers, s.questions),
                  Reply(Prompt(s.questions[s.questionIndex + 1])))
      else
        t == Turn(Idle, Reply(SummaryText(answers)))
  {
  }

  /** A trigger phrase outside diagnostic mode starts the questionnaire on all groups
      and asks about the first one after the disclaimer; with no groups the session is
      left in diagnostic mode and the request fails. */
  lemma TriggerStartsQuestionnaire(data: FactorData, text: string)
    requires !IsReset(Lower(text)) && IsTrigger(Lower(text))
    ensures Handle(data, Idle, text).session == Diagnostic(0, [], data.groups)
    ensures |data.groups| > 0 ==>
      Handle(data, Idle, text).response == Reply(Disclaimer + Prompt(data.groups[0]))
    ensures |data.groups| == 0 ==> Handle(data, Idle, text).response == Fault
  {
  }

  /** Every summary the router produces lists exactly the recorded answers followed by
      the message just received; the `none` placeholder list is never used. */
  lemma SummaryNeverUsesPlaceholder(data: FactorData, s: Session, text: string)
    requires s.Diagnostic? && !IsReset(Lower(text))
    requires Handle(data, s, text).session == Idle
    ensures Handle(data, s, text).response == Reply(SummaryText(s.answers + [Lower(text)]))
  {
  }

  /** The reset phrase is recognised in any letter case. */
  lemma ResetIsCaseInsensitive(data: FactorData, s: Session, text: string, typed: string)
    requires Contains(text, typed) && Lower(typed) == ResetPhrase
    ensures Handle(data, s, text) == Turn(Idle, Reply(ResetAcknowledgement))
  {
    LowerPreservesContains(text, typed);
  }
}
