/** The router driven by a sequence of messages: the questionnaire walk from a trigger
    phrase to the summary, the answer-accumulation invariant, and reset behaviour. */
module DialogueRuns {
  import opened Text
  import opened Corpus
  import opened Dialogue

  /** The session after a sequence of calls, and the response of each call in order. */
  datatype Trace = Trace(session: Session, responses: seq<Response>)

  /** Feed the messages to the router one after another, threading the session. */
  function Run(data: FactorData, s: Session, messages: seq<string>): Trace
    decreases |messages|
  {
    if |messages| == 0 then Trace(s, [])
    else
      var t := Handle(data, s, messages[0]);
      var rest := Run(data, t.session, messages[1..]);
      Trace(rest.session, [t.response] + rest.responses)
  }

  /** Each message as the router records it. */
  function LowerAll(messages: seq<string>): seq<string>
  {
    seq(|messages|, k requires 0 <= k < |messages| => Lower(messages[k]))
  }

  lemma LowerAllHead(messages: seq<string>)
    requires |messages| > 0
    ensures LowerAll(messages) == [Lower(messages[0])] + LowerAll(messages[1..])
  {
  }

  /** None of the messages contains the reset phrase in any letter case. */
  predicate NoReset(messages: seq<string>)
  {
    forall k :: 0 <= k < |messages| ==> !IsReset(Lower(messages[k]))
  }

  lemma NoResetTail(messages: seq<string>)
    requires |messages| > 0 && NoReset(messages)
    ensures !IsReset(Lower(messages[0])) && NoReset(messages[1..])
  {
    forall j | 0 <= j < |messages[1..]|
      ensures !IsReset(Lower(messages[1..][j]))
    {
      assert messages[1..][j] == messages[j + 1];
    }
  }

  /** The question replies for groups `from .. from + count - 1`, in order. */
  function Prompts(groups: seq<FactorGroup>, from: nat, count: nat): seq<Response>
    requires from + count <= |groups|
  {
    seq(count, j requires 0 <= j < count => Reply(Prompt(groups[from + j])))
  }

  lemma PromptsHead(groups: seq<FactorGroup>, from: nat, count: nat)
    requires 0 < count && from + count <= |groups|
    ensures Prompts(groups, from, count) == [Reply(Prompt(groups[from]))] + Prompts(groups, from + 1, count - 1)
  {
  }

  /** The session invariant holds after any sequence of messages from a consistent session. */
  lemma {:induction false} RunPreservesConsistent(data: FactorData, s: Session, messages: seq<string>)
    requires Consistent(s)
    ensures Consistent(Run(data, s, messages).session)
    decreases |messages|
  {
    if |messages| > 0 {
      RunPreservesConsistent(data, Handle(data, s, messages[0]).session, messages[1..]);
    }
  }

  /** One answer that leaves a question to ask: the run continues from the advanced
      cursor, after the next group's question. */
  lemma AnswerStepRun(data: FactorData, k: nat, recorded: seq<string>, messages: seq<string>)
    requires |recorded| == k && k + 1 < |data.groups|
    requires |messages| > 0 && !IsReset(Lower(messages[0]))
    ensures Run(data, Diagnostic(k, recorded, data.groups), messages) ==
      var rest := Run(data, Diagnostic(k + 1, recorded + [Lower(messages[0])], data.groups), messages[1..]);
      Trace(rest.session, [Reply(Prompt(data.groups[k + 1]))] + rest.responses)
  {
    DiagnosticAnswerStep(data, Diagnostic(k, recorded, data.groups), messages[0]);
  }

  /** Answer accumulation: from cursor `k` with `k` recorded answers, answers that do not
      finish the questionnaire each move the cursor by one, are appended lower-cased in
      submission order, and are each answered with the following group's question. */
  lemma {:induction false} AnswerWalk(data: FactorData, k: nat, recorded: seq<string>, messages: seq<string>)
    requires |recorded| == k
    requires k + |messages| < |data.groups|
    requires NoReset(messages)
    ensures Run(data, Diagnostic(k, recorded, data.groups), messages) ==
      Trace(Diagnostic(k + |messages|, recorded + LowerAll(messages), data.groups),
            Prompts(data.groups, k + 1, |messages|))
    decreases |messages|
  {
    var groups := data.groups;
    if |messages| == 0 {
      assert recorded + LowerAll(messages) == recorded;
    } else {
      var next := recorded + [Lower(messages[0])];
      LowerAllHead(messages);
      assert next + LowerAll(messages[1..]) == recorded + LowerAll(messages);
      NoResetTail(messages);
      AnswerStepRun(data, k, recorded, messages);
      AnswerWalk(data, k + 1, next, messages[1..]);
      PromptsHead(groups, k + 1, |messages|);
    }
  }

  /** A run of one message is one call of the router. */
  lemma RunSingle(data: FactorData, s: Session, m: string)
    ensures Run(data, s, [m]) == Trace(Handle(data, s, m).session, [Handle(data, s, m).response])
  {
    assert [m][1..] == [];
  }

  /** The answer to the last question is replied to with the summary of every recorded
      answer, and the session is cleared. */
  lemma FinalAnswer(data: FactorData, k: nat, recorded: seq<string>, m: string)
    requires |recorded| == k && k + 1 == |data.groups|
    requires !IsReset(Lower(m))
    ensures Run(data, Diagnostic(k, recorded, data.groups), [m]) ==
      Trace(Idle, [Reply(SummaryText(recorded + [Lower(m)]))])
  {
    DiagnosticAnswerStep(data, Diagnostic(k, recorded, data.groups), m);
    RunSingle(data, Diagnostic(k, recorded, data.groups), m);
  }

  /** The answer to the last question gets the summary, and the messages after it are
      handled exactly as from the empty session at process start. */
  lemma SummaryRestartsConversation(data: FactorData, k: nat, recorded: seq<string>, m: string, rest: seq<string>)
    requires |recorded| == k && k + 1 == |data.groups|
    requires !IsReset(Lower(m))
    ensures Run(data, Diagnostic(k, recorded, data.groups), [m] + rest) ==
      var restart := Run(data, Idle, rest);
      Trace(restart.session, [Reply(SummaryText(recorded + [Lower(m)]))] + restart.responses)
  {
    DiagnosticAnswerStep(data, Diagnostic(k, recorded, data.groups), m);
    assert ([m] + rest)[1..] == rest;
  }

  /** From cursor `k` with `k` recorded answers, the answers to all remaining questions
      get the questions that follow and then the summary of every answer, recorded and
      new, in order; the session ends cleared. */
  lemma {:induction false} AnswersFinishQuestionnaire(data: FactorData, k: nat, recorded: seq<string>, messages: seq<string>)
    requires |recorded| == k && |messages| >= 1 && k + |messages| == |data.groups|
    requires NoReset(messages)
    ensures Run(data, Diagnostic(k, recorded, data.groups), messages) ==
      Trace(Idle, Prompts(data.groups, k + 1, |messages| - 1)
                  + [Reply(SummaryText(recorded + LowerAll(messages)))])
    decreases |messages|
  {
    var groups := data.groups;
    var next := recorded + [Lower(messages[0])];
    LowerAllHead(messages);
    assert next + LowerAll(messages[1..]) == recorded + LowerAll(messages);
    if |messages| == 1 {
      NoResetTail(messages);
      FinalAnswer(data, k, recorded, messages[0]);
      assert LowerAll(messages[1..]) == [];
      assert next + [] == next;
    } else {
      NoResetTail(messages);
      AnswerStepRun(data, k, recorded, messages);
      AnswersFinishQuestionnaire(data, k + 1, next, messages[1..]);
      PromptsHead(groups, k + 1, |messages| - 1);
    }
  }

  /** A trigger message from the empty session opens the questionnaire; the run
      continues from its first question. */
  lemma TriggerRun(data: FactorData, trigger: string, answers: seq<string>)
    requires |data.groups| >= 1
    requires !IsReset(Lower(trigger)) && IsTrigger(Lower(trigger))
    ensures Run(data, Idle, [trigger] + answers) ==
      var rest := Run(data, Diagnostic(0, [], data.groups), answers);
      Trace(rest.session, [Reply(Disclaimer + Prompt(data.groups[0]))] + rest.responses)
  {
    TriggerStartsQuestionnaire(data, trigger);
    assert ([trigger] + answers)[1..] == answers;
  }

  /** Diagnostic termination: with N >= 1 groups, a trigger message followed by exactly N
      answers is replied to with the disclaimer and the first group's question, then the
      questions for groups 2..N, then the summary of all N answers lower-cased in order;
      the session ends cleared, so the next message is not taken as an answer. */
  lemma QuestionnaireCompletes(data: FactorData, trigger: string, answers: seq<string>)
    requires |data.groups| >= 1 && |answers| == |data.groups|
    requires !IsReset(Lower(trigger)) && IsTrigger(Lower(trigger))
    requires NoReset(answers)
    ensures Run(data, Idle, [trigger] + answers) ==
      Trace(Idle,
            [Reply(Disclaimer + Prompt(data.groups[0]))]
            + Prompts(data.groups, 1, |answers| - 1)
            + [Reply(SummaryText(LowerAll(answers)))])
  {
    TriggerRun(data, trigger, answers);
    AnswersFinishQuestionnaire(data, 0, [], answers);
    assert [] + LowerAll(answers) == LowerAll(answers);
  }

  /** With no factor groups a trigger message fails, yet the session is already in
      diagnostic mode; the next message is then taken as the answer to a question that
      was never asked and is answered with a one-item summary. */
  lemma NoGroupsTriggerFails(data: FactorData, trigger: string, m: string)
    requires |data.groups| == 0
    requires !IsReset(Lower(trigger)) && IsTrigger(Lower(trigger))
    requires !IsReset(Lower(m))
    ensures Run(data, Idle, [trigger, m]) == Trace(Idle, [Fault, Reply(SummaryText([Lower(m)]))])
  {
    TriggerStartsQuestionnaire(data, trigger);
    var start := Diagnostic(0, [], data.groups);
    DiagnosticAnswerStep(data, start, m);
    assert [] + [Lower(m)] == [Lower(m)];
    RunSingle(data, start, m);
    assert [trigger, m][1..] == [m];
  }

  /** After a reset the conversation continues exactly as it would from the empty
      session at process start, whatever state it was in before. */
  lemma ResetForgetsSession(data: FactorData, s: Session, reset: string, messages: seq<string>)
    requires IsReset(Lower(reset))
    ensures Run(data, s, [reset] + messages) ==
      var restart := Run(data, Idle, messages);
      Trace(restart.session, [Reply(ResetAcknowledgement)] + restart.responses)
  {
    assert ([reset] + messages)[1..] == messages;
  }

  /** The opening message of the worked example below is a trigger and not a reset. */
  lemma ExampleOpeningClassified()
    ensures Lower("i have pain") == "i have pain"
    ensures IsTrigger("i have pain") && !IsReset("i have pain")
  {
    var opening := "i have pain";
    LowerOfLowerCase(opening);
    assert Contains(opening, TriggerPhrases[1]);
    assert opening[..10][0] != ResetPhrase[0] && opening[1..][..10][0] != ResetPhrase[0];
  }

  /** The answers of the worked example are recorded as typed and are not resets. */
  lemma ExampleAnswersClassified()
    ensures LowerAll(["lower right", "at night"]) == ["lower right", "at night"]
    ensures NoReset(["lower right", "at night"])
  {
    var first := "lower right";
    LowerOfLowerCase(first);
    LowerOfLowerCase("at night");
    assert first[..10][0] != ResetPhrase[0] && first[1..][..10][0] != ResetPhrase[0];
  }

  /** The closing message of the worked example is neither a trigger nor a reset. */
  lemma ExampleFollowUpClassified()
    ensures Lower("anything") == "anything"
    ensures !IsTrigger("anything") && !IsReset("anything")
  {
    var follow := "anything";
    LowerOfLowerCase(follow);
    assert follow[..7][0] != TriggerPhrases[0][0] && follow[1..][..7][0] != TriggerPhrases[0][0];
  }

  /** The summary of the worked example lists both answers in the order given. */
  lemma ExampleSummaryText()
    ensures SummaryText(["lower right", "at night"]) ==
      SummaryOpening + "lower right, at night" + SummaryClosing
  {
    var xs := ["lower right", "at night"];
    assert xs[1..] == ["at night"];
    assert Join(xs, AnswerSeparator) == "lower right" + ", " + "at night";
  }

  /** The questionnaire part of the worked example: "i have pain" starts it, "lower
      right" gets the second question and "at night" gets the summary of both answers. */
  lemma TwoGroupQuestionnaire(data: FactorData)
    requires |data.groups| == 2
    ensures Run(data, Idle, ["i have pain", "lower right", "at night"]) ==
      Trace(Idle,
            [ Reply(Disclaimer + Prompt(data.groups[0])),
              Reply(Prompt(data.groups[1])),
              Reply(SummaryText(["lower right", "at night"])) ])
  {
    var groups := data.groups;
    var opening := "i have pain";
    var answers := ["lower right", "at night"];
    ExampleOpeningClassified();
    ExampleAnswersClassified();
    QuestionnaireCompletes(data, opening, answers);
    assert Prompts(groups, 1, 1) == [Reply(Prompt(groups[1]))];
    assert [opening] + answers == [opening, "lower right", "at night"];
  }

  /** The opening message of the worked example starts the questionnaire. */
  lemma ExampleOpening(data: FactorData, rest: seq<string>)
    requires |data.groups| >= 1
    ensures Run(data, Idle, ["i have pain"] + rest) ==
      var after := Run(data, Diagnostic(0, [], data.groups), rest);
      Trace(after.session, [Reply(Disclaimer + Prompt(data.groups[0]))] + after.responses)
  {
    ExampleOpeningClassified();
    TriggerRun(data, "i have pain", rest);
  }

  /** The last two messages of the worked example: "at night" completes the
      questionnaire and "anything" then goes to the answerer. */
  lemma ExampleClosing(data: FactorData)
    requires |data.groups| == 2
    ensures Run(data, Diagnostic(1, ["lower right"], data.groups), ["at night", "anything"]) ==
      Trace(Idle, [Reply(SummaryText(["lower right", "at night"])), Delegated("anything")])
  {
    ExampleAnswersClassified();
    ExampleFollowUpClassified();
    assert ["at night", "anything"] == ["at night"] + ["anything"];
    SummaryRestartsConversation(data, 1, ["lower right"], "at night", ["anything"]);
    assert ["lower right"] + ["at night"] == ["lower right", "at night"];
    RunSingle(data, Idle, "anything");
  }

  /** The worked example after its opening message: "lower right" gets the second
      question, then the closing above. */
  lemma ExampleAfterOpening(data: FactorData)
    requires |data.groups| == 2
    ensures Run(data, Diagnostic(0, [], data.groups), ["lower right", "at night", "anything"]) ==
      Trace(Idle,
            [ Reply(Prompt(data.groups[1])),
              Reply(SummaryText(["lower right", "at night"])),
              Delegated("anything") ])
  {
    var messages := ["lower right", "at night", "anything"];
    ExampleAnswersClassified();
    AnswerStepRun(data, 0, [], messages);
    assert messages[1..] == ["at night", "anything"];
    assert [] + ["lower right"] == ["lower right"];
    ExampleClosing(data);
  }

  /** The worked example of a two-group corpus: after the questionnaire above the
      session is cleared, so the following message goes to the answerer. */
  lemma TwoGroupExample(data: FactorData)
    requires |data.groups| == 2
    ensures Run(data, Idle, ["i have pain", "lower right", "at night", "anything"]) ==
      Trace(Idle,
            [ Reply(Disclaimer + Prompt(data.groups[0])),
              Reply(Prompt(data.groups[1])),
              Reply(SummaryText(["lower right", "at night"])),
              Delegated("anything") ])
  {
    var rest := ["lower right", "at night", "anything"];
    assert ["i have pain", "lower right", "at night", "anything"] == ["i have pain"] + rest;
    ExampleOpening(data, rest);
    ExampleAfterOpening(data);
  }
}
