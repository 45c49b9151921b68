# Hybrid dialogue controller of the symptom-checker bot, in Dafny

This project models the core of the symptom-checker chat backend
(`backend/main.py`). The core has two parts.

- **Corpus normaliser.** It turns the general question/answer records, the factor
  groups of the structured corpus and the optional emergency block into one ordered
  list of documents. Each document's text comes from a fixed template. Each document
  carries a provenance tag (`general_qa`, `factor_groups`, `emergency_info`).
- **Questionnaire state machine and message router.** This is the `/chat` handler.
  It lower-cases each message and routes it:
  - the reset phrase `start over` always wins;
  - in diagnostic mode every other message is an answer;
  - outside diagnostic mode a trigger phrase (`help me`, `i have pain`, `figure out`,
    `my symptoms`) starts the questionnaire over the factor groups;
  - anything else goes to the retrieval-augmented answerer.

The process-wide session dictionary becomes an explicit immutable `Session` value.
`Dialogue.Handle` is the pure step function: it takes the factor data, the current
session and one message, and returns the next session and the response.
`DialogueRuns.Run` feeds it a sequence of messages.

Files:

- `wrappers.dfy`: `Option` and `Result`.
- `text.dfy`: ASCII lower-casing, the substring test and `join`, with their lemmas.
- `corpus.dfy`: the document datatypes, the templates and the normaliser. The
  normaliser exists both as a function and as a method that appends in loops, as
  the source does.
- `dialogue.dfy`: the session, the questionnaire operations and `Handle`.
- `dialogue_runs.dfy`: lemmas over message sequences.

## Behaviour of the code worth noting

- Answers are recorded lower-cased. The handler appends the lower-cased query, not
  the raw text.
- The provenance tag of a factor-group document is the literal `factor_groups`.
- The emergency document depends on the block being truthy, not merely present. An
  empty object adds nothing. An object with an empty `points` list adds a document
  whose text ends in `": "`.
- With zero factor groups, a trigger message raises (`disclaimer + None`). The
  session has already been switched to diagnostic mode by then. So the next message
  is recorded as an answer and gets a one-item summary
  (`DialogueRuns.NoGroupsTriggerFails`).
- A reset clears the session only. The answerer's conversation memory is not
  cleared, so the answerer's later replies may differ from a fresh process. The
  router's own decisions after a reset are identical to a fresh start.

## Model

| member | source | states |
|---|---|---|
| `Text.ContainsCorrect` | backend/main.py:133 | The executable substring search holds exactly when some position of the text holds the phrase. This is the meaning of Python's `phrase in text`. |
| `Text.LowerPreservesContains` | backend/main.py:130-133 | If a text contains a phrase, its lower-cased form contains the lower-cased phrase, so matching ignores letter case. |
| `Text.LowerIsLowerCase` | backend/main.py:130 | A lower-cased text has no upper-case ASCII letter, and lower-casing it again changes nothing. |
| `Text.JoinSnoc` | backend/main.py:48 | Joining one more item to a non-empty list extends the joined text by exactly one separator and that item. |
| `Text.JoinLength` | backend/main.py:99 | A joined text is as long as its items plus one separator per neighbouring pair. |
| `Text.JoinContainsEach` | backend/main.py:107 | Every item occurs in the joined text. |
| `Corpus.Normalize` | backend/main.py:36-55 | The document list has Q + G + (1 if the emergency block is truthy) entries. Q&A documents come first in input order, then group documents in input order, then the emergency document. Each uses its template. No text is empty. The only failure is a truthy block without `points`. |
| `Corpus.BuildDocuments` | backend/main.py:34-55 | The append loops of the source build exactly the list `Normalize` describes. |
| `Corpus.CorpusCompleteness` | backend/main.py:39-55 | Q records give exactly Q `general_qa` documents. G groups give exactly G `factor_groups` documents. The emergency block gives one `emergency_info` document exactly when it is truthy. |
| `Corpus.StoredTagCounts` | backend/main.py:41-55 | Counted by the literal stored under the `source` metadata key: `general_qa` on exactly Q documents, `factor_groups` on exactly G, `emergency_info` on one exactly when the emergency block is truthy, and any other literal on none. |
| `Corpus.EmergencyEdgeCases` | backend/main.py:51-55 | An empty emergency object adds nothing, like a missing one. An empty `points` list still adds a document whose text ends after the colon. |
| `Corpus.GroupDocumentMentionsFactors` | backend/main.py:46-50 | A group document's metadata is `factor_groups` with the group's name. Its text names the group and every factor. |
| `Dialogue.ContainsAny` | backend/main.py:154-155 | The trigger test holds exactly when some trigger phrase occurs in the text. |
| `Dialogue.StartDiagnosticFlow` | backend/main.py:84-90 | Starting the questionnaire gives a diagnostic session that keeps the session invariant, with the cursor on the first group and every factor group as a question. It has a first question exactly when some group exists. |
| `Dialogue.NextQuestion` | backend/main.py:92-101 | The next question is total. It exists exactly when the session is diagnostic and the cursor is inside the questions. It is then the prompt for the group under the cursor, and it is never empty. |
| `Dialogue.DiagnosticSummary` | backend/main.py:103-113 | The summary is a reply that mentions every recorded answer, or the `none` placeholder when the session is empty (no `answers` key). An empty answers list adds nothing between the opening and the closing. The session is cleared afterwards. |
| `Dialogue.SummaryPlaceholderCases` | backend/main.py:105-108 | The `none` placeholder is chosen by the missing `answers` key, not by an empty list. The empty session is summarised with `none` between the opening and the closing. A diagnostic session with no answers gets nothing there. |
| `Dialogue.Handle` | backend/main.py:128-164 | The reset phrase clears the session and acknowledges, whatever the mode. Every step keeps the session invariant (answers = cursor <= questions). |
| `Dialogue.HandleRouting` | backend/main.py:153-164 | A message goes to the answerer exactly when the session is idle and the message is neither a reset nor a trigger. The answerer then gets the lower-cased message and the session stays empty. The request fails exactly when the session is idle, the message holds no reset phrase but a trigger phrase, and there is no factor group. |
| `Dialogue.DiagnosticAnswerStep` | backend/main.py:138-151 | In diagnostic mode a non-reset message is appended lower-cased and the cursor moves by one. Trigger phrases are ignored. The reply is the next group's question while one is left. Otherwise it is the summary of all answers, and the session is cleared. |
| `Dialogue.TriggerStartsQuestionnaire` | backend/main.py:84-90 | A trigger outside diagnostic mode sets cursor 0, no answers and all groups as questions. The reply is the disclaimer and the first group's question, or a failure when there is no group. |
| `Dialogue.SummaryNeverUsesPlaceholder` | backend/main.py:138-151 | When an answer ends the questionnaire, the summary lists exactly the recorded answers followed by the lower-cased message just received. So the `none` placeholder list is never used. |
| `Dialogue.SummaryMentionsEveryAnswer` | backend/main.py:106-109 | The summary text contains every answer it is given. |
| `Dialogue.ResetIsCaseInsensitive` | backend/main.py:130-135 | A message holding the reset phrase in any letter case clears the session and is acknowledged. |
| `DialogueRuns.RunPreservesConsistent` | backend/main.py:138-142 | After any sequence of messages from a consistent session, the number of answers still equals the cursor and the cursor does not pass the questions. |
| `DialogueRuns.AnswerWalk` | backend/main.py:138-147 | Answers before the last one each advance the cursor by one and are recorded lower-cased in submission order. Each gets the following group's question. |
| `DialogueRuns.SummaryRestartsConversation` | backend/main.py:138-151 | The answer to the last question gets the summary of every answer. Because the summary clears the session, the messages after it are handled exactly as from the empty session at process start. |
| `DialogueRuns.QuestionnaireCompletes` | backend/main.py:138-160 | With N >= 1 groups, a trigger and then N answers get the disclaimer with question 1, then questions 2..N, then the summary of all N answers in order. The session ends idle. |
| `DialogueRuns.NoGroupsTriggerFails` | backend/main.py:156-160 | With no groups a trigger fails but leaves diagnostic mode on. The next message then gets a one-item summary, and the session is cleared. |
| `DialogueRuns.ResetForgetsSession` | backend/main.py:132-135 | After a reset, any later messages are handled exactly as from the empty session at process start. |
| `DialogueRuns.TwoGroupQuestionnaire` | backend/main.py:138-160 | With two groups, the messages "i have pain", "lower right", "at night" get the opening question, the second question and the summary "lower right, at night". The session ends idle. |
| `DialogueRuns.TwoGroupExample` | backend/main.py:128-164 | With two groups, a fourth message "anything" after the questionnaire goes to the answerer, because the summary cleared the session. |

## Left out

- `Text.Lower` models Python's `str.lower()` on ASCII letters only. Other Unicode
  case mappings, including those that change a string's length, are not modelled.
- The retrieval-augmented answerer (`qa_chain`, backend/main.py:66-77 and 163) is an
  opaque service. The router's response `Delegated(query)` names the lower-cased query
  handed to it, and its answer is returned unchanged. Its conversation memory, its
  prompt and its failures are not modelled.
- Model loading, embeddings and the FAISS index (backend/main.py:21-29, 60-63) are
  foreign services with no logic of the core.
- The FastAPI application, CORS settings and the `Message` request type
  (backend/main.py:116-127) are HTTP plumbing. A failing request is the response
  `Fault`; the server's error body is not modelled.
- The JSON file reads (backend/main.py:37-38, 44-45) are I/O. The records arrive as
  typed values. So the `KeyError` or `TypeError` of a record that lacks `question`,
  `answer`, `group_name` or `factors`, or has non-string items, is not modelled.
  A missing `factor_groups` key is the empty list, as `.get(..., [])` makes it.
- Of the emergency object, only `title` and `points` are modelled. An object that
  holds only other keys would also be truthy and fail for lack of `points`.
- The process-wide mutable session and its sharing between concurrent callers are a
  concurrency matter. The model threads one explicit session value through `Handle`.
- The `questions_to_ask` entry aliases the loaded factor groups instead of copying
  them. Nothing mutates them, so the value model loses nothing.
- `backend/scraper.py` (browser automation, HTML selectors, JSON output) is not part
  of this model.
