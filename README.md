# Fastest-answer quiz: server round controller and client decoder

This project models the two pieces of sequential logic of a networked
"first correct answer wins" quiz written in Java with sockets and JavaFX.

**The server (`QuizServer_fix`)** holds a question bank, the list
`usedQuestionIndices`, the flag `questionInProgress` and a registry of
`ClientHandler`s. Each handler holds the answer it expects (`answer`, possibly
null) and the lines printed to its client (its outbox). `sendRandomQuestion`
first clears the used list once it holds as many indices as there are
questions. It then draws an unused index, stamps every handler with that
question's answer and sends `QUESTION_s <question>` to every client.
`handleAnswerReceived` compare-and-sets the flag from true to false, clears
every handler's answer and issues the next question. A handler dispatches
`ANSWER_c <text>` lines to `handleAnswer`. It dispatches `START_c` lines to
`sendRandomQuestion`, but only when no question is live. `handleAnswer`
compares the text with the handler's own answer, ignoring case. On a match the
submitter gets `CORRECT_s 1`, every client gets `ANSWER_s <its own answer
field>`, and the next question follows. Otherwise only the submitter gets
`WRONG_s `. On disconnect, the handler removes itself from the registry.

**The client (`QuizClient_fix`)** counts `QUESTION_s` lines. From the sixth one
on it shows the game-over text with the score and disables input; before that
it shows `<n>問目` and the question and enables input. `CORRECT_s n` adds `n`
to the score. `ANSWER_s a` shows the reveal. `WRONG_s ` appends a notice to
the text shown. The client sends `ANSWER_c ` plus the trimmed text typed, and
`START_c`.

Modules:

- `Options`: the optional value that stands for a Java reference that may be null.
- `Lists`: "no element occurs twice", shared by the registry and the used list.
- `JavaText`: the Java string behaviours the code relies on. These are
  `startsWith`, `equalsIgnoreCase` (ASCII letters), `trim`, `Integer.parseInt`
  and int rendering, with the round trip `ParseInt(IntToString(i)) == Some(i)`
  and its converse on canonical strings, and Java's 32-bit int wrap-around.
- `Protocol`: both programs' line encoders and prefix decoders, and the round
  trips between them. The decoders cut payloads at the source's fixed offsets
  11, 10 and 9. The lemmas prove those offsets match the prefixes.
- `Selection`: the used-index list as a specification, with the counting
  lemmas behind the draw.
- `Registry`: `List.remove(Object)` on the client registry.
- `Server`: classes `QuizServer` and `ClientHandler`, with state changed in
  place. `QuizServer.Valid()` is the invariant every operation keeps:
  - registry without repeats;
  - used list without repeats and within the bank;
  - a live question implies a non-empty used list;
  - no live question implies that no handler holds an answer.

  The two-state predicates `QuestionIssued`, `Drew`, `Quiet` and
  `ClientHandler.AnswerHandled` spell out the new state as a function of the
  old one.
- `Client`: class `QuizClient`, with the receive loop's step as `Receive`.
- `Scenario`: a two-player round on a one-question bank, driven only through
  the contracts above. It pins down every line each player receives and what
  the winner's client shows.

Notes on the code's behaviour:

- The server has no round limit and issues questions for ever. Only the client
  counts five questions (QuizClient_fix.java:108).
- `handleAnswerReceived` clears the flag (QuizServer_fix.java:96) and sets it
  again only when `sendRandomQuestion` ends (QuizServer_fix.java:90), after the
  3-second sleep (QuizServer_fix.java:103). The model runs that call as one
  step, so in the model the flag is true after every event once the first
  question is out, and a later `START_c` changes nothing. In the running
  program it is false for those 3 seconds (see "Left out").
- The reveal sends each handler its own answer field, not the winner's. A
  client that joined after the last broadcast holds null, and Java renders that
  as `ANSWER_s null` (`Protocol.RevealLine(None)`). The client cannot tell that
  from a real answer "null" (`Protocol.JavaString`).
- The four server prefixes start with four different letters, so the order of
  the client's `startsWith` tests does not matter (`Protocol.DecodeServer`).
- Arbitration is not atomic in the code, so the model is strictly sequential
  and claims nothing about concurrent winners.
- The used indices form a list, not a set.
- `score` and `questionCount` are Java ints and wrap around. For example, a
  `CORRECT_s 2147483647` line after one point leaves the score at
  -2147483648 (`JavaText.Wrap32`, `Client.QuizClient.Receive`).

## Model

| member | source | states |
|---|---|---|
| Server.QuizServer.constructor | QuizServer_fix.java:31-49 | the bank is the given lists; the registry and used list start empty and no question is live; the invariant holds |
| Server.QuizServer.Accept | QuizServer_fix.java:56-58 | a fresh handler with no answer and an empty outbox is appended to the registry; nothing else changes; the invariant is kept |
| Server.QuizServer.SendRandomQuestion | QuizServer_fix.java:68-91 | the used list is cleared exactly when its length equals the bank size; the drawn index is in range and not in the (cleared) list and is appended; every registered client now holds that question's answer and got exactly one new line, `QUESTION_s ` + the question; the flag is set; the list stays duplicate-free and no longer than the bank |
| Server.QuizServer.HandleAnswerReceived | QuizServer_fix.java:94-111 | when the flag is false nothing changes; when it is true the flag is cleared, every answer cleared and one new question issued as above, leaving the flag true |
| Server.QuizServer.RemoveClient | QuizServer_fix.java:114-116 | the registry loses exactly that client, the others keep their order, the round state is untouched |
| Server.ClientHandler.constructor | QuizServer_fix.java:124-131 | a new handler belongs to its server, holds no answer and has sent nothing |
| Server.ClientHandler.SendMessage | QuizServer_fix.java:196-198 | the line is appended to this client's outbox and nothing else changes |
| Server.ClientHandler.SetAnswer | QuizServer_fix.java:200-202 | the answer field is overwritten and the outbox is untouched |
| Server.ClientHandler.IsCorrect | QuizServer_fix.java:172 | with no answer held every text is wrong; the held answer itself is always right; a right text has the answer's length (the full case-folding equivalence is `JavaText.EqualsIgnoreCase`) |
| Server.ClientHandler.RevealAnswers | QuizServer_fix.java:179-181 | every registered client gets exactly one new line, `ANSWER_s ` + its own answer field as Java renders it, and keeps that field |
| Server.ClientHandler.HandleAnswer | QuizServer_fix.java:170-193 | judged correct iff the handler holds an answer equal to the text ignoring case (an absent answer is always wrong); a correct answer comes only while a question is live and yields `CORRECT_s 1` to the submitter, then `ANSWER_s` + each client's own former answer field to every client, then the next question; a wrong answer appends `WRONG_s ` to the submitter's outbox only, and leaves the flag, the used list, other outboxes and all answer fields unchanged |
| Server.ClientHandler.HandleMessage | QuizServer_fix.java:153-167 | an `ANSWER_c ` line is judged on the text after its 9th character; a `START_c` line issues a question only when none is live and otherwise changes nothing; any other line changes nothing |
| Server.ClientHandler.Finish | QuizServer_fix.java:142-149 | the cleanup removes exactly this handler from the registry, keeps the others in order and leaves the round state as it was |
| Selection.UsedBounded | QuizServer_fix.java:70-79 | a duplicate-free list of bank indices is never longer than the bank |
| Selection.UnusedExists | QuizServer_fix.java:76-78 | while fewer indices are used than the bank holds, some index of the bank is unused, so the rejection loop has something to find |
| Selection.CycleComplete | QuizServer_fix.java:70-72 | when the list is cleared, every question of the bank has been asked in the cycle |
| Selection.DrawExists | QuizServer_fix.java:70-78 | from a non-empty bank a permitted draw always exists |
| Selection.DrawKeepsValid | QuizServer_fix.java:70-79 | appending a permitted draw to the cleared-or-kept list keeps it duplicate-free, in range and within the bank size |
| Registry.IndexOf | QuizServer_fix.java:114-116 | the position found holds the element and no earlier position does |
| Registry.RemoveFirst | QuizServer_fix.java:114-116 | the result holds one occurrence fewer of the element and the same count of everything else; when the element is present, putting it back at its first position gives the input again, so the others keep their order; unchanged when the element is absent |
| Registry.RemoveFirstDistinct | QuizServer_fix.java:114-116 | on a registry without repeats, removal deletes exactly that client, keeps every other and keeps the registry without repeats |
| JavaText.StartsWith | QuizServer_fix.java:156-160 | `s.startsWith(p)` holds iff `s` is `p` followed by the rest of `s` |
| JavaText.EqualsIgnoreCase | QuizServer_fix.java:172 | the char-by-char comparison holds iff both strings fold to the same lower-case string |
| JavaText.LeadingBlanks | QuizClient_fix.java:88 | counts the blanks at the front: all counted chars are blank and the next one is not |
| JavaText.TrailingBlanks | QuizClient_fix.java:88 | counts the blanks at the back: all counted chars are blank and the one before is not |
| JavaText.Trim | QuizClient_fix.java:88 | the result is the slice of the input from its first to its last non-blank; all that was cut off is blank |
| JavaText.ParseInt | QuizClient_fix.java:136 | a parsed value is a 32-bit int read from a non-empty string; a plain digit string within range parses to its decimal value; None stands for the NumberFormatException |
| JavaText.ParseIntRejects | QuizClient_fix.java:136 | parseInt throws on the empty string, on a lone sign, on a first char that is neither digit nor sign, on any later non-digit, and on digits above 2147483647 |
| JavaText.Wrap32 | QuizClient_fix.java:105-136 | Java int arithmetic: the result is a 32-bit int, equal to the exact value when that fits, and congruent to it modulo 2^32 |
| JavaText.NatToString | QuizClient_fix.java:109-118 | the decimal rendering is a non-empty digit string without a leading zero |
| JavaText.DigitsOfNatToString | QuizClient_fix.java:109-118 | the digits of a rendered number read back as that number |
| JavaText.IntToString | QuizClient_fix.java:109-141 | Java's rendering of an int is canonical (digits, no leading zero, no `+`, no `-0`) and starts with `-` iff the value is negative |
| JavaText.ParseIntOfIntToString | QuizClient_fix.java:136 | parseInt reads back every 32-bit int exactly as Java renders it |
| JavaText.NatToStringOfDigits | QuizClient_fix.java:109-118 | a digit string without leading zero is the rendering of its own value |
| JavaText.ParseIntOfCanonical | QuizClient_fix.java:136 | conversely, a canonical string that parses is exactly the rendering of the value parsed |
| Protocol.DecodeServer | QuizClient_fix.java:104-161 | the client's prefix chain: a line is decoded as a question, point, reveal or rejection iff it starts with that kind's prefix; a question line is exactly `QUESTION_s ` + its text, a point line `CORRECT_s ` + its payload, a reveal `ANSWER_s ` + its text; a line is unrecognised iff none of the four prefixes matches |
| Protocol.DecodeClient | QuizServer_fix.java:153-167 | the server's dispatch: an answer line is exactly `ANSWER_c ` + its text; a start request is a line starting `START_c` and not `ANSWER_c ` |
| Protocol.QuestionRoundTrip | QuizServer_fix.java:86 | `QuestionLine`: the client's `substring(11)` of the server's question line is the question |
| Protocol.CorrectRoundTrip | QuizServer_fix.java:176 | `CorrectLine`: the client decodes the winner's line as a point line whose `substring(10)` parses to 1 |
| Protocol.JavaString | QuizServer_fix.java:180 | a present string renders as itself; the rendering is `null` iff the reference is null or the string is "null" |
| Protocol.RevealRoundTrip | QuizServer_fix.java:180 | `RevealLine`: the client's `substring(9)` of the reveal line is the answer field as Java rendered it |
| Protocol.WrongRoundTrip | QuizServer_fix.java:189 | `WrongLine`: the rejection line is recognised by the client as a rejection |
| Protocol.AnswerRoundTrip | QuizClient_fix.java:88-89 | `AnswerLine`: the server's `substring(9)` of the client's answer line is exactly the trimmed text typed |
| Protocol.StartRoundTrip | QuizClient_fix.java:190 | `StartLine`: the client's start line is taken by the server as a start request |
| Protocol.ServerLinesAreNotClientLines | QuizServer_fix.java:153-167 | none of the four lines the server writes would be taken by the server as an answer or start request |
| Client.QuestionScreenReadsBack | QuizClient_fix.java:118 | `QuestionScreen`: the question area starts with the count as Java writes it, which parses back to the count, then `問目` and a newline, then the question text unchanged |
| Client.GameOverScreenReadsBack | QuizClient_fix.java:109 | `GameOverScreen`: the game-over text is the fixed header, then the score as Java writes it (parses back to the score), then `点です。` |
| Client.RevealScreenShowsAnswer | QuizClient_fix.java:148 | `RevealScreen`: the reveal text is the fixed header, the revealed text verbatim, then the fixed trailer |
| Client.ScoreLabelReadsBack | QuizClient_fix.java:141 | `ScoreLabel`: the label is `Score: ` followed by text that parses back to the score |
| Client.QuizClient.constructor | QuizClient_fix.java:33-61 | the counters start at 0, the intro text and `Score: 0` are shown, input is enabled, nothing is sent |
| Client.QuizClient.Receive | QuizClient_fix.java:101-162 | both counters stay 32-bit ints; a question line raises the count by exactly 1 (with Java's wrap-around) and shows the game-over text with the score and disables input iff the new count exceeds 5, else shows `<count>問目` and the question and enables input; a point line disables input and adds the parsed points to the score (with Java's wrap-around) and shows the new score on the label, or stops the loop when parsing fails; a reveal shows the reveal text and disables input; a rejection appends the notice; nothing else changes, and no other line moves the count |
| Client.QuizClient.SubmitAnswer | QuizClient_fix.java:86-92 | exactly one line is sent: `ANSWER_c ` + the trimmed text typed |
| Client.QuizClient.SendStartSignal | QuizClient_fix.java:188-192 | exactly one line is sent: `START_c` |
| Scenario.StartedRound | QuizServer_fix.java:56-91 | with bank [("2+2?","4")], after clients A and B connect and A sends `START_c`, the question is live, both hold the answer `4` and both received the question line |
| Scenario.TwoPlayerRound | QuizServer_fix.java:68-190 | with bank [("2+2?","4")] and clients A and B: after A's start and A's `4`, B's `four`, A receives question, `CORRECT_s 1`, `ANSWER_s 4`, question; B receives question, `ANSWER_s 4`, question, `WRONG_s ` |
| Scenario.WinnerScreen | QuizClient_fix.java:104-152 | A's client, fed those lines, has score 1, count 2 and shows `2問目` with the question |

## Left out

- Sockets, the accept loop, thread creation and the blocking `readLine` loops (QuizServer_fix.java:51-64, 134-141; QuizClient_fix.java:94-101, 174-185): each received line is one call of `HandleMessage` or `Receive`.
- Closing the socket in the handler's cleanup (QuizServer_fix.java:144-148): I/O only.
- Reading the bank from `questions.txt` and `answers.txt`, and `System.exit` on failure (QuizServer_fix.java:41-49): the constructor takes the two lists.
- The 3-second window in `handleAnswerReceived` (QuizServer_fix.java:96-109): the model runs the call as one step. In the program the flag is false and every answer field is null during the `Thread.sleep(3000)` (QuizServer_fix.java:103). A `START_c` arriving then passes the test at QuizServer_fix.java:163 and issues an extra question, and an answer arriving then is judged wrong because no answer is held (QuizServer_fix.java:172).
- Concurrency. The model handles one event at a time, so the non-atomic `START_c` check (QuizServer_fix.java:163) and the `CORRECT_s` sent before the compare-and-set (QuizServer_fix.java:176, 96) are not modelled. The model claims nothing about concurrent winners.
- `ThreadLocalRandom` and the do-while rejection loop (QuizServer_fix.java:75-78): the draw is any index in range that is not in the used list.
- Server.QuizServer.SendRandomQuestion: requires a non-empty bank with an answer for every question. The exceptions thrown otherwise (`nextInt(0)`, `answers.get` out of range) are not modelled. `HandleAnswerReceived`, `HandleAnswer` and `HandleMessage` pass the same requirement on.
- Server.ClientHandler.HandleMessage: requires the handler to be registered. `start` registers it before its thread runs, and only the `finally` block removes it.
- JavaFX widgets, CSS, layout and `Platform.runLater` (QuizClient_fix.java:46-80, 139-142): the window is reduced to the shown text, the score label, the prompt and one enabled flag for the answer field and start button together. The score label is updated at once.
- Client.QuizClient.SubmitAnswer: does not model that JavaFX fires the action only while the field is enabled. The same holds for `SendStartSignal` and the start button.
- JavaText.EqualsIgnoreCase: folds only ASCII letters. Java's full Unicode case mapping is not modelled.
- JavaText.ParseInt: accepts only ASCII digits. Java also accepts other Unicode decimal digits.
- The `main` methods and the JavaFX `start` wiring (QuizServer_fix.java:205-208; QuizClient_fix.java:39-41): entry points only.
