/**
 * The line protocol between QuizClient_fix and QuizServer_fix: how each side
 * writes its lines and how the other side recognises them by prefix and cuts
 * the payload off at a fixed character offset.
 */
module Protocol {
  import opened Options
  import opened JavaText

  // Server -> client prefixes
  const QuestionPrefix: string := "QUESTION_s "
  const CorrectPrefix: string := "CORRECT_s "
  const RevealPrefix: string := "ANSWER_s "
  const WrongPrefix: string := "WRONG_s "

  // Client -> server prefixes
  const AnswerPrefix: string := "ANSWER_c "
  const StartPrefix: string := "START_c"

  // ---------------------------------------------------------------------------
  // Encoders
  // ---------------------------------------------------------------------------

  /** Server: the broadcast of a question. */
  function QuestionLine(question: string): string {
    QuestionPrefix + question
  }

  /** Server: the point awarded to the winner, written as the literal "1". */
  const CorrectLine: string := CorrectPrefix + "1"

  /**
   * Java's rendering of a possibly-null String in concatenation: a present
   * string is itself, and null becomes the four letters "null", so the two
   * cases cannot be told apart when the string is "null".
   */
  function JavaString(s: Option<string>): (r: string)
    ensures s.Some? ==> r == s.value
    ensures r == "null" <==> s.None? || s == Some("null")
  {
    match s
    case None => "null"
    case Some(t) => t
  }

  /** Server: the reveal of a client's own answer field. */
  function RevealLine(answer: Option<string>): string {
    RevealPrefix + JavaString(answer)
  }

  /** Server: the rejection notice (with its trailing space). */
  const WrongLine: string := WrongPrefix

  /** Client: what the answer field sends, trimmed first. */
  function AnswerLine(typed: string): string {
    AnswerPrefix + Trim(typed)
  }

  /** Client: the start button's signal. */
  const StartLine: string := StartPrefix

  // ---------------------------------------------------------------------------
  // Decoders
  // ---------------------------------------------------------------------------

  /** A line as the client's receive loop classifies it. */
  datatype ServerMsg =
    | Question(text: string)
    | Correct(points: string)
    | Reveal(answer: string)
    | Wrong
    | Unrecognised

  /**
   * The client's if-chain: the first prefix that matches wins, and the payload
   * is cut at offsets 11, 10 and 9. The four prefixes begin with four
   * different letters, so at most one matches and the order of the tests
   * does not matter.
   */
  function DecodeServer(line: string): (m: ServerMsg)
    ensures m.Question? <==> StartsWith(line, QuestionPrefix)
    ensures m.Correct? <==> StartsWith(line, CorrectPrefix)
    ensures m.Reveal? <==> StartsWith(line, RevealPrefix)
    ensures m.Wrong? <==> StartsWith(line, WrongPrefix)
    ensures m.Question? ==> line == QuestionPrefix + m.text
    ensures m.Correct? ==> line == CorrectPrefix + m.points
    ensures m.Reveal? ==> line == RevealPrefix + m.answer
    ensures m.Unrecognised? <==>
      !StartsWith(line, QuestionPrefix) && !StartsWith(line, CorrectPrefix) &&
      !StartsWith(line, RevealPrefix) && !StartsWith(line, WrongPrefix)
  {
    assert StartsWith(line, QuestionPrefix) ==> line[0] == 'Q';
    assert StartsWith(line, CorrectPrefix) ==> line[0] == 'C';
    assert StartsWith(line, RevealPrefix) ==> line[0] == 'A';
    assert StartsWith(line, WrongPrefix) ==> line[0] == 'W';
    if StartsWith(line, QuestionPrefix) then Question(line[11..])
    else if StartsWith(line, CorrectPrefix) then Correct(line[10..])
    else if StartsWith(line, RevealPrefix) then Reveal(line[9..])
    else if StartsWith(line, WrongPrefix) then Wrong
    else Unrecognised
  }

  /** A line as ClientHandler.handleMessage classifies it. */
  datatype ClientMsg =
    | Answer(text: string)
    | Start
    | Ignored

  /**
   * The server's dispatch: "ANSWER_c " is checked first and its payload starts
   * at offset 9; "START_c" is checked next; anything else is ignored.
   */
  function DecodeClient(line: string): (m: ClientMsg)
    ensures m.Answer? <==> StartsWith(line, AnswerPrefix)
    ensures m.Answer? ==> line == AnswerPrefix + m.text
    ensures m.Start? <==> !StartsWith(line, AnswerPrefix) && StartsWith(line, StartPrefix)
  {
    if StartsWith(line, AnswerPrefix) then Answer(line[9..])
    else if StartsWith(line, StartPrefix) then Start
    else Ignored
  }

  // ---------------------------------------------------------------------------
  // Round trips across the two programs
  // ---------------------------------------------------------------------------

  /** The client shows exactly the question text the server broadcast. */
  lemma QuestionRoundTrip(question: string)
    ensures DecodeServer(QuestionLine(question)) == Question(question)
  {
    assert StartsWith(QuestionLine(question), QuestionPrefix);
  }

  /** The client's parse of the winner's line yields one point. */
  lemma CorrectRoundTrip()
    ensures DecodeServer(CorrectLine) == Correct("1")
    ensures ParseInt(DecodeServer(CorrectLine).points) == Some(1)
  {
    assert CorrectLine[0] != QuestionPrefix[0];
    assert StartsWith(CorrectLine, CorrectPrefix);
  }

  /** The client shows exactly the text the server revealed, "null" for an unset answer field. */
  lemma RevealRoundTrip(answer: Option<string>)
    ensures DecodeServer(RevealLine(answer)) == Reveal(JavaString(answer))
  {
    assert StartsWith(RevealLine(answer), RevealPrefix);
  }

  /** The rejection notice is recognised as such. */
  lemma WrongRoundTrip()
    ensures DecodeServer(WrongLine) == Wrong
  {
    assert WrongLine[0] != QuestionPrefix[0] && WrongLine[0] != CorrectPrefix[0];
    assert StartsWith(WrongLine, WrongPrefix);
  }

  /** The server recovers exactly the trimmed text the client typed. */
  lemma AnswerRoundTrip(typed: string)
    ensures DecodeClient(AnswerLine(typed)) == Answer(Trim(typed))
  {
    assert StartsWith(AnswerLine(typed), AnswerPrefix);
  }

  /** The start signal is recognised as a start request, not as an answer. */
  lemma StartRoundTrip()
    ensures DecodeClient(StartLine) == Start
  {
    assert StartsWith(StartLine, StartPrefix);
  }

  /** A line that starts with neither of the client's first letters is ignored by the server. */
  lemma IgnoredByFirstChar(line: string)
    requires |line| > 0 && line[0] != AnswerPrefix[0] && line[0] != StartPrefix[0]
    ensures DecodeClient(line).Ignored?
  {
    assert !StartsWith(line, AnswerPrefix) by {
      assert |line| >= |AnswerPrefix| ==> line[..|AnswerPrefix|][0] != AnswerPrefix[0];
    }
    assert !StartsWith(line, StartPrefix) by {
      assert |line| >= |StartPrefix| ==> line[..|StartPrefix|][0] != StartPrefix[0];
    }
  }

  /** No line the server writes is mistaken by the server for one of the client's lines. */
  lemma ServerLinesAreNotClientLines(question: string, answer: Option<string>)
    ensures DecodeClient(QuestionLine(question)).Ignored?
    ensures DecodeClient(CorrectLine).Ignored?
    ensures DecodeClient(RevealLine(answer)).Ignored?
    ensures DecodeClient(WrongLine).Ignored?
  {
    IgnoredByFirstChar(QuestionLine(question));
    IgnoredByFirstChar(CorrectLine);
    IgnoredByFirstChar(WrongLine);
    var r := RevealLine(answer);
    assert !StartsWith(r, AnswerPrefix) by {
      assert r[..|AnswerPrefix|][7] == 's' && AnswerPrefix[7] == 'c';
    }
    assert !StartsWith(r, StartPrefix) by {
      assert r[..|StartPrefix|][0] == 'A' && StartPrefix[0] == 'S';
    }
  }
}
