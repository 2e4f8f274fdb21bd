/**
 * QuizClient_fix: the receive loop's reaction to each server line, the
 * question counter with its five-question end of game, the score, and the two
 * lines the client sends. The JavaFX widgets are reduced to the text shown in
 * the question area, the score label, the answer field's prompt and one flag
 * for whether the answer field and start button are enabled.
 */
module Client {
  import opened Options
  import opened JavaText
  import opened Protocol

  /** The number of questions in a game, as the client counts them. */
  const GameLength: int := 5

  const IntroText: string :=
    "早押しクイズを始めます。\n\n一番早く正しい回答を送った参加者に点数を与えます。\nクイズは全5問です。\n\n\nStartを押して開始してください。"
  const StartPrompt: string := "Press the start button"
  const AnswerPrompt: string := "Enter your answer...."
  const WrongNotice: string := "\n\nあなたの回答は間違いです！\n正しい回答を入力してください。"

  const CountMarker: string := "問目\n"
  const GameOverHeader: string := "全てのクイズが終了しました！あなたの最終得点は"
  const GameOverTrailer: string := "点です。"
  const RevealHeader: string := "正解者が出ました\n正解は\n\n"
  const RevealTrailer: string := "\n\nです"
  const ScorePrefix: string := "Score: "

  /** The question area for question number count. */
  function QuestionScreen(count: int, question: string): string {
    IntToString(count) + CountMarker + question
  }

  /** The question area once the game is over. */
  function GameOverScreen(score: int): string {
    GameOverHeader + IntToString(score) + GameOverTrailer
  }

  /** The question area when the correct answer is revealed. */
  function RevealScreen(answer: string): string {
    RevealHeader + answer + RevealTrailer
  }

  /** The score label. */
  function ScoreLabel(score: int): string {
    ScorePrefix + IntToString(score)
  }

  /**
   * The question screen shows the number as Java writes it, which reads back
   * as the count, then the marker, then the question text unchanged.
   */
  lemma QuestionScreenReadsBack(count: int, question: string)
    requires MinInt <= count <= MaxInt
    ensures var r, k := QuestionScreen(count, question), |IntToString(count)|;
      && |r| == k + |CountMarker| + |question|
      && ParseInt(r[..k]) == Some(count)
      && r[k..k + |CountMarker|] == CountMarker
      && r[k + |CountMarker|..] == question
  {
    ParseIntOfIntToString(count);
    var number := IntToString(count);
    var r := QuestionScreen(count, question);
    assert r[..|number|] == number;
    assert r[|number|..|number| + |CountMarker|] == CountMarker;
    assert r[|number| + |CountMarker|..] == question;
  }

  /** The game-over screen shows the final score, which reads back, between a fixed header and trailer. */
  lemma GameOverScreenReadsBack(score: int)
    requires MinInt <= score <= MaxInt
    ensures var r, k := GameOverScreen(score), |GameOverHeader|;
      && |r| == k + |IntToString(score)| + |GameOverTrailer|
      && r[..k] == GameOverHeader
      && ParseInt(r[k..|r| - |GameOverTrailer|]) == Some(score)
      && r[|r| - |GameOverTrailer|..] == GameOverTrailer
  {
    ParseIntOfIntToString(score);
    var r := GameOverScreen(score);
    assert r[..|GameOverHeader|] == GameOverHeader;
    assert r[|GameOverHeader|..|r| - |GameOverTrailer|] == IntToString(score);
    assert r[|r| - |GameOverTrailer|..] == GameOverTrailer;
  }

  /** The reveal screen shows the revealed text verbatim between a fixed header and trailer. */
  lemma RevealScreenShowsAnswer(answer: string)
    ensures var r, k := RevealScreen(answer), |RevealHeader|;
      && |r| == k + |answer| + |RevealTrailer|
      && r[..k] == RevealHeader
      && r[k..|r| - |RevealTrailer|] == answer
      && r[|r| - |RevealTrailer|..] == RevealTrailer
  {
    var r := RevealScreen(answer);
    assert r[..|RevealHeader|] == RevealHeader;
    assert r[|RevealHeader|..|r| - |RevealTrailer|] == answer;
    assert r[|r| - |RevealTrailer|..] == RevealTrailer;
  }

  /** The score label is "Score: " followed by text that reads back as the score. */
  lemma ScoreLabelReadsBack(score: int)
    requires MinInt <= score <= MaxInt
    ensures |ScoreLabel(score)| > |ScorePrefix|
    ensures ScoreLabel(score)[..|ScorePrefix|] == ScorePrefix
    ensures ParseInt(ScoreLabel(score)[|ScorePrefix|..]) == Some(score)
  {
    ParseIntOfIntToString(score);
    var r := ScoreLabel(score);
    assert r[..|ScorePrefix|] == ScorePrefix;
    assert r[|ScorePrefix|..] == IntToString(score);
  }

  class QuizClient {
    // Java ints: both stay within 32 bits, wrapping around on overflow
    var questionCount: int
    var score: int
    var display: string
    var scoreLabel: string
    var prompt: string
    var inputEnabled: bool
    var sent: seq<string>

    /** Both counters are Java ints. */
    predicate Valid()
      reads this
    {
      MinInt <= questionCount <= MaxInt && MinInt <= score <= MaxInt
    }

    constructor ()
      ensures Valid()
      ensures questionCount == 0 && score == 0
      ensures display == IntroText && scoreLabel == ScoreLabel(0) && prompt == StartPrompt
      ensures inputEnabled && sent == []
    {
      questionCount := 0;
      score := 0;
      display := IntroText;
      scoreLabel := "Score: 0";
      prompt := StartPrompt;
      inputEnabled := true;
      sent := [];
    }

    /**
     * One pass of the receive loop. The result says whether the loop goes on:
     * it stops when Integer.parseInt throws on the payload of a "CORRECT_s " line.
     */
    method Receive(line: string) returns (listening: bool)
      requires Valid()
      modifies this
      ensures Valid()
      ensures sent == old(sent)
      ensures match DecodeServer(line)
        case Question(text) =>
          && listening && score == old(score) && scoreLabel == old(scoreLabel)
          && questionCount == Wrap32(old(questionCount) + 1)
          && if questionCount > GameLength then
               display == GameOverScreen(score) && !inputEnabled && prompt == old(prompt)
             else
               display == QuestionScreen(questionCount, text) && inputEnabled && prompt == AnswerPrompt
        case Correct(points) =>
          && (listening <==> ParseInt(points).Some?)
          && !inputEnabled && questionCount == old(questionCount) && display == old(display) && prompt == old(prompt)
          && if listening then
               score == Wrap32(old(score) + ParseInt(points).value) && scoreLabel == ScoreLabel(score)
             else
               score == old(score) && scoreLabel == old(scoreLabel)
        case Reveal(answer) =>
          && listening && questionCount == old(questionCount)
          && display == RevealScreen(answer) && !inputEnabled
          && score == old(score) && scoreLabel == old(scoreLabel) && prompt == old(prompt)
        case Wrong =>
          && listening && questionCount == old(questionCount)
          && display == old(display) + WrongNotice && inputEnabled == old(inputEnabled)
          && score == old(score) && scoreLabel == old(scoreLabel) && prompt == old(prompt)
        case Unrecognised =>
          && listening && questionCount == old(questionCount)
          && display == old(display) && inputEnabled == old(inputEnabled)
          && score == old(score) && scoreLabel == old(scoreLabel) && prompt == old(prompt)
    {
      listening := true;
      match DecodeServer(line)
      case Question(text) =>
        questionCount := Wrap32(questionCount + 1);
        if questionCount > GameLength {
          display := GameOverScreen(score);
          inputEnabled := false;
        } else {
          display := QuestionScreen(questionCount, text);
          prompt := AnswerPrompt;
          inputEnabled := true;
        }
      case Correct(points) =>
        inputEnabled := false;
        var parsed := ParseInt(points);
        if parsed.None? {
          listening := false;
        } else {
          score := Wrap32(score + parsed.value);
          scoreLabel := ScoreLabel(score);
        }
      case Reveal(answer) =>
        display := RevealScreen(answer);
        inputEnabled := false;
      case Wrong =>
        display := display + WrongNotice;
      case Unrecognised =>
    }

    /** The answer field's action: the typed text, trimmed, goes to the server. */
    method SubmitAnswer(typed: string)
      modifies this`sent
      ensures sent == old(sent) + [AnswerLine(typed)]
    {
      var answer := Trim(typed);
      sent := sent + [AnswerPrefix + answer];
    }

    /** sendStartSignal */
    method SendStartSignal()
      modifies this`sent
      ensures sent == old(sent) + [StartLine]
    {
      sent := sent + [StartLine];
    }
  }
}
