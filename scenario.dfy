/**
 * A whole round played through the two programs: a one-question bank, two
 * clients A and B. A starts the game, A answers right, then B answers wrong;
 * A's client then shows the lines A received.
 */
module Scenario {
  import opened Options
  import opened JavaText
  import opened Protocol
  import Server
  import Client

  /** The server side, first half: two clients connect and A presses start; the one question goes to both. */
  method StartedRound() returns (server: Server.QuizServer, a: Server.ClientHandler, b: Server.ClientHandler)
    ensures fresh(server) && fresh(a) && fresh(b)
    ensures server.Valid() && server.BankReady()
    ensures server.questions == ["2+2?"] && server.answers == ["4"]
    ensures server.clients == [a, b] && a.server == server && b.server == server
    ensures server.inProgress && server.used == [0]
    ensures a != b && a.answer == Some("4") && b.answer == Some("4")
    ensures a.outbox == [QuestionLine("2+2?")] && b.outbox == [QuestionLine("2+2?")]
  {
    server := new Server.QuizServer(["2+2?"], ["4"]);
    a := server.Accept();
    b := server.Accept();
    assert server.clients == [a, b];
    StartRoundTrip();
    a.HandleMessage(StartLine);
    assert server.Current() == 0;
  }

  /**
   * The server side, second half: A answers right, then B answers wrong. The
   * bank has one question, so after the win the used list is cleared and the
   * question comes again.
   */
  method TwoPlayerRound() returns (outA: seq<string>, outB: seq<string>)
    ensures outA == [QuestionLine("2+2?"), CorrectLine, RevealLine(Some("4")), QuestionLine("2+2?")]
    ensures outB == [QuestionLine("2+2?"), RevealLine(Some("4")), QuestionLine("2+2?"), WrongLine]
  {
    var server, a, b := StartedRound();
    var question, revealed := QuestionLine("2+2?"), RevealLine(Some("4"));
    var right, wrong := AnswerPrefix + "4", AnswerPrefix + "four";
    assert StartsWith(right, AnswerPrefix) && right[9..] == "4";
    assert a.IsCorrect("4");
    a.HandleMessage(right);
    assert server.Current() == 0;
    assert a.outbox == [question, CorrectLine, revealed, question];
    assert b.outbox == [question, revealed, question];

    assert StartsWith(wrong, AnswerPrefix) && wrong[9..] == "four";
    assert !b.IsCorrect("four");
    b.HandleMessage(wrong);
    outA, outB := a.outbox, b.outbox;
  }

  /** The client side: A's client counts two questions and shows one point. */
  method WinnerScreen() returns (score: int, count: int, screen: string)
    ensures score == 1 && count == 2 && screen == Client.QuestionScreen(2, "2+2?")
  {
    var question, revealed := QuestionLine("2+2?"), RevealLine(Some("4"));
    QuestionRoundTrip("2+2?");
    CorrectRoundTrip();
    RevealRoundTrip(Some("4"));
    var client := new Client.QuizClient();
    var listening := client.Receive(question);
    assert client.questionCount == 1 && client.score == 0;
    listening := client.Receive(CorrectLine);
    assert client.questionCount == 1 && client.score == 1;
    listening := client.Receive(revealed);
    assert client.questionCount == 1 && client.score == 1;
    listening := client.Receive(question);
    assert client.questionCount == 2;
    score, count, screen := client.score, client.questionCount, client.display;
  }
}
