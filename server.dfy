/**
 * QuizServer_fix: the round state (question bank, used-index list, the
 * in-progress flag, the client registry) and the per-client handler that
 * dispatches incoming lines and judges answers. One event is handled at a
 * time; each println to a client appends a line to that client's outbox.
 */
module Server {
  import opened Options
  import opened JavaText
  import opened Protocol
  import opened Selection
  import opened Lists
  import opened Registry

  /** One connected client: the answer it is expected to give and the lines sent to it. */
  class ClientHandler {
    const server: QuizServer
    var answer: Option<string>
    var outbox: seq<string>

    constructor (server: QuizServer)
      ensures this.server == server && answer == None && outbox == []
    {
      this.server := server;
      answer := None;
      outbox := [];
    }

    method SendMessage(message: string)
      modifies this
      ensures outbox == old(outbox) + [message] && answer == old(answer)
    {
      outbox := outbox + [message];
    }

    method SetAnswer(a: Option<string>)
      modifies this
      ensures answer == a && outbox == old(outbox)
    {
      answer := a;
    }

    /**
     * The judgement of handleAnswer: an answer is held and the text equals it
     * ignoring case. With no answer held every text is wrong; the held answer
     * itself is always right, and a right text has the answer's length.
     */
    predicate IsCorrect(text: string)
      reads this
      ensures IsCorrect(text) ==> answer.Some? && |text| == |answer.value|
      ensures answer.Some? && text == answer.value ==> IsCorrect(text)
    {
      answer.Some? && EqualsIgnoreCase(text, answer.value)
    }

    /**
     * The effect of handleAnswer(text). A correct answer always comes while a
     * question is live: the submitter gets the point, every client gets the
     * reveal of its own answer field as it was, and the next question is
     * issued. A wrong answer only puts the rejection in the submitter's outbox.
     */
    twostate predicate AnswerHandled(text: string)
      reads this, server, server.clients
    {
      && server.clients == old(server.clients)
      && if old(IsCorrect(text)) then
           && old(server.inProgress)
           && server.Drew()
           && forall c :: c in server.clients ==>
                && c.answer == Some(server.answers[server.Current()])
                && c.outbox == old(c.outbox) + (if c == this then [CorrectLine] else []) +
                               [RevealLine(old(c.answer)), QuestionLine(server.questions[server.Current()])]
         else
           && server.used == old(server.used)
           && server.inProgress == old(server.inProgress)
           && outbox == old(outbox) + [WrongLine]
           && forall c :: c in server.clients ==>
                c.answer == old(c.answer) && (c != this ==> c.outbox == old(c.outbox))
    }

    method HandleAnswer(text: string)
      requires server.Valid() && server.BankReady() && this in server.clients
      modifies server, server.clients
      ensures server.Valid()
      ensures AnswerHandled(text)
    {
      if IsCorrect(text) {
        assert server.inProgress;
        SendMessage(CorrectLine);
        RevealAnswers();
        server.HandleAnswerReceived();
      } else {
        SendMessage(WrongLine);
      }
    }

    /** The loop of handleAnswer that sends every client the reveal of its own answer field. */
    method RevealAnswers()
      requires Distinct(server.clients)
      modifies server.clients
      ensures forall c :: c in server.clients ==>
        c.answer == old(c.answer) && c.outbox == old(c.outbox) + [RevealLine(old(c.answer))]
    {
      var snapshot := server.clients;
      for k := 0 to |snapshot|
        modifies snapshot
        invariant forall j :: 0 <= j < |snapshot| ==> snapshot[j].answer == old(snapshot[j].answer)
        invariant forall j :: 0 <= j < k ==>
          snapshot[j].outbox == old(snapshot[j].outbox) + [RevealLine(old(snapshot[j].answer))]
        invariant forall j :: k <= j < |snapshot| ==> snapshot[j].outbox == old(snapshot[j].outbox)
      {
        snapshot[k].SendMessage(RevealLine(snapshot[k].answer));
      }
    }

    /** handleMessage: "ANSWER_c " lines are judged, "START_c" starts a round only when none is live. */
    method HandleMessage(line: string)
      requires server.Valid() && server.BankReady() && this in server.clients
      modifies server, server.clients
      ensures server.Valid()
      ensures DecodeClient(line).Answer? ==> AnswerHandled(DecodeClient(line).text)
      ensures DecodeClient(line).Start? && !old(server.inProgress) ==> server.QuestionIssued()
      ensures DecodeClient(line).Ignored? || (DecodeClient(line).Start? && old(server.inProgress)) ==>
        server.Quiet()
    {
      match DecodeClient(line)
      case Answer(text) =>
        HandleAnswer(text);
      case Start =>
        if !server.inProgress {
          server.SendRandomQuestion();
        }
      case Ignored =>
    }

    /** The finally block of run: the handler leaves the registry, however its read loop ended. */
    method Finish()
      requires server.Valid()
      modifies server
      ensures server.Valid()
      ensures server.clients == RemoveFirst(old(server.clients), this)
      ensures this !in server.clients
      ensures forall c :: c in server.clients <==> c in old(server.clients) && c != this
      ensures server.used == old(server.used) && server.inProgress == old(server.inProgress)
    {
      server.RemoveClient(this);
    }
  }

  /** The round state shared by all handlers. */
  class QuizServer {
    const questions: seq<string>
    const answers: seq<string>
    var clients: seq<ClientHandler>
    var used: seq<nat>
    var inProgress: bool

    /** What every operation keeps true. */
    ghost predicate Valid()
      reads this, clients
    {
      && Distinct(clients)
      && ValidUsed(used, |questions|)
      && (inProgress ==> |used| > 0)
      && (!inProgress ==> forall c :: c in clients ==> c.answer == None)
    }

    /** A bank a question can be drawn from: non-empty, with an answer per question. */
    predicate BankReady() {
      0 < |questions| <= |answers|
    }

    /** The index of the question asked last. */
    function Current(): nat
      reads this
      requires |used| > 0
    {
      used[|used| - 1]
    }

    /** The used list went through the clearing step and gained one permitted draw; a question is live. */
    twostate predicate Drew()
      reads this
    {
      && BankReady()
      && inProgress
      && |used| > 0
      && used[..|used| - 1] == CycleBase(old(used), |questions|)
      && IsDraw(old(used), |questions|, Current())
      && |used| <= |questions|
    }

    /** One question was drawn; every registered client holds its answer and was sent it. */
    twostate predicate QuestionIssued()
      reads this, clients
    {
      && clients == old(clients)
      && Drew()
      && forall c :: c in clients ==>
           && c.answer == Some(answers[Current()])
           && c.outbox == old(c.outbox) + [QuestionLine(questions[Current()])]
    }

    /** Nothing observable changed. */
    twostate predicate Quiet()
      reads this, clients
    {
      && clients == old(clients)
      && used == old(used)
      && inProgress == old(inProgress)
      && forall c :: c in clients ==> c.answer == old(c.answer) && c.outbox == old(c.outbox)
    }

    /** The bank is passed in; the files it is read from are not part of this model. */
    constructor (questions: seq<string>, answers: seq<string>)
      ensures this.questions == questions && this.answers == answers
      ensures clients == [] && used == [] && !inProgress
      ensures Valid()
    {
      this.questions := questions;
      this.answers := answers;
      clients := [];
      used := [];
      inProgress := false;
    }

    /** The accept loop's registration of a new connection. */
    method Accept() returns (c: ClientHandler)
      requires Valid()
      modifies this
      ensures Valid()
      ensures fresh(c) && c.server == this && c.answer == None && c.outbox == []
      ensures clients == old(clients) + [c]
      ensures used == old(used) && inProgress == old(inProgress)
    {
      c := new ClientHandler(this);
      clients := clients + [c];
    }

    /** sendRandomQuestion */
    method SendRandomQuestion()
      requires Valid() && BankReady()
      modifies this, clients
      ensures Valid()
      ensures QuestionIssued()
    {
      if |used| == |questions| {
        used := [];
      }
      assert used == CycleBase(old(used), |questions|);
      DrawExists(old(used), |questions|);
      var i: nat :| i < |questions| && i !in used;
      DrawKeepsValid(old(used), |questions|, i);
      used := used + [i];
      var question := questions[i];
      var answer := answers[i];
      var snapshot := clients;
      for k := 0 to |snapshot|
        modifies snapshot
        invariant forall j :: 0 <= j < k ==>
          snapshot[j].answer == Some(answer) && snapshot[j].outbox == old(snapshot[j].outbox) + [QuestionLine(question)]
        invariant forall j :: k <= j < |snapshot| ==>
          snapshot[j].answer == old(snapshot[j].answer) && snapshot[j].outbox == old(snapshot[j].outbox)
      {
        snapshot[k].SetAnswer(Some(answer));
        snapshot[k].SendMessage(QuestionLine(question));
      }
      inProgress := true;
    }

    /** handleAnswerReceived: the compare-and-set closes the live question, then the next one is issued. */
    method HandleAnswerReceived()
      requires Valid() && BankReady()
      modifies this, clients
      ensures Valid()
      ensures old(inProgress) ==> QuestionIssued()
      ensures !old(inProgress) ==> Quiet()
    {
      if inProgress {
        inProgress := false;
        var snapshot := clients;
        for k := 0 to |snapshot|
          modifies snapshot
          invariant forall j :: 0 <= j < k ==>
            snapshot[j].answer == None && snapshot[j].outbox == old(snapshot[j].outbox)
          invariant forall j :: k <= j < |snapshot| ==>
            snapshot[j].answer == old(snapshot[j].answer) && snapshot[j].outbox == old(snapshot[j].outbox)
        {
          snapshot[k].SetAnswer(None);
        }
        SendRandomQuestion();
      }
    }

    /** removeClient */
    method RemoveClient(c: ClientHandler)
      requires Valid()
      modifies this
      ensures Valid()
      ensures clients == RemoveFirst(old(clients), c)
      ensures c !in clients
      ensures forall d :: d in clients <==> d in old(clients) && d != c
      ensures used == old(used) && inProgress == old(inProgress)
    {
      RemoveFirstDistinct(clients, c);
      clients := RemoveFirst(clients, c);
    }
  }
}
