/** One peer's game session: the replica it holds, the timers it has
    running, and the messages it has handed to the transport. Every local
    action applies its updater to the replica and broadcasts the matching
    message; every received message goes through the same updaters. Clock
    readings and the results of the question and scoring services arrive
    as parameters; each timer that fires is a method call. */
module GameHook {
  import opened GameTypes
  import Reducer

  /** Milliseconds the buzz collection window stays open. */
  const BuzzCollectionWindow := 200

  class GameSession {
    /** This peer's identity in the room. */
    const identity: string
    /** Whether the session has a room to broadcast to and receive from. */
    const hasRoom: bool

    var gameState: GameState
    /** The collection window is open: a local buzz started its timer and it
        has not fired yet. */
    var buzzTimerPending: bool
    /** The number of question countdown intervals still running. */
    var countdownTimers: nat
    /** Every message this peer has handed to the transport, in order. */
    var outbox: seq<GameMessage>

    ghost predicate Valid()
      reads this
    {
      Reducer.Consistent(gameState)
    }

    /** What one send hands to the transport: the envelope stamped with this
        peer's identity, or nothing when there is no room. */
    function Outgoing(t: GameMessageType, payload: Option<Payload>, now: int): (sent: seq<GameMessage>)
      reads this
      ensures |sent| == (if hasRoom then 1 else 0)
      ensures |sent| == 1 ==>
                sent[0].msgType == t && sent[0].timestamp == now
                && sent[0].sender == identity && sent[0].payload == payload
    {
      if hasRoom then [GameMessage(t, now, identity, payload)] else []
    }

    constructor (identity: string, hasRoom: bool)
      ensures Valid()
      ensures this.identity == identity && this.hasRoom == hasRoom
      ensures gameState == InitialState()
      ensures !buzzTimerPending && countdownTimers == 0 && outbox == []
    {
      this.identity := identity;
      this.hasRoom := hasRoom;
      gameState := InitialState();
      buzzTimerPending := false;
      countdownTimers := 0;
      outbox := [];
    }

    /** Registers a player on first sight; a known one changes nothing. */
    method AddPlayer(id: string)
      requires Valid()
      modifies this`gameState
      ensures Valid()
      ensures gameState == Reducer.AddPlayer(old(gameState), id)
      ensures id in gameState.players
    {
      gameState := Reducer.AddPlayer(gameState, id);
    }

    /** The host starts a game of `totalRounds` rounds: it announces the start
        and the round total, registers itself, and waits for a question in
        round one. */
    method StartGame(totalRounds: int, startSentAt: int, roundsSentAt: int)
      requires Valid()
      modifies this`gameState, this`outbox
      ensures Valid()
      ensures outbox == old(outbox)
                        + Outgoing(GameMessageType.StartGame, None, startSentAt)
                        + Outgoing(GameMessageType.ConfigureRounds, Some(RoundsConfig(totalRounds)), roundsSentAt)
      ensures gameState == Reducer.StartGame(Reducer.AddPlayer(old(gameState), identity), totalRounds)
      ensures identity in gameState.players
      ensures gameState.isGameActive && gameState.stage == Waiting
      ensures gameState.currentRound == 1 && gameState.totalRounds == totalRounds
    {
      outbox := outbox + Outgoing(GameMessageType.StartGame, None, startSentAt);
      outbox := outbox + Outgoing(GameMessageType.ConfigureRounds, Some(RoundsConfig(totalRounds)), roundsSentAt);
      AddPlayer(identity);
      gameState := Reducer.StartGame(gameState, totalRounds);
    }

    /** Chooses the content questions are drawn from and announces it. */
    method SetContent(contentId: string, now: int)
      requires Valid()
      modifies this`gameState, this`outbox
      ensures Valid()
      ensures outbox == old(outbox) + Outgoing(GameMessageType.SetContent, Some(ContentChoice(contentId)), now)
      ensures gameState == Reducer.SetContent(old(gameState), contentId)
    {
      outbox := outbox + Outgoing(GameMessageType.SetContent, Some(ContentChoice(contentId)), now);
      gameState := Reducer.SetContent(gameState, contentId);
    }

    /** The question service answered (`fetched`, or None when the request
        failed): a question is broadcast, displayed, and its countdown
        starts; a failure changes nothing. */
    method GenerateQuestion(fetched: Option<Question>, now: int)
      requires Valid()
      modifies this`gameState, this`outbox, this`countdownTimers
      ensures Valid()
      ensures fetched.None? ==>
                gameState == old(gameState) && outbox == old(outbox)
                && countdownTimers == old(countdownTimers)
      ensures fetched.Some? ==>
                gameState == Reducer.ShowQuestion(old(gameState), fetched.value)
                && outbox == old(outbox) + Outgoing(NewQuestion, Some(QuestionPayload(fetched.value)), now)
                && countdownTimers == old(countdownTimers) + 1
    {
      if fetched.None? {
        return;
      }
      var question := fetched.value;
      outbox := outbox + Outgoing(NewQuestion, Some(QuestionPayload(question)), now);
      gameState := Reducer.ShowQuestion(gameState, question);
      countdownTimers := countdownTimers + 1;
    }

    /** One running countdown interval fires: a second off the countdown;
        the interval that opens buzzing stops itself. */
    method CountdownTick()
      requires Valid() && countdownTimers > 0
      modifies this`gameState, this`countdownTimers
      ensures Valid()
      ensures gameState == Reducer.CountdownTick(old(gameState))
      ensures countdownTimers == if old(gameState).countdown <= 1 then old(countdownTimers) - 1
                                 else old(countdownTimers)
    {
      var newCountdown := gameState.countdown - 1;
      gameState := Reducer.CountdownTick(gameState);
      if newCountdown <= 0 {
        countdownTimers := countdownTimers - 1;
      }
    }

    /** This player buzzes. Outside the buzzing stage nothing happens.
        Otherwise the buzz is broadcast with clock `buzzedAt` in its payload
        and `sentAt` on its envelope, stored with clock `storedAt` (three
        separate clock readings), and the collection window opens unless it
        already is. */
    method BuzzIn(buzzedAt: int, sentAt: int, storedAt: int)
      requires Valid()
      modifies this`gameState, this`outbox, this`buzzTimerPending
      ensures Valid()
      ensures old(gameState).stage != Buzzing ==>
                gameState == old(gameState) && outbox == old(outbox)
                && buzzTimerPending == old(buzzTimerPending)
      ensures old(gameState).stage == Buzzing ==>
                gameState == Reducer.AppendBuzz(old(gameState), BuzzAttempt(identity, storedAt))
                && outbox == old(outbox) + Outgoing(GameMessageType.BuzzIn, Some(BuzzPayload(buzzedAt)), sentAt)
                && buzzTimerPending
    {
      if gameState.stage != Buzzing {
        return;
      }
      outbox := outbox + Outgoing(GameMessageType.BuzzIn, Some(BuzzPayload(buzzedAt)), sentAt);
      gameState := Reducer.AppendBuzz(gameState, BuzzAttempt(identity, storedAt));
      if !buzzTimerPending {
        buzzTimerPending := true;
      }
    }

    /** The collection window closes. With no attempt nothing changes;
        otherwise this peer decides the race, broadcasts the winner and
        hands them the turn. The window is closed either way. */
    method FireBuzzWindow(now: int)
      requires Valid() && buzzTimerPending
      modifies this`gameState, this`outbox, this`buzzTimerPending
      ensures Valid() && !buzzTimerPending
      ensures gameState == Reducer.ResolveBuzz(old(gameState))
      ensures old(gameState).buzzAttempts == [] ==> outbox == old(outbox)
      ensures old(gameState).buzzAttempts != [] ==>
                var winner := Reducer.Winner(old(gameState).buzzAttempts);
                outbox == old(outbox) + Outgoing(BuzzWinner, Some(WinnerPayload(winner)), now)
                && gameState.currentAnswerer == Some(winner) && gameState.stage == Answering
    {
      if gameState.buzzAttempts != [] {
        var winner := Reducer.Winner(gameState.buzzAttempts);
        outbox := outbox + Outgoing(BuzzWinner, Some(WinnerPayload(winner)), now);
      }
      gameState := Reducer.ResolveBuzz(gameState);
      buzzTimerPending := false;
    }

    /** This player submits an answer: it is broadcast and recorded, and the
        round moves to scoring. When a question is on and the scoring
        service returns `evaluation`, the score is broadcast, shown, and
        added to the answerer's entry; a failed evaluation stops there. */
    method SubmitAnswer(transcript: string, evaluation: Option<FinalScore>, answerSentAt: int, scoreSentAt: int)
      requires Valid()
      modifies this`gameState, this`outbox
      ensures Valid()
      ensures var answered := Reducer.RecordAnswer(old(gameState), transcript);
              var answerMsg := Outgoing(AnswerSubmitted, Some(AnswerPayload(transcript, identity)), answerSentAt);
              if old(gameState).currentQuestion.None? || evaluation.None? then
                gameState == answered && outbox == old(outbox) + answerMsg
              else
                gameState == Reducer.CreditAnswerer(Reducer.RecordFinalScore(answered, evaluation.value), evaluation.value)
                && outbox == old(outbox) + answerMsg
                             + Outgoing(ScoreReady, Some(ScorePayload(evaluation.value, identity)), scoreSentAt)
      ensures gameState.stage == Scoring
      ensures gameState.players.Keys == old(gameState).players.Keys
    {
      outbox := outbox + Outgoing(AnswerSubmitted, Some(AnswerPayload(transcript, identity)), answerSentAt);
      gameState := Reducer.RecordAnswer(gameState, transcript);
      if gameState.currentQuestion.None? {
        return;
      }
      if evaluation.None? {
        return;
      }
      var finalScore := evaluation.value;
      outbox := outbox + Outgoing(ScoreReady, Some(ScorePayload(finalScore, identity)), scoreSentAt);
      gameState := Reducer.RecordFinalScore(gameState, finalScore);
      gameState := Reducer.CreditAnswerer(gameState, finalScore);
    }

    /** The host moves on. Past the last round the game ends and END_GAME is
        broadcast; otherwise the round advances, NEXT_ROUND is broadcast,
        and a new question is requested (`requestsQuestion`). */
    method NextRound(now: int) returns (requestsQuestion: bool)
      requires Valid()
      modifies this`gameState, this`outbox
      ensures Valid()
      ensures gameState == Reducer.NextRound(old(gameState))
      ensures requestsQuestion <==> old(gameState).currentRound + 1 <= old(gameState).totalRounds
      ensures requestsQuestion ==> outbox == old(outbox) + Outgoing(GameMessageType.NextRound, None, now)
      ensures !requestsQuestion ==>
                outbox == old(outbox) + Outgoing(GameMessageType.EndGame, None, now)
                && gameState.stage == GameOver
    {
      var nextRoundNumber := gameState.currentRound + 1;
      if nextRoundNumber > gameState.totalRounds {
        outbox := outbox + Outgoing(GameMessageType.EndGame, None, now);
        requestsQuestion := false;
      } else {
        outbox := outbox + Outgoing(GameMessageType.NextRound, None, now);
        requestsQuestion := true;
      }
      gameState := Reducer.NextRound(gameState);
    }

    /** Back to the waiting room with the roster kept and scores zeroed.
        Running timers are not cancelled. */
    method ResetGame()
      requires Valid()
      modifies this`gameState
      ensures Valid()
      ensures gameState == Reducer.ResetGame(old(gameState))
    {
      gameState := Reducer.ResetGame(gameState);
    }

    /** Whether receiving `decoded` starts a question countdown here. */
    predicate StartsCountdown(decoded: Option<GameMessage>)
    {
      && Reducer.Replayed(identity, decoded)
      && decoded.value.msgType == NewQuestion
      && decoded.value.payload.Some?
      && decoded.value.payload.value.QuestionPayload?
    }

    /** A message arrives from the room, already decoded (None when it could
        not be). Failures and echoes of this peer's own messages change
        nothing; any other registers its sender and is dispatched. Receiving
        never opens the collection window and never sends. */
    method Receive(decoded: Option<GameMessage>)
      requires Valid() && hasRoom
      modifies this`gameState, this`countdownTimers
      ensures Valid()
      ensures gameState == Reducer.HandleData(old(gameState), identity, decoded)
      ensures countdownTimers == old(countdownTimers) + (if StartsCountdown(decoded) then 1 else 0)
    {
      if decoded.None? {
        return;
      }
      var message := decoded.value;
      if message.sender == identity {
        return;
      }
      AddPlayer(message.sender);
      gameState := Reducer.ApplyMessage(gameState, message);
      if message.msgType == NewQuestion && message.payload.Some? && message.payload.value.QuestionPayload? {
        countdownTimers := countdownTimers + 1;
      }
    }
  }

  /** Two players race: "A" on this peer buzzes at 100 and "B" at 90 on
      another peer. The earlier buzz wins on the peer that resolves it. */
  method TwoPlayerRace(q: Question) returns (winner: Option<string>)
    ensures winner == Some("B")
  {
    var session := new GameSession("A", true);
    session.GenerateQuestion(Some(q), 0);
    ghost var shown := session.gameState;
    Reducer.TicksReachBuzzing(shown);
    var n := 0;
    while n < Reducer.QuestionCountdown
      invariant 0 <= n <= Reducer.QuestionCountdown
      invariant session.Valid()
      invariant session.countdownTimers == if n < Reducer.QuestionCountdown then 1 else 0
      invariant session.gameState == Reducer.Ticks(shown, n)
    {
      Reducer.TicksCountDown(shown, n);
      session.CountdownTick();
      n := n + 1;
    }
    var buzzB := GameMessage(GameMessageType.BuzzIn, 90, "B", Some(BuzzPayload(90)));
    Reducer.RemoteBuzzIgnoresStage(session.gameState, "A", buzzB);
    session.Receive(Some(buzzB));
    assert session.gameState.stage == Buzzing;
    session.BuzzIn(100, 100, 100);
    assert session.gameState.buzzAttempts == [BuzzAttempt("B", 90), BuzzAttempt("A", 100)];
    session.FireBuzzWindow(100 + BuzzCollectionWindow);
    winner := session.gameState.currentAnswerer;
  }
}
