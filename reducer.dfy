/** The state updaters of the game hook: each local action and each remote
    message changes a peer's replica by one of these `prev => next`
    functions. Their contracts say what each transition changes and that it
    keeps the replica's invariant; the lemmas at the end relate several
    transitions (countdowns, rounds, the buzz race). */
module Reducer {
  import opened GameTypes

  /** Seconds a question is shown before buzzing opens. */
  const QuestionCountdown := 10

  /** Seconds the buzz winner has to answer. */
  const AnswerCountdown := 90

  /** The invariant every transition keeps: the roster is keyed by identity,
      an answering stage has an answerer, a displayed question is counting
      down from at most ten, and buzzing has no countdown left. */
  predicate Consistent(s: GameState)
  {
    && (forall id :: id in s.players ==> s.players[id].identity == id)
    && (s.stage == Answering ==> s.currentAnswerer.Some?)
    && (s.stage == QuestionDisplay ==> 1 <= s.countdown <= QuestionCountdown)
    && (s.stage == Buzzing ==> s.countdown == 0)
  }

  lemma InitialStateIsConsistent()
    ensures Consistent(InitialState())
  {
  }

  /** Registers a player on first sight: a known identity leaves the replica
      as it is, a new one gets exactly one fresh entry. */
  function AddPlayer(prev: GameState, id: string): (next: GameState)
    ensures id in prev.players ==> next == prev
    ensures next.players.Keys == prev.players.Keys + {id}
    ensures |next.players| == if id in prev.players then |prev.players| else |prev.players| + 1
    ensures forall k :: k in prev.players ==> next.players[k] == prev.players[k]
    ensures id !in prev.players ==> next.players[id] == Player(id, 0, false, false)
    ensures next.(players := prev.players) == prev
    ensures Consistent(prev) ==> Consistent(next)
  {
    if id in prev.players then prev
    else prev.(players := prev.players[id := Player(id, 0, false, false)])
  }

  lemma AddPlayerIdempotent(s: GameState, id: string)
    ensures AddPlayer(AddPlayer(s, id), id) == AddPlayer(s, id)
  {
  }

  /** The host's own start: the game becomes active, waits for a question,
      and counts rounds from one up to the chosen total. */
  function StartGame(prev: GameState, totalRounds: int): (next: GameState)
    ensures next.isGameActive && next.stage == Waiting
    ensures next.currentRound == 1 && next.totalRounds == totalRounds
    ensures next.(isGameActive := prev.isGameActive, stage := prev.stage,
                  currentRound := prev.currentRound, totalRounds := prev.totalRounds) == prev
    ensures Consistent(prev) ==> Consistent(next)
  {
    prev.(isGameActive := true, stage := Waiting, currentRound := 1, totalRounds := totalRounds)
  }

  /** A remote START_GAME: active, round one, and nothing else changes (the
      stage in particular is left as it is). */
  function StartRemoteGame(prev: GameState): (next: GameState)
    ensures next.isGameActive && next.currentRound == 1
    ensures next.(isGameActive := prev.isGameActive, currentRound := prev.currentRound) == prev
    ensures Consistent(prev) ==> Consistent(next)
  {
    prev.(isGameActive := true, currentRound := 1)
  }

  /** A remote CONFIGURE_ROUNDS: the host's round total replaces the local one. */
  function ConfigureRounds(prev: GameState, totalRounds: int): (next: GameState)
    ensures next.totalRounds == totalRounds
    ensures next.(totalRounds := prev.totalRounds) == prev
    ensures Consistent(prev) ==> Consistent(next)
  {
    prev.(totalRounds := totalRounds)
  }

  /** Local setContent and remote SET_CONTENT: the content questions are drawn from. */
  function SetContent(prev: GameState, contentId: string): (next: GameState)
    ensures next.currentContentId == Some(contentId)
    ensures next.(currentContentId := prev.currentContentId) == prev
    ensures Consistent(prev) ==> Consistent(next)
  {
    prev.(currentContentId := Some(contentId))
  }

  /** The question this peer generated: a fresh round of display, with every
      trace of the previous round (answerer, buzzes, answers, score) cleared. */
  function ShowQuestion(prev: GameState, q: Question): (next: GameState)
    ensures next.stage == QuestionDisplay && next.countdown == QuestionCountdown
    ensures next.currentQuestion == Some(q)
    ensures next.currentAnswerer.None? && next.buzzAttempts == []
    ensures next.answer.None? && next.followUpQuestions == [] && next.followUpAnswers == []
    ensures next.finalScore.None?
    ensures next.players == prev.players && next.isGameActive == prev.isGameActive
    ensures next.currentRound == prev.currentRound && next.totalRounds == prev.totalRounds
    ensures next.currentContentId == prev.currentContentId
    ensures Consistent(prev) ==> Consistent(next)
  {
    prev.(stage := QuestionDisplay, currentQuestion := Some(q), currentAnswerer := None,
          buzzAttempts := [], answer := None, followUpQuestions := [], followUpAnswers := [],
          finalScore := None, countdown := QuestionCountdown)
  }

  /** A question received from another peer: the same display and countdown,
      but the previous answer, follow-ups and final score are kept. */
  function ShowRemoteQuestion(prev: GameState, q: Question): (next: GameState)
    ensures next.stage == QuestionDisplay && next.countdown == QuestionCountdown
    ensures next.currentQuestion == Some(q)
    ensures next.currentAnswerer.None? && next.buzzAttempts == []
    ensures next.(stage := prev.stage, currentQuestion := prev.currentQuestion,
                  currentAnswerer := prev.currentAnswerer, buzzAttempts := prev.buzzAttempts,
                  countdown := prev.countdown) == prev
    ensures Consistent(prev) ==> Consistent(next)
  {
    prev.(stage := QuestionDisplay, currentQuestion := Some(q), currentAnswerer := None,
          buzzAttempts := [], countdown := QuestionCountdown)
  }

  /** One second of the question countdown. The tick that brings the count
      to zero or below opens buzzing. The tick does not look at the stage. */
  function CountdownTick(prev: GameState): (next: GameState)
    ensures next.countdown == if prev.countdown <= 1 then 0 else prev.countdown - 1
    ensures next.stage == if prev.countdown <= 1 then Buzzing else prev.stage
    ensures next.(stage := prev.stage, countdown := prev.countdown) == prev
    ensures Consistent(prev) ==> Consistent(next)
  {
    var newCountdown := prev.countdown - 1;
    if newCountdown <= 0 then prev.(stage := Buzzing, countdown := 0)
    else prev.(countdown := newCountdown)
  }

  /** A buzz joins the race: appended after the earlier ones, nothing else
      changes. */
  function AppendBuzz(prev: GameState, attempt: BuzzAttempt): (next: GameState)
    ensures next.buzzAttempts == prev.buzzAttempts + [attempt]
    ensures |next.buzzAttempts| == |prev.buzzAttempts| + 1
    ensures next.(buzzAttempts := prev.buzzAttempts) == prev
    ensures Consistent(prev) ==> Consistent(next)
  {
    prev.(buzzAttempts := prev.buzzAttempts + [attempt])
  }

  /** The minimum-timestamp fold over the attempts from index `i` on, with
      `best` the index of the attempt kept so far. A later attempt replaces
      it only when strictly earlier, so ties stay with the earlier one. */
  function ReduceEarliest(attempts: seq<BuzzAttempt>, best: nat, i: nat): (k: nat)
    requires best < i <= |attempts|
    requires forall j :: 0 <= j < i ==> attempts[best].timestamp <= attempts[j].timestamp
    requires forall j :: 0 <= j < best ==> attempts[j].timestamp > attempts[best].timestamp
    ensures k < |attempts|
    ensures forall j :: 0 <= j < |attempts| ==> attempts[k].timestamp <= attempts[j].timestamp
    ensures forall j :: 0 <= j < k ==> attempts[j].timestamp > attempts[k].timestamp
    decreases |attempts| - i
  {
    if i == |attempts| then best
    else if attempts[i].timestamp < attempts[best].timestamp then ReduceEarliest(attempts, i, i + 1)
    else ReduceEarliest(attempts, best, i + 1)
  }

  /** The index of the buzz that wins: the smallest timestamp, and among
      equal smallest timestamps the one appended first. */
  function EarliestIndex(attempts: seq<BuzzAttempt>): (k: nat)
    requires |attempts| > 0
    ensures k < |attempts|
    ensures forall j :: 0 <= j < |attempts| ==> attempts[k].timestamp <= attempts[j].timestamp
    ensures forall j :: 0 <= j < k ==> attempts[j].timestamp > attempts[k].timestamp
  {
    ReduceEarliest(attempts, 0, 1)
  }

  /** The identity of the winning buzz: an attempt with the minimum
      timestamp, and the first of them when several share it. */
  function Winner(attempts: seq<BuzzAttempt>): (w: string)
    requires |attempts| > 0
    ensures exists k :: 0 <= k < |attempts| && attempts[k].identity == w
                        && (forall j :: 0 <= j < |attempts| ==> attempts[k].timestamp <= attempts[j].timestamp)
                        && (forall j :: 0 <= j < k ==> attempts[j].timestamp > attempts[k].timestamp)
  {
    var k := EarliestIndex(attempts);
    attempts[k].identity
  }

  /** The floor is handed to one player: answering, with the answer countdown. */
  function AwardTurn(prev: GameState, winner: string): (next: GameState)
    ensures next.stage == Answering && next.currentAnswerer == Some(winner)
    ensures next.countdown == AnswerCountdown
    ensures next.(stage := prev.stage, currentAnswerer := prev.currentAnswerer,
                  countdown := prev.countdown) == prev
    ensures Consistent(prev) ==> Consistent(next)
  {
    prev.(stage := Answering, currentAnswerer := Some(winner), countdown := AnswerCountdown)
  }

  /** The collection window closes: with no attempt nothing happens,
      otherwise the earliest buzz wins the turn. The stage is not checked. */
  function ResolveBuzz(prev: GameState): (next: GameState)
    ensures prev.buzzAttempts == [] ==> next == prev
    ensures prev.buzzAttempts != [] ==>
              next == AwardTurn(prev, Winner(prev.buzzAttempts))
              && next.stage == Answering && next.countdown == AnswerCountdown
    ensures Consistent(prev) ==> Consistent(next)
  {
    if |prev.buzzAttempts| == 0 then prev
    else AwardTurn(prev, Winner(prev.buzzAttempts))
  }

  /** An answer is in (local submission or remote ANSWER_SUBMITTED): it is
      recorded and the round moves to scoring. */
  function RecordAnswer(prev: GameState, transcript: string): (next: GameState)
    ensures next.stage == Scoring && next.answer == Some(Answer(transcript))
    ensures next.(stage := prev.stage, answer := prev.answer) == prev
    ensures Consistent(prev) ==> Consistent(next)
  {
    prev.(answer := Some(Answer(transcript)), stage := Scoring)
  }

  /** A final score is in (local result or remote SCORE_READY): it is shown
      in the scoring stage; no player's score changes. */
  function RecordFinalScore(prev: GameState, finalScore: FinalScore): (next: GameState)
    ensures next.stage == Scoring && next.finalScore == Some(finalScore)
    ensures next.players == prev.players
    ensures next.(stage := prev.stage, finalScore := prev.finalScore) == prev
    ensures Consistent(prev) ==> Consistent(next)
  {
    prev.(stage := Scoring, finalScore := Some(finalScore))
  }

  /** The key the score update looks up: the answerer, or the empty string
      when there is none. */
  function AnswererKey(s: GameState): string
  {
    if s.currentAnswerer.Some? then s.currentAnswerer.value else ""
  }

  /** Adds a final score to the answerer's entry and closes their turn. No
      other entry changes, and without such an entry nothing changes. */
  function CreditAnswerer(prev: GameState, finalScore: FinalScore): (next: GameState)
    ensures next.players.Keys == prev.players.Keys
    ensures forall k :: k in prev.players && k != AnswererKey(prev) ==> next.players[k] == prev.players[k]
    ensures AnswererKey(prev) in prev.players ==>
              var p := prev.players[AnswererKey(prev)];
              next.players[AnswererKey(prev)] == p.(score := p.score + finalScore.totalScore,
                                                    hasAnswered := true, isAnswering := false)
    ensures AnswererKey(prev) !in prev.players ==> next == prev
    ensures finalScore.totalScore >= 0 ==>
              forall k :: k in prev.players ==> next.players[k].score >= prev.players[k].score
    ensures next.(players := prev.players) == prev
    ensures Consistent(prev) ==> Consistent(next)
  {
    var key := AnswererKey(prev);
    if key in prev.players then
      var p := prev.players[key];
      prev.(players := prev.players[key := p.(score := p.score + finalScore.totalScore,
                                              hasAnswered := true, isAnswering := false)])
    else prev
  }

  /** The host moves on: past the last round the game is over and the round
      counter stays; otherwise the counter advances by exactly one. */
  function NextRound(prev: GameState): (next: GameState)
    ensures prev.currentRound + 1 > prev.totalRounds ==>
              next.stage == GameOver && next.currentRound == prev.currentRound
    ensures prev.currentRound + 1 <= prev.totalRounds ==>
              next.currentRound == prev.currentRound + 1 && next.stage == prev.stage
    ensures next.stage == GameOver || next.currentRound <= next.totalRounds
    ensures next.(stage := prev.stage, currentRound := prev.currentRound) == prev
    ensures Consistent(prev) ==> Consistent(next)
  {
    var nextRoundNumber := prev.currentRound + 1;
    if nextRoundNumber > prev.totalRounds then EndGame(prev)
    else prev.(currentRound := nextRoundNumber)
  }

  /** The game ends; only the stage changes. */
  function EndGame(prev: GameState): (next: GameState)
    ensures next.stage == GameOver
    ensures next.(stage := prev.stage) == prev
    ensures Consistent(prev) ==> Consistent(next)
  {
    prev.(stage := GameOver)
  }

  /** Back to the initial replica, except that the roster is kept (same
      identities, scores zeroed, flags cleared) and so is the content id. */
  function ResetGame(prev: GameState): (next: GameState)
    ensures next.(players := map[], currentContentId := None) == InitialState()
    ensures next.currentContentId == prev.currentContentId
    ensures next.players.Keys == prev.players.Keys
    ensures forall k :: k in prev.players ==>
              next.players[k] == prev.players[k].(score := 0, isAnswering := false, hasAnswered := false)
    ensures Consistent(prev) ==> Consistent(next)
  {
    prev.(stage := Waiting, isGameActive := false, currentRound := 0,
          totalRounds := DefaultTotalRounds, currentQuestion := None, currentAnswerer := None,
          buzzAttempts := [], answer := None, followUpQuestions := [], followUpAnswers := [],
          finalScore := None, countdown := 0,
          players := map k | k in prev.players ::
                       prev.players[k].(score := 0, isAnswering := false, hasAnswered := false))
  }

  /** The message types the dispatcher has a case for. */
  predicate Handled(t: GameMessageType)
  {
    t in {GameMessageType.StartGame, GameMessageType.ConfigureRounds, GameMessageType.EndGame,
          GameMessageType.SetContent, NewQuestion, BuzzIn, BuzzWinner, AnswerSubmitted, ScoreReady}
  }

  /** The dispatcher's switch on the message type, applied after the sender
      is registered. A type with no case, or a payload without the field its
      case reads, changes nothing. No case touches the roster. */
  function ApplyMessage(prev: GameState, msg: GameMessage): (next: GameState)
    ensures !Handled(msg.msgType) ==> next == prev
    ensures next.players == prev.players
    ensures Consistent(prev) ==> Consistent(next)
  {
    match msg.msgType
    case StartGame => StartRemoteGame(prev)
    case ConfigureRounds =>
      if msg.payload.Some? && msg.payload.value.RoundsConfig?
      then ConfigureRounds(prev, msg.payload.value.totalRounds) else prev
    case EndGame => EndGame(prev)
    case SetContent =>
      if msg.payload.Some? && msg.payload.value.ContentChoice?
      then SetContent(prev, msg.payload.value.contentId) else prev
    case NewQuestion =>
      if msg.payload.Some? && msg.payload.value.QuestionPayload?
      then ShowRemoteQuestion(prev, msg.payload.value.question) else prev
    case BuzzIn =>
      if msg.payload.Some? && msg.payload.value.BuzzPayload?
      then AppendBuzz(prev, BuzzAttempt(msg.sender, msg.payload.value.buzzedAt)) else prev
    case BuzzWinner =>
      if msg.payload.Some? && msg.payload.value.WinnerPayload?
      then AwardTurn(prev, msg.payload.value.winner) else prev
    case AnswerSubmitted =>
      if msg.payload.Some? && msg.payload.value.AnswerPayload?
      then RecordAnswer(prev, msg.payload.value.transcript) else prev
    case ScoreReady =>
      if msg.payload.Some? && msg.payload.value.ScorePayload?
      then RecordFinalScore(prev, msg.payload.value.finalScore) else prev
    case _ => prev
  }

  /** Whether a received message is replayed: it decoded, and it is not an
      echo of this peer's own broadcast. */
  predicate Replayed(identity: string, decoded: Option<GameMessage>)
  {
    decoded.Some? && decoded.value.sender != identity
  }

  /** The whole receive path of a peer with identity `identity`: a message
      that failed to decode or that this peer sent itself changes nothing;
      any other first registers its sender and is then dispatched. */
  function HandleData(prev: GameState, identity: string, decoded: Option<GameMessage>): (next: GameState)
    ensures !Replayed(identity, decoded) ==> next == prev
    ensures Replayed(identity, decoded) ==>
              next == ApplyMessage(AddPlayer(prev, decoded.value.sender), decoded.value)
              && decoded.value.sender in next.players
    ensures next.players.Keys >= prev.players.Keys
    ensures forall k :: k in prev.players ==> next.players[k] == prev.players[k]
    ensures Consistent(prev) ==> Consistent(next)
  {
    if decoded.None? then prev
    else
      var msg := decoded.value;
      if msg.sender == identity then prev
      else ApplyMessage(AddPlayer(prev, msg.sender), msg)
  }

  // ----- Properties relating several transitions -----

  /** A message type with no case (NEXT_ROUND, the follow-up types,
      START_ANSWERING, PLAYER_JOINED, SYNC_STATE) only registers its sender. */
  lemma UnhandledMessageOnlyRegisters(prev: GameState, identity: string, msg: GameMessage)
    requires msg.sender != identity && !Handled(msg.msgType)
    ensures HandleData(prev, identity, Some(msg)) == AddPlayer(prev, msg.sender)
  {
  }

  /** A remote SCORE_READY shows the score but credits no one: the roster
      is the one before, with only the sender registered. */
  lemma RemoteScoreLeavesScoresAlone(prev: GameState, identity: string, msg: GameMessage)
    requires msg.sender != identity && msg.msgType == ScoreReady
    ensures HandleData(prev, identity, Some(msg)).players == AddPlayer(prev, msg.sender).players
    ensures msg.payload.Some? && msg.payload.value.ScorePayload? ==>
              HandleData(prev, identity, Some(msg)).stage == Scoring
              && HandleData(prev, identity, Some(msg)).finalScore == Some(msg.payload.value.finalScore)
  {
  }

  /** A remote BUZZ_IN is appended whatever the stage, even after the race
      has been decided, with the clock its payload carries. */
  lemma RemoteBuzzIgnoresStage(prev: GameState, identity: string, msg: GameMessage)
    requires msg.sender != identity && msg.msgType == BuzzIn
    requires msg.payload.Some? && msg.payload.value.BuzzPayload?
    ensures HandleData(prev, identity, Some(msg)).buzzAttempts
              == prev.buzzAttempts + [BuzzAttempt(msg.sender, msg.payload.value.buzzedAt)]
    ensures HandleData(prev, identity, Some(msg)).stage == prev.stage
  {
  }

  /** A received BUZZ_WINNER hands the turn to the announced winner,
      whoever this replica had named before. */
  lemma RemoteWinnerTakesTurn(prev: GameState, identity: string, msg: GameMessage)
    requires msg.sender != identity && msg.msgType == BuzzWinner
    requires msg.payload.Some? && msg.payload.value.WinnerPayload?
    ensures HandleData(prev, identity, Some(msg)).currentAnswerer == Some(msg.payload.value.winner)
    ensures HandleData(prev, identity, Some(msg)).stage == Answering
  {
  }

  /** A local question and the same question replayed on another peer agree
      on everything the round depends on. */
  lemma QuestionReplayAgrees(local: GameState, remote: GameState, q: Question)
    ensures var l, r := ShowQuestion(local, q), ShowRemoteQuestion(remote, q);
            l.stage == r.stage && l.currentQuestion == r.currentQuestion
            && l.currentAnswerer == r.currentAnswerer && l.buzzAttempts == r.buzzAttempts
            && l.countdown == r.countdown
  {
  }

  /** `n` seconds of the question countdown. */
  function Ticks(s: GameState, n: nat): GameState
  {
    if n == 0 then s else CountdownTick(Ticks(s, n - 1))
  }

  /** Before the count runs out each tick takes exactly one second off and
      leaves everything else alone. */
  lemma {:induction false} TicksCountDown(s: GameState, n: nat)
    requires n < s.countdown
    ensures Ticks(s, n) == s.(countdown := s.countdown - n)
  {
    if n > 0 {
      TicksCountDown(s, n - 1);
    }
  }

  /** A countdown of `c` seconds opens buzzing on exactly its `c`-th tick. */
  lemma TicksReachBuzzing(s: GameState)
    requires s.countdown >= 1
    ensures forall n :: 0 <= n < s.countdown ==> Ticks(s, n).stage == s.stage
    ensures Ticks(s, s.countdown) == s.(stage := Buzzing, countdown := 0)
  {
    forall n | 0 <= n < s.countdown
      ensures Ticks(s, n).stage == s.stage
    {
      TicksCountDown(s, n);
    }
    TicksCountDown(s, s.countdown - 1);
  }

  /** A new question, local or received, is displayed for nine ticks and
      opens buzzing on the tenth. */
  lemma QuestionOpensBuzzingAfterTenTicks(prev: GameState, q: Question)
    ensures forall n :: 0 <= n < 10 ==> Ticks(ShowQuestion(prev, q), n).stage == QuestionDisplay
    ensures forall n :: 0 <= n < 10 ==> Ticks(ShowRemoteQuestion(prev, q), n).stage == QuestionDisplay
    ensures Ticks(ShowQuestion(prev, q), 10).stage == Buzzing
    ensures Ticks(ShowRemoteQuestion(prev, q), 10).stage == Buzzing
  {
    TicksReachBuzzing(ShowQuestion(prev, q));
    TicksReachBuzzing(ShowRemoteQuestion(prev, q));
  }

  /** `n` NEXT_ROUND steps by the host. */
  function Rounds(s: GameState, n: nat): GameState
  {
    if n == 0 then s else NextRound(Rounds(s, n - 1))
  }

  /** While rounds remain, `n` steps advance the counter by exactly `n`. */
  lemma {:induction false} RoundsAdvance(s: GameState, n: nat)
    requires s.currentRound + n <= s.totalRounds
    ensures Rounds(s, n) == s.(currentRound := s.currentRound + n)
  {
    if n > 0 {
      RoundsAdvance(s, n - 1);
    }
  }

  /** From a round within the total, the step after the last round ends
      the game, and no earlier step does. */
  lemma GameOverExactlyAfterLastRound(s: GameState)
    requires s.currentRound <= s.totalRounds && s.stage != GameOver
    ensures var remaining := s.totalRounds - s.currentRound;
            (forall n :: 0 <= n <= remaining ==> Rounds(s, n).stage == s.stage)
            && Rounds(s, remaining + 1).stage == GameOver
            && Rounds(s, remaining + 1).currentRound == s.totalRounds
  {
    var remaining := s.totalRounds - s.currentRound;
    forall n | 0 <= n <= remaining
      ensures Rounds(s, n).stage == s.stage
    {
      RoundsAdvance(s, n);
    }
    RoundsAdvance(s, remaining);
  }

  /** Three rounds, starting in round one: the third step ends the game. */
  lemma ThreeRoundGame(s: GameState)
    requires s.currentRound == 1 && s.totalRounds == 3 && s.stage == Scoring
    ensures Rounds(s, 2).currentRound == 3 && Rounds(s, 2).stage == Scoring
    ensures Rounds(s, 3).stage == GameOver
  {
    GameOverExactlyAfterLastRound(s);
  }

  /** No two attempts share a timestamp. */
  predicate DistinctTimestamps(attempts: seq<BuzzAttempt>)
  {
    forall i, j :: 0 <= i < j < |attempts| ==> attempts[i].timestamp != attempts[j].timestamp
  }

  /** With distinct timestamps the race has the same winner whatever order
      the attempts arrived in. */
  lemma WinnerIndependentOfArrivalOrder(a: seq<BuzzAttempt>, b: seq<BuzzAttempt>)
    requires |a| > 0 && |b| > 0
    requires multiset(a) == multiset(b) && DistinctTimestamps(a)
    ensures a[EarliestIndex(a)] == b[EarliestIndex(b)]
  {
    var i, j := EarliestIndex(a), EarliestIndex(b);
    assert a[i] in multiset(b);
    var j' :| 0 <= j' < |b| && b[j'] == a[i];
    assert b[j] in multiset(a);
    var i' :| 0 <= i' < |a| && a[i'] == b[j];
    assert a[i'].timestamp == a[i].timestamp;
  }

  /** The winner does not change when a later, slower buzz arrives. */
  lemma LaterBuzzDoesNotDisplaceWinner(a: seq<BuzzAttempt>, late: BuzzAttempt)
    requires |a| > 0 && late.timestamp >= a[EarliestIndex(a)].timestamp
    ensures Winner(a + [late]) == Winner(a)
  {
    var c := a + [late];
    var k, k' := EarliestIndex(a), EarliestIndex(c);
    assert c[k] == a[k];
    assert k' < |a| ==> c[k'] == a[k'];
  }
}
