/** The data shapes every peer's replica of the game is built from:
    stages, players, questions, buzz attempts, scores, the replica's
    record and the broadcast message envelope. The declarations the hook
    uses but the type file lacks (the GameOver stage, the ConfigureRounds
    and SetContent message types, the round counters and the content id)
    are added so that each type is closed. */
module GameTypes {

  datatype Option<+T> = None | Some(value: T)

  /** The stages of the round state machine. GameOver is assigned by the
      hook but missing from the declared enum; it is the seventh stage. */
  datatype GameStage =
    | Waiting
    | QuestionDisplay
    | Buzzing
    | Answering
    | AiFollowup
    | Scoring
    | GameOver

  /** The seven stages, each once. */
  const AllStages: seq<GameStage> :=
    [Waiting, QuestionDisplay, Buzzing, Answering, AiFollowup, Scoring, GameOver]

  /** The string value a stage carries in the enum. The enum declares no
      GAME_OVER member; the name given here completes it. */
  function StageName(stage: GameStage): string
  {
    match stage
    case Waiting => "WAITING"
    case QuestionDisplay => "QUESTION_DISPLAY"
    case Buzzing => "BUZZING"
    case Answering => "ANSWERING"
    case AiFollowup => "AI_FOLLOWUP"
    case Scoring => "SCORING"
    case GameOver => "GAME_OVER"
  }

  /** Reads a stage back from its string value; any other string is no stage. */
  function ParseStage(name: string): (stage: Option<GameStage>)
    ensures stage.Some? ==> StageName(stage.value) == name
    ensures stage.None? ==> forall g :: g in AllStages ==> StageName(g) != name
  {
    if name == "WAITING" then Some(Waiting)
    else if name == "QUESTION_DISPLAY" then Some(QuestionDisplay)
    else if name == "BUZZING" then Some(Buzzing)
    else if name == "ANSWERING" then Some(Answering)
    else if name == "AI_FOLLOWUP" then Some(AiFollowup)
    else if name == "SCORING" then Some(Scoring)
    else if name == "GAME_OVER" then Some(GameOver)
    else None
  }

  /** The stage type is closed: every stage is listed, each once, and its
      string value reads back to it. */
  lemma StagesAreClosed(stage: GameStage)
    ensures stage in AllStages
    ensures |AllStages| == 7
    ensures forall i, j :: 0 <= i < j < |AllStages| ==> AllStages[i] != AllStages[j]
    ensures ParseStage(StageName(stage)) == Some(stage)
  {
  }

  datatype Player = Player(identity: string, score: int, isAnswering: bool, hasAnswered: bool)

  datatype Difficulty = Easy | Medium | Hard

  /** The string value a difficulty carries in a question. */
  function DifficultyName(d: Difficulty): string
  {
    match d
    case Easy => "easy"
    case Medium => "medium"
    case Hard => "hard"
  }

  /** Reads a difficulty back; only the three lower-case names are one. */
  function ParseDifficulty(name: string): (d: Option<Difficulty>)
    ensures d.Some? ==> DifficultyName(d.value) == name
    ensures d.None? ==> name != "easy" && name != "medium" && name != "hard"
  {
    if name == "easy" then Some(Easy)
    else if name == "medium" then Some(Medium)
    else if name == "hard" then Some(Hard)
    else None
  }

  /** Every difficulty's name reads back to it, and distinct difficulties
      have distinct names. */
  lemma DifficultyNamesRoundTrip(d: Difficulty, e: Difficulty)
    ensures ParseDifficulty(DifficultyName(d)) == Some(d)
    ensures DifficultyName(d) == DifficultyName(e) ==> d == e
  {
  }

  datatype Question = Question(
    id: string,
    topic: string,
    topicName: string,
    content: string,
    difficulty: Difficulty)

  /** One buzz signal: who buzzed and the client clock of the buzzer. */
  datatype BuzzAttempt = BuzzAttempt(identity: string, timestamp: int)

  /** A recorded answer; the audio recording itself is not modelled. */
  datatype Answer = Answer(transcript: string)

  datatype FollowUpQuestion = FollowUpQuestion(question: string, context: string)

  datatype ScoreDimension = ScoreDimension(name: string, score: int, maxScore: int, feedback: string)

  datatype FinalScore = FinalScore(
    dimensions: seq<ScoreDimension>,
    totalScore: int,
    totalMaxScore: int,
    overallFeedback: string)

  /** One peer's replica of the game. */
  datatype GameState = GameState(
    stage: GameStage,
    currentQuestion: Option<Question>,
    currentAnswerer: Option<string>,
    buzzAttempts: seq<BuzzAttempt>,
    players: map<string, Player>,
    answer: Option<Answer>,
    followUpQuestions: seq<FollowUpQuestion>,
    followUpAnswers: seq<Answer>,
    finalScore: Option<FinalScore>,
    countdown: int,
    isGameActive: bool,
    currentContentId: Option<string>,
    currentRound: int,
    totalRounds: int)

  /** The number of rounds a game has unless the host configures another. */
  const DefaultTotalRounds := 5

  /** The replica every peer starts from. */
  function InitialState(): (s: GameState)
    ensures s.stage == Waiting && !s.isGameActive
    ensures s.players == map[] && s.buzzAttempts == []
    ensures s.currentQuestion.None? && s.currentAnswerer.None? && s.finalScore.None?
    ensures s.answer.None? && s.followUpQuestions == [] && s.followUpAnswers == []
    ensures s.countdown == 0 && s.currentContentId.None?
    ensures s.currentRound == 0 && s.totalRounds == DefaultTotalRounds
  {
    GameState(
      stage := Waiting,
      currentQuestion := None,
      currentAnswerer := None,
      buzzAttempts := [],
      players := map[],
      answer := None,
      followUpQuestions := [],
      followUpAnswers := [],
      finalScore := None,
      countdown := 0,
      isGameActive := false,
      currentContentId := None,
      currentRound := 0,
      totalRounds := DefaultTotalRounds)
  }

  /** The message types. The hook refers to ConfigureRounds and SetContent,
      which the declared enum lacks; the model completes the enum with them. */
  datatype GameMessageType =
    | StartGame
    | ConfigureRounds
    | SetContent
    | NewQuestion
    | BuzzIn
    | BuzzWinner
    | StartAnswering
    | AnswerSubmitted
    | FollowupReady
    | FollowupAnswerSubmitted
    | ScoreReady
    | NextRound
    | EndGame
    | PlayerJoined
    | SyncState

  /** The fifteen message types, each once. */
  const AllMessageTypes: seq<GameMessageType> :=
    [StartGame, ConfigureRounds, SetContent, NewQuestion, BuzzIn, BuzzWinner,
     StartAnswering, AnswerSubmitted, FollowupReady, FollowupAnswerSubmitted,
     ScoreReady, NextRound, EndGame, PlayerJoined, SyncState]

  /** The string value a message type carries on the wire. */
  function MessageTypeName(t: GameMessageType): string
  {
    match t
    case StartGame => "START_GAME"
    case ConfigureRounds => "CONFIGURE_ROUNDS"
    case SetContent => "SET_CONTENT"
    case NewQuestion => "NEW_QUESTION"
    case BuzzIn => "BUZZ_IN"
    case BuzzWinner => "BUZZ_WINNER"
    case StartAnswering => "START_ANSWERING"
    case AnswerSubmitted => "ANSWER_SUBMITTED"
    case FollowupReady => "FOLLOWUP_READY"
    case FollowupAnswerSubmitted => "FOLLOWUP_ANSWER_SUBMITTED"
    case ScoreReady => "SCORE_READY"
    case NextRound => "NEXT_ROUND"
    case EndGame => "END_GAME"
    case PlayerJoined => "PLAYER_JOINED"
    case SyncState => "SYNC_STATE"
  }

  /** Reads a message type back from its wire string. */
  function ParseMessageType(name: string): (t: Option<GameMessageType>)
    ensures t.Some? ==> MessageTypeName(t.value) == name
    ensures t.None? ==> forall u :: u in AllMessageTypes ==> MessageTypeName(u) != name
  {
    if name == "START_GAME" then Some(StartGame)
    else if name == "CONFIGURE_ROUNDS" then Some(ConfigureRounds)
    else if name == "SET_CONTENT" then Some(SetContent)
    else if name == "NEW_QUESTION" then Some(NewQuestion)
    else if name == "BUZZ_IN" then Some(BuzzIn)
    else if name == "BUZZ_WINNER" then Some(BuzzWinner)
    else if name == "START_ANSWERING" then Some(StartAnswering)
    else if name == "ANSWER_SUBMITTED" then Some(AnswerSubmitted)
    else if name == "FOLLOWUP_READY" then Some(FollowupReady)
    else if name == "FOLLOWUP_ANSWER_SUBMITTED" then Some(FollowupAnswerSubmitted)
    else if name == "SCORE_READY" then Some(ScoreReady)
    else if name == "NEXT_ROUND" then Some(NextRound)
    else if name == "END_GAME" then Some(EndGame)
    else if name == "PLAYER_JOINED" then Some(PlayerJoined)
    else if name == "SYNC_STATE" then Some(SyncState)
    else None
  }

  /** The message type is closed: all fifteen are listed, each once, and each
      wire string reads back to its type. */
  lemma MessageTypesAreClosed(t: GameMessageType)
    ensures t in AllMessageTypes
    ensures |AllMessageTypes| == 15
    ensures forall i, j :: 0 <= i < j < |AllMessageTypes| ==> AllMessageTypes[i] != AllMessageTypes[j]
    ensures ParseMessageType(MessageTypeName(t)) == Some(t)
  {
  }

  /** The payload objects the peers attach to their messages, one shape per
      message type that carries one. */
  datatype Payload =
    | RoundsConfig(totalRounds: int)
    | ContentChoice(contentId: string)
    | QuestionPayload(question: Question)
    | BuzzPayload(buzzedAt: int)
    | WinnerPayload(winner: string)
    | AnswerPayload(transcript: string, answerer: string)
    | ScorePayload(finalScore: FinalScore, answerer: string)

  /** The message envelope: type, sender clock, sender identity and an
      optional payload. */
  datatype GameMessage = GameMessage(
    msgType: GameMessageType,
    timestamp: int,
    sender: string,
    payload: Option<Payload>)
}
