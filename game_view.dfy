/** What the game overlay derives from a replica: whose turn it is, when the
    camera may be on, the score and round shown, and the final leaderboard
    with its ranks. */
module GameView {
  import opened GameTypes
  import Reducer

  /** It is this peer's turn exactly when it is the current answerer. */
  predicate IsMyTurn(s: GameState, identity: string)
  {
    s.currentAnswerer == Some(identity)
  }

  /** The camera is switched on exactly for the answerer while answering;
      in every other case the same effect switches it off. */
  predicate CameraEnabled(s: GameState, identity: string)
  {
    IsMyTurn(s, identity) && s.stage == Answering
  }

  /** The stages in which the stage guard switches the camera off whoever
      is answering. */
  predicate CameraForcedOff(stage: GameStage)
  {
    stage in {Waiting, Buzzing, Scoring, GameOver}
  }

  /** On one replica, at most one identity's camera is on, the answerer's,
      and never in a stage the stage guard forces off. In the two stages the guard leaves alone
      (question display and follow-up) the camera is still never on: the
      answering rule switches it off whenever it does not hold. */
  lemma CameraOnlyForTheAnswerer(s: GameState, a: string, b: string)
    ensures CameraEnabled(s, a) ==> s.currentAnswerer == Some(a) && !CameraForcedOff(s.stage)
    ensures CameraEnabled(s, a) && CameraEnabled(s, b) ==> a == b
    ensures s.stage in {QuestionDisplay, AiFollowup} ==>
              !CameraEnabled(s, a) && !CameraForcedOff(s.stage)
    ensures CameraForcedOff(s.stage) <==> s.stage !in {QuestionDisplay, Answering, AiFollowup}
  {
    match s.stage
    case Waiting =>
    case QuestionDisplay =>
    case Buzzing =>
    case Answering =>
    case AiFollowup =>
    case Scoring =>
    case GameOver =>
  }

  /** Each replica judges the camera by itself, and two replicas can
      disagree. When A and B both buzz at the same clock reading, each
      appends its own attempt first, so each one's collection window
      declares itself the winner and broadcasts that. Each then applies the
      other's BUZZ_WINNER last: A's replica names B, B's names A, and
      neither peer's own camera comes on. */
  lemma TiedRacersSwapWinners(s: GameState, t: int, later: int)
    requires s.buzzAttempts == []
    ensures var inA := Reducer.HandleData(Reducer.AppendBuzz(s, BuzzAttempt("A", t)), "A",
                         Some(GameMessage(GameMessageType.BuzzIn, t, "B", Some(BuzzPayload(t)))));
            var inB := Reducer.HandleData(Reducer.AppendBuzz(s, BuzzAttempt("B", t)), "B",
                         Some(GameMessage(GameMessageType.BuzzIn, t, "A", Some(BuzzPayload(t)))));
            var decidedA := Reducer.ResolveBuzz(inA);
            var decidedB := Reducer.ResolveBuzz(inB);
            var finalA := Reducer.HandleData(decidedA, "A",
                            Some(GameMessage(GameMessageType.BuzzWinner, later, "B", Some(WinnerPayload("B")))));
            var finalB := Reducer.HandleData(decidedB, "B",
                            Some(GameMessage(GameMessageType.BuzzWinner, later, "A", Some(WinnerPayload("A")))));
            && decidedA.currentAnswerer == Some("A") && decidedB.currentAnswerer == Some("B")
            && finalA.currentAnswerer == Some("B") && finalB.currentAnswerer == Some("A")
            && !CameraEnabled(finalA, "A") && !CameraEnabled(finalB, "B")
  {
    var buzzA := GameMessage(GameMessageType.BuzzIn, t, "B", Some(BuzzPayload(t)));
    var buzzB := GameMessage(GameMessageType.BuzzIn, t, "A", Some(BuzzPayload(t)));
    Reducer.RemoteBuzzIgnoresStage(Reducer.AppendBuzz(s, BuzzAttempt("A", t)), "A", buzzA);
    Reducer.RemoteBuzzIgnoresStage(Reducer.AppendBuzz(s, BuzzAttempt("B", t)), "B", buzzB);
    var inA := Reducer.HandleData(Reducer.AppendBuzz(s, BuzzAttempt("A", t)), "A", Some(buzzA));
    var inB := Reducer.HandleData(Reducer.AppendBuzz(s, BuzzAttempt("B", t)), "B", Some(buzzB));
    assert inA.buzzAttempts == [BuzzAttempt("A", t), BuzzAttempt("B", t)];
    assert inB.buzzAttempts == [BuzzAttempt("B", t), BuzzAttempt("A", t)];
    TieGoesToFirst(BuzzAttempt("A", t), BuzzAttempt("B", t));
    TieGoesToFirst(BuzzAttempt("B", t), BuzzAttempt("A", t));
    var decidedA := Reducer.ResolveBuzz(inA);
    var decidedB := Reducer.ResolveBuzz(inB);
    assert decidedA.currentAnswerer == Some("A") && decidedB.currentAnswerer == Some("B");
    var winA := GameMessage(GameMessageType.BuzzWinner, later, "B", Some(WinnerPayload("B")));
    var winB := GameMessage(GameMessageType.BuzzWinner, later, "A", Some(WinnerPayload("A")));
    Reducer.RemoteWinnerTakesTurn(decidedA, "A", winA);
    Reducer.RemoteWinnerTakesTurn(decidedB, "B", winB);
  }

  /** Between two attempts at the same clock reading, the one appended first
      wins. */
  lemma TieGoesToFirst(first: BuzzAttempt, second: BuzzAttempt)
    requires first.timestamp == second.timestamp
    ensures Reducer.Winner([first, second]) == first.identity
  {
    var attempts := [first, second];
    assert Reducer.EarliestIndex(attempts) == 0;
  }

  /** The overlay is drawn only while a game is active. */
  predicate ShowsOverlay(s: GameState)
  {
    s.isGameActive
  }

  /** The round counter is shown once a game is active and counting rounds. */
  predicate ShowsRoundCounter(s: GameState)
  {
    s.isGameActive && s.currentRound > 0
  }

  /** Over a game's life: the host's start and a received START_GAME both
      bring up the overlay with its round counter, a reset takes it down,
      and registering players or receiving other messages never changes
      whether it is shown. */
  lemma OverlayFollowsGameLifecycle(s: GameState, totalRounds: int, identity: string, msg: GameMessage)
    ensures ShowsOverlay(Reducer.StartGame(s, totalRounds))
            && ShowsRoundCounter(Reducer.StartGame(s, totalRounds))
    ensures msg.sender != identity && msg.msgType == GameMessageType.StartGame ==>
              ShowsRoundCounter(Reducer.HandleData(s, identity, Some(msg)))
    ensures msg.msgType != GameMessageType.StartGame ==>
              ShowsOverlay(Reducer.HandleData(s, identity, Some(msg))) == ShowsOverlay(s)
    ensures !ShowsOverlay(Reducer.ResetGame(s)) && !ShowsRoundCounter(Reducer.ResetGame(s))
  {
  }

  /** The score shown to this peer: its own entry's, or zero before it is
      registered. */
  function DisplayedScore(s: GameState, identity: string): (score: int)
    ensures identity in s.players ==> score == s.players[identity].score
    ensures identity !in s.players ==> score == 0
  {
    if identity in s.players then s.players[identity].score else 0
  }

  /** Scores never increase along the board. */
  predicate NonIncreasing(board: seq<Player>)
  {
    forall i, j :: 0 <= i < j < |board| ==> board[i].score >= board[j].score
  }

  /** Places `p` in a board already ordered, ahead of every entry with the
      same score. */
  function Insert(p: Player, board: seq<Player>): (r: seq<Player>)
    requires NonIncreasing(board)
    ensures NonIncreasing(r)
    ensures multiset(r) == multiset(board) + multiset{p}
    ensures |r| > 0 && (r[0] == p || (board != [] && r[0] == board[0]))
  {
    if board == [] || p.score >= board[0].score then [p] + board
    else
      var rest := Insert(p, board[1..]);
      assert board == [board[0]] + board[1..];
      [board[0]] + rest
  }

  /** The players sorted by score, highest first, as the final leaderboard
      lists them: the same players, in non-increasing score order. */
  function Leaderboard(players: seq<Player>): (board: seq<Player>)
    ensures NonIncreasing(board)
    ensures multiset(board) == multiset(players)
    ensures |board| == |players|
  {
    if players == [] then []
    else
      assert players == [players[0]] + players[1..];
      Insert(players[0], Leaderboard(players[1..]))
  }

  /** The ordinal suffix shown after a rank. */
  function RankSuffix(n: int): (suffix: string)
    ensures |suffix| == 2
    ensures suffix == "st" <==> n == 1
    ensures suffix == "nd" <==> n == 2
    ensures suffix == "rd" <==> n == 3
    ensures suffix == "th" <==> n != 1 && n != 2 && n != 3
  {
    if n == 1 then "st"
    else if n == 2 then "nd"
    else if n == 3 then "rd"
    else "th"
  }

  /** One line of the final leaderboard. */
  datatype LeaderboardRow = LeaderboardRow(rank: nat, suffix: string, player: Player, isCurrentUser: bool)

  /** The leaderboard's lines: the sorted players, each ranked by its
      1-based position, with the viewer's own line marked. */
  function LeaderboardRows(players: seq<Player>, identity: string): (rows: seq<LeaderboardRow>)
    ensures |rows| == |players|
    ensures forall i :: 0 <= i < |rows| ==>
              && rows[i].rank == i + 1
              && rows[i].suffix == RankSuffix(i + 1)
              && rows[i].player == Leaderboard(players)[i]
              && (rows[i].isCurrentUser <==> rows[i].player.identity == identity)
    ensures forall i, j :: 0 <= i < j < |rows| ==> rows[i].player.score >= rows[j].player.score
  {
    var board := Leaderboard(players);
    seq(|board|, i requires 0 <= i < |board| =>
      LeaderboardRow(i + 1, RankSuffix(i + 1), board[i], board[i].identity == identity))
  }

  /** The roster's entries in the map's iteration order `order`. */
  function ValuesInOrder(players: map<string, Player>, order: seq<string>): (values: seq<Player>)
    requires forall i :: 0 <= i < |order| ==> order[i] in players
    ensures |values| == |order|
    ensures forall i :: 0 <= i < |order| ==> values[i] == players[order[i]]
  {
    if order == [] then []
    else [players[order[0]]] + ValuesInOrder(players, order[1..])
  }

  /** A sequence without repetitions holds each of its elements once. */
  lemma {:induction false} DistinctOccursOnce(s: seq<Player>, p: Player)
    requires forall i, j :: 0 <= i < j < |s| ==> s[i] != s[j]
    ensures multiset(s)[p] == if p in s then 1 else 0
  {
    if s != [] {
      assert s == [s[0]] + s[1..];
      DistinctOccursOnce(s[1..], p);
      if p == s[0] {
        assert p !in s[1..];
      }
    }
  }

  /** The leaderboard of a roster keyed by identity lists every registered
      player exactly once, and nothing else. */
  lemma LeaderboardListsEachPlayerOnce(players: map<string, Player>, order: seq<string>)
    requires forall k :: k in players ==> players[k].identity == k
    requires forall k :: k in players <==> k in order
    requires forall i, j :: 0 <= i < j < |order| ==> order[i] != order[j]
    ensures var board := Leaderboard(ValuesInOrder(players, order));
            && (forall id :: id in players ==> multiset(board)[players[id]] == 1)
            && (forall p :: p in board ==> p.identity in players && players[p.identity] == p)
  {
    var values := ValuesInOrder(players, order);
    var board := Leaderboard(values);
    forall i, j | 0 <= i < j < |values|
      ensures values[i] != values[j]
    {
      assert values[i].identity == order[i] && values[j].identity == order[j];
    }
    forall id | id in players
      ensures multiset(board)[players[id]] == 1
    {
      var i :| 0 <= i < |order| && order[i] == id;
      assert values[i] == players[id];
      DistinctOccursOnce(values, players[id]);
    }
    forall p | p in board
      ensures p.identity in players && players[p.identity] == p
    {
      assert p in multiset(values);
      var i :| 0 <= i < |values| && values[i] == p;
    }
  }

  /** On a replica that keeps the invariant (a session's `Valid()`), the
      final board lists every registered player exactly once. */
  lemma ReplicaLeaderboardListsEachPlayerOnce(s: GameState, order: seq<string>)
    requires Reducer.Consistent(s)
    requires forall k :: k in s.players <==> k in order
    requires forall i, j :: 0 <= i < j < |order| ==> order[i] != order[j]
    ensures var board := Leaderboard(ValuesInOrder(s.players, order));
            && (forall id :: id in s.players ==> multiset(board)[s.players[id]] == 1)
            && (forall p :: p in board ==> p.identity in s.players && s.players[p.identity] == p)
  {
    LeaderboardListsEachPlayerOnce(s.players, order);
  }
}
