# Quiz buzzer game: the per-peer replica

This project models the core of a multiplayer quiz game played in a video
room. Every peer keeps its own replica of the game. Local actions change it
and are broadcast over the room's data channel; messages from the other
peers are replayed into it. The model covers:

- the data shapes of the game (`GameTypes`, from `src/types/game.ts`);
- the pure `prev => next` state updaters of the game hook (`Reducer`);
- the hook itself as a class (`GameHook.GameSession`). It holds the replica,
  the buzz-collection timer and the running question countdowns, and keeps
  the messages it has broadcast in `outbox`;
- what the overlay derives from a replica (`GameView`): whose turn it is, the
  camera rules, the displayed score, and the final leaderboard with its ranks;
- the answer recorder (`AudioRecording`): the `m:ss` display, the choice of
  recording format, the upload extension, the recording countdown and the
  chunk filter.

Clock readings (`Date.now()`) and the results of the question and scoring
services are parameters. A timer firing is a method call
(`CountdownTick`, `FireBuzzWindow`, and for the recorder both
`Recorder.TickWithCapturedStop`, the interval as written, and `Recorder.Tick`,
the intended one). A received message is
given already decoded, with `None` for one that does not parse or whose type
is none of the known ones.

The replica invariant `Reducer.Consistent` says four things. The roster is
keyed by identity. The answering stage has an answerer. A displayed
question counts down from at most ten. Buzzing has no countdown left. Every
updater keeps this invariant, and the class's `Valid()` is this invariant.

The hook refers to names the declarations lack. The model is of the
program with the declarations completed:

- The stage enum lacks `GAME_OVER`, but the hook assigns it. `GameOver` is a
  seventh stage here, named `GAME_OVER`.
- The message enum lacks `CONFIGURE_ROUNDS` and `SET_CONTENT`, but the hook
  names both in its sends and in its `switch`. They are added here.
- `GameState` lacks `currentContentId`, `currentRound` and `totalRounds`, but
  the hook initialises and updates them. They are added here.

Behaviour of the code that a reader might not expect, modelled as written:

- The receiving side has no `NEXT_ROUND` case. A remote peer's round counter
  therefore stays at 1.
- A remote `BUZZ_IN` is appended whatever the stage.
- Every peer that buzzed locally opens its own collection window and
  broadcasts its own winner. A replica keeps the last winner it applied, so
  replicas can disagree: two peers buzzing at the same clock reading each
  end up naming the other (`GameView.TiedRacersSwapWinners`).
- Ties between equal timestamps go to the attempt appended first, because
  the winner fold replaces only on a strictly smaller timestamp.
- A locally generated question clears the answer, the follow-ups and the
  final score. A received one does not.
- A remote `START_GAME` does not change the stage.
- A remote `SCORE_READY` shows the score but credits no one.
- Closing the collection window and ticking the question countdown do not
  look at the stage.
- Resetting does not cancel running timers.
- The score update looks up `currentAnswerer || ''`, so with no answerer a
  player registered under the empty identity would be credited.

## Model

| member | source | states |
|---|---|---|
| GameTypes.ParseStage | src/types/game.ts:1-8 | a parsed stage has exactly the given string value; a string no stage carries parses to nothing |
| GameTypes.StagesAreClosed | src/types/game.ts:1-8 | all seven stages (with GAME_OVER) are listed once each and every string value reads back to its stage |
| GameTypes.ParseDifficulty | src/types/game.ts:22 | a parsed difficulty has exactly the given name; anything but easy, medium or hard parses to nothing |
| GameTypes.DifficultyNamesRoundTrip | src/types/game.ts:22 | each difficulty's name reads back to it and the three names are distinct |
| GameTypes.InitialState | src/hooks/useGameState.ts:21-36 | a replica starts waiting and inactive, with countdown 0, no players, buzzes, question, answerer, answer, follow-ups, score or content id, in round 0 of 5 |
| GameTypes.ParseMessageType | src/types/game.ts:68-82 | a parsed message type has exactly the given wire string; an unknown string parses to nothing |
| GameTypes.MessageTypesAreClosed | src/types/game.ts:68-82 | all fifteen message types are listed once each and every wire string reads back to its type |
| Reducer.InitialStateIsConsistent | src/hooks/useGameState.ts:21-36 | the initial replica satisfies the replica invariant |
| Reducer.AddPlayer | src/hooks/useGameState.ts:42-56 | a known identity leaves the replica unchanged; otherwise exactly one entry is added (score 0, both flags false), the roster grows by one, existing entries and all other fields are kept |
| Reducer.AddPlayerIdempotent | src/hooks/useGameState.ts:42-56 | registering the same identity twice is the same as once |
| Reducer.StartGame | src/hooks/useGameState.ts:104-110 | the host's start makes the game active, waiting, in round 1 of the chosen total, and changes nothing else |
| Reducer.StartRemoteGame | src/hooks/useGameState.ts:360-363 | a remote start makes the game active in round 1 and leaves the stage and all else unchanged |
| Reducer.ConfigureRounds | src/hooks/useGameState.ts:365-371 | the host's round total replaces the local one and nothing else changes |
| Reducer.SetContent | src/hooks/useGameState.ts:116-119 | the content id becomes the chosen one and nothing else changes |
| Reducer.ShowQuestion | src/hooks/useGameState.ts:146-157 | a generated question is displayed with countdown 10, no answerer, no buzzes, and answer, follow-ups and final score cleared; roster, activity, rounds and content are kept |
| Reducer.ShowRemoteQuestion | src/hooks/useGameState.ts:389-398 | a received question is displayed with countdown 10, no answerer and no buzzes; every other field, answer and final score included, is kept |
| Reducer.CountdownTick | src/hooks/useGameState.ts:160-169 | a tick takes one second off; the tick from 1 or below opens buzzing with countdown 0; nothing else changes |
| Reducer.AppendBuzz | src/hooks/useGameState.ts:183-186 | exactly one attempt is appended after the earlier ones and nothing else changes |
| Reducer.ReduceEarliest | src/hooks/useGameState.ts:195-197 | the fold ends on an attempt with the minimum timestamp that no earlier attempt ties |
| Reducer.EarliestIndex | src/hooks/useGameState.ts:195-197 | the winning attempt has the minimum timestamp and every attempt before it is strictly later |
| Reducer.Winner | src/hooks/useGameState.ts:195-197 | the winner is the identity of an attempt with the minimum timestamp that every earlier attempt strictly exceeds, so ties go to the first appended |
| Reducer.AwardTurn | src/hooks/useGameState.ts:207-212 | the winner becomes the answerer, the stage answering and the countdown 90; nothing else changes |
| Reducer.ResolveBuzz | src/hooks/useGameState.ts:192-213 | with no attempts the replica is unchanged; otherwise the earliest attempt's identity is handed the turn |
| Reducer.RecordAnswer | src/hooks/useGameState.ts:229-233 | the transcript is recorded and the stage becomes scoring; nothing else changes |
| Reducer.RecordFinalScore | src/hooks/useGameState.ts:261-265 | the final score is shown in the scoring stage; the roster and everything else are unchanged |
| Reducer.CreditAnswerer | src/hooks/useGameState.ts:268-276 | only the answerer's entry changes: its score grows by the total, it has answered and is no longer answering; a missing entry means no change; a non-negative total never lowers a score |
| Reducer.NextRound | src/hooks/useGameState.ts:286-307 | past the last round the game is over with the round kept; otherwise the round advances by exactly one; either way the round never passes the total unless the game is over |
| Reducer.EndGame | src/hooks/useGameState.ts:373-379 | the stage becomes game over and nothing else changes |
| Reducer.ResetGame | src/hooks/useGameState.ts:310-330 | the replica returns to the initial one except that the roster keeps its identities with scores zeroed and flags cleared, and the content id is kept |
| Reducer.ApplyMessage | src/hooks/useGameState.ts:359-449 | a message type without a case changes nothing; no case changes the roster; every case keeps the invariant |
| Reducer.HandleData | src/hooks/useGameState.ts:336-357 | an undecodable message or one's own echo changes nothing; any other registers its sender and is then dispatched; no entry is lost or altered by registration |
| Reducer.UnhandledMessageOnlyRegisters | src/hooks/useGameState.ts:359-449 | NEXT_ROUND, the follow-up types, START_ANSWERING, PLAYER_JOINED and SYNC_STATE only register their sender |
| Reducer.RemoteScoreLeavesScoresAlone | src/hooks/useGameState.ts:442-448 | a received score is shown in the scoring stage but leaves every score as it was |
| Reducer.RemoteBuzzIgnoresStage | src/hooks/useGameState.ts:413-421 | a received buzz is appended with its sender and the clock its payload carries, in any stage, and does not change the stage |
| Reducer.RemoteWinnerTakesTurn | src/hooks/useGameState.ts:424-431 | a received BUZZ_WINNER makes the announced winner the answerer, in the answering stage, whatever this replica had decided |
| Reducer.QuestionReplayAgrees | src/hooks/useGameState.ts:146-157 | a generated question and the same question received elsewhere agree on stage, question, answerer, buzzes and countdown |
| Reducer.TicksCountDown | src/hooks/useGameState.ts:160-169 | before the count runs out, n ticks take exactly n seconds off and change nothing else |
| Reducer.TicksReachBuzzing | src/hooks/useGameState.ts:160-169 | a countdown of c seconds keeps its stage for c-1 ticks and opens buzzing with countdown 0 on the c-th |
| Reducer.QuestionOpensBuzzingAfterTenTicks | src/hooks/useGameState.ts:146-169 | a local or received question is displayed for ticks 0 to 9 and buzzing opens on the tenth tick |
| Reducer.RoundsAdvance | src/hooks/useGameState.ts:286-307 | while rounds remain, n steps advance the round counter by exactly n |
| Reducer.GameOverExactlyAfterLastRound | src/hooks/useGameState.ts:286-307 | from a round within the total, no step before the one after the last round ends the game, and that one does, with the counter at the total |
| Reducer.ThreeRoundGame | src/hooks/useGameState.ts:286-307 | in a three-round game started in round 1, two steps reach round 3 and the third ends the game |
| Reducer.WinnerIndependentOfArrivalOrder | src/hooks/useGameState.ts:195-197 | with distinct timestamps the same attempt wins whatever order the attempts arrived in |
| Reducer.LaterBuzzDoesNotDisplaceWinner | src/hooks/useGameState.ts:195-197 | an attempt arriving later with a timestamp no earlier than the winner's does not change the winner |
| GameHook.GameSession.Outgoing | src/hooks/useGameState.ts:60-94 | a send hands exactly one envelope to the transport when there is a room and none otherwise; the envelope carries the given type, clock reading and payload and this peer's identity |
| GameHook.GameSession.constructor | src/hooks/useGameState.ts:20-38 | a session starts from the initial replica with no timers running and nothing sent |
| GameHook.GameSession.AddPlayer | src/hooks/useGameState.ts:42-57 | the replica becomes the registration updater's result and the identity is registered |
| GameHook.GameSession.StartGame | src/hooks/useGameState.ts:97-111 | START_GAME then CONFIGURE_ROUNDS are sent, the host registers itself, and the game is active and waiting in round 1 of the chosen total |
| GameHook.GameSession.SetContent | src/hooks/useGameState.ts:114-120 | SET_CONTENT is sent with the id and the replica records it |
| GameHook.GameSession.GenerateQuestion | src/hooks/useGameState.ts:123-175 | a failed request changes nothing; a fetched question is broadcast, displayed, and starts one more countdown |
| GameHook.GameSession.CountdownTick | src/hooks/useGameState.ts:160-169 | the replica takes one tick, and the interval that opens buzzing stops itself |
| GameHook.GameSession.BuzzIn | src/hooks/useGameState.ts:178-190 | outside buzzing nothing happens; otherwise the buzz is broadcast with the payload clock and the envelope clock, stored with a third clock, and the collection window is open |
| GameHook.GameSession.FireBuzzWindow | src/hooks/useGameState.ts:190-216 | the window closes; with no attempts nothing else changes; otherwise the winner is broadcast and becomes the answerer |
| GameHook.GameSession.SubmitAnswer | src/hooks/useGameState.ts:221-283 | the answer is broadcast and recorded in scoring; without a question or an evaluation it stops there; otherwise SCORE_READY is sent, the score shown and credited to the answerer; the roster keeps its identities |
| GameHook.GameSession.NextRound | src/hooks/useGameState.ts:286-307 | past the last round END_GAME is sent and the game is over; otherwise NEXT_ROUND is sent, the round advances and a question is requested |
| GameHook.GameSession.ResetGame | src/hooks/useGameState.ts:310-330 | the replica becomes the reset updater's result; timers are untouched |
| GameHook.GameSession.Receive | src/hooks/useGameState.ts:336-453 | the replica becomes the receive path's result, and only a received question starts a countdown; nothing is sent |
| GameHook.TwoPlayerRace | src/hooks/useGameState.ts:178-216 | a peer that buzzes at 100 after a remote buzz at 90 hands the turn to the remote player |
| GameView.IsMyTurn | src/components/GameUI.tsx:27 | it is this peer's turn exactly when the current answerer is its identity |
| GameView.CameraEnabled | src/components/GameUI.tsx:43 | the camera is on exactly for this peer's turn in the answering stage |
| GameView.CameraForcedOff | src/components/GameUI.tsx:100-105 | the stage guard's set: waiting, buzzing, scoring and game over |
| GameView.ShowsOverlay | src/components/GameUI.tsx:172-174 | the overlay is drawn exactly while the game is active |
| GameView.ShowsRoundCounter | src/components/GameUI.tsx:185 | the round counter shows exactly while the game is active and the round is above 0 |
| GameView.CameraOnlyForTheAnswerer | src/components/GameUI.tsx:27-105 | on one replica, only the answerer's camera is on, only in the answering stage, and at most one identity's is on; the guard forces it off exactly outside question display, answering and follow-up |
| GameView.OverlayFollowsGameLifecycle | src/components/GameUI.tsx:172-187 | the host's start and a received START_GAME show the overlay with its round counter, a reset hides both, and no other message changes whether the overlay is shown |
| GameView.DisplayedScore | src/components/GameUI.tsx:192 | the shown score is the local entry's score, or 0 without an entry |
| GameView.Insert | src/components/GameUI.tsx:396-398 | inserting into an ordered board keeps it ordered and adds exactly that player |
| GameView.Leaderboard | src/components/GameUI.tsx:396-398 | the board holds the same players as the roster, by score from highest to lowest |
| GameView.RankSuffix | src/components/GameUI.tsx:401-406 | st for 1, nd for 2, rd for 3, th for every other rank |
| GameView.LeaderboardRows | src/components/GameUI.tsx:396-430 | each row i has rank i+1 with its suffix and the i-th player of the sorted board, and is marked exactly when it is the viewer's own |
| GameView.ValuesInOrder | src/components/GameUI.tsx:396 | the roster's entries listed in the map's iteration order |
| GameView.LeaderboardListsEachPlayerOnce | src/components/GameUI.tsx:396-398 | every registered player appears on the board exactly once and nothing else does |
| GameView.TieGoesToFirst | src/hooks/useGameState.ts:195-197 | of two attempts with the same clock reading, the one appended first wins |
| GameView.TiedRacersSwapWinners | src/hooks/useGameState.ts:179-199 | two peers buzzing at the same clock reading each declare themselves the winner, then each applies the other's BUZZ_WINNER (lines 426-431), so A's replica names B, B's names A, and neither own camera is on |
| GameView.ReplicaLeaderboardListsEachPlayerOnce | src/components/GameUI.tsx:396-398 | on any replica keeping the invariant (a session's `Valid()`), the board lists every registered player exactly once and nothing else |
| AudioRecording.NatToDecimal | src/components/AudioRecorder.tsx:180 | the decimal text of a number is all digits without a leading zero, one digit exactly below 10 |
| AudioRecording.DecimalRoundTrip | src/components/AudioRecorder.tsx:180 | reading the decimal text of a number gives the number back |
| AudioRecording.PadStart2 | src/components/AudioRecorder.tsx:180 | texts of two or more characters are left as they are; shorter ones get zeros in front up to two characters |
| AudioRecording.JsRemainder | src/components/AudioRecorder.tsx:179 | the remainder has the sign of the dividend, is below the divisor in size, and with the quotient truncated toward zero recomposes the dividend |
| AudioRecording.IntToDecimal | src/components/AudioRecorder.tsx:180 | the text of an integer: a leading minus exactly for a negative one, then decimal digits without a leading zero that read back to its magnitude |
| AudioRecording.FormatTime | src/components/AudioRecorder.tsx:177-181 | the display text: minutes rounded down, a colon, and the seconds remainder padded to two digits (what it reads back to is stated by FormatTimeReadsBack) |
| AudioRecording.FormatTimeReadsBack | src/components/AudioRecorder.tsx:177-181 | for a non-negative count the display is minutes without a leading zero, a colon and two digits of seconds below 60, and minutes times 60 plus seconds is the count |
| AudioRecording.ChooseMimeType | src/components/AudioRecorder.tsx:61-74 | the first supported of Opus in WebM, WebM and MP4 is chosen; with none, the empty type and the audio-context flag |
| AudioRecording.ActualMimeType | src/components/AudioRecorder.tsx:91 | the chosen type labels the recording, or the recorder's own when none was chosen |
| AudioRecording.ContainsIffOccurs | src/components/AudioRecorder.tsx:105-107 | the `includes` test used for the extension holds exactly when the part occurs at some position of the type |
| AudioRecording.FileExtension | src/components/AudioRecorder.tsx:104-109 | m4a exactly when the type contains mp4 or m4a, ogg exactly when it contains ogg and neither of those, webm otherwise |
| AudioRecording.ExtensionFollowsChosenFormat | src/components/AudioRecorder.tsx:61-109 | the two WebM formats upload as webm and MP4 as m4a |
| AudioRecording.Recorder.constructor | src/components/AudioRecorder.tsx:20-28 | a recorder starts idle with the full time left and no chunks |
| AudioRecording.Recorder.StartRecording | src/components/AudioRecorder.tsx:49-158 | the chunks are cleared; a refused microphone changes nothing else; otherwise the chosen format is used, recording runs with the full time left, and the countdown runs |
| AudioRecording.Recorder.OnDataAvailable | src/components/AudioRecorder.tsx:81-85 | a chunk is appended exactly when it holds data |
| AudioRecording.Recorder.StopAsSeen | src/components/AudioRecorder.tsx:31-47 | a stop closure acts only when there is a media recorder and the recording flag it captured is set, then recording and countdown stop; otherwise nothing changes |
| AudioRecording.Recorder.StopRecording | src/components/AudioRecorder.tsx:31-47 | a stop that sees the current flag: a recording in progress stops with its countdown; otherwise nothing changes |
| AudioRecording.Recorder.Tick | src/components/AudioRecorder.tsx:143-151 | the intended tick: one second or less left becomes 0 and stops the recording; otherwise exactly one second comes off |
| AudioRecording.Recorder.TickWithCapturedStop | src/components/AudioRecorder.tsx:143-151 | the tick as written: the captured stop sees recording off, so one second or less left becomes 0 and recording and countdown go on; otherwise exactly one second comes off |
| AudioRecording.TicksUntilRecordingEnds | src/components/AudioRecorder.tsx:143-151 | with the intended tick (not the program as written, see Findings), an unattended recording ends after maxDuration ticks, or after one when no time is allowed |
| AudioRecording.UnattendedRecordingAsWritten | src/components/AudioRecorder.tsx:143-151 | with the tick as written, any number of ticks at or beyond the allowed time leaves the recording and its countdown running with 0 seconds shown |

## Findings

| source | as written | input that shows it | evidently intended | confidence | as-written member | corrected member |
|---|---|---|---|---|---|---|
| src/components/AudioRecorder.tsx:143-151 | the countdown interval calls the `stopRecording` captured when recording was off, whose guard then fails, so at zero time the recording goes on and the interval keeps firing | any recording left alone for `maxDuration` seconds (for example 60 seconds, then one more tick) | the recording stops when the time runs out | not executed | AudioRecording.UnattendedRecordingAsWritten | AudioRecording.TicksUntilRecordingEnds |

## Left out

- Reducer.HandleData: a message whose type is valid JSON but none of the fifteen strings, such as one from another client version, registers its sender in the program, because the registration comes before the `switch`, and then matches no case. The closed message type cannot express it; such a message is given as `None` and changes nothing.
- The declarations as written. The missing enum members evaluate to `undefined` in the program. CONFIGURE_ROUNDS and SET_CONTENT are then sent without a type, and the receiver's `switch` takes the first `case undefined`, the CONFIGURE_ROUNDS case. A received SET_CONTENT therefore sets `totalRounds` to `undefined` and never sets the content id. The GAME_OVER stage is `undefined` at run time, distinct from the six strings, and no stage is sent, so only its name differs. The model follows the completed declarations.
- Transport: the room connection, `publishData`, and JSON and `TextEncoder` serialisation. A send appends an envelope to `outbox`; a receive takes an already decoded message.
- The question and scoring services (`fetch` to the API routes) and their error alerts. Their outcome is an `Option` parameter.
- Interleaving during the hook's `await`s. `SubmitAnswer` and `GenerateQuestion` run to completion, so no message arriving mid-request is modelled.
- React closure staleness. `SubmitAnswer` checks the current question in the current replica, where the hook reads it from the render that created the callback. Likewise `BuzzIn` checks the current stage.
- AudioRecording.Recorder.Tick: models the evidently intended tick, whose stop sees the current recording flag. The program's interval always holds the `stopRecording` of the render where recording was still off: `startRecording` only runs while not recording. That stop therefore does nothing, and an unattended recording never stops: the time stays at 0 and the interval keeps firing until the user stops it. `Recorder.TickWithCapturedStop` models that behaviour (see Findings).
- Ids of timers. `countdownTimers` only counts the running question intervals; clearing by id is not modelled.
- Reducer.CreditAnswerer: the hook mutates the shared `Player` object in place. A copied `Map` still shares it with the previous replica, so that replica sees the change too; the model builds a new entry instead.
- Reducer.ApplyMessage: a missing or wrong-shaped payload changes nothing beyond registering the sender. The program differs in two ways. For CONFIGURE_ROUNDS, SET_CONTENT, NEW_QUESTION and BUZZ_WINNER, a `console.log` reads the payload before any update, so a missing payload throws inside the handler's `try` and is dropped, as modelled. For BUZZ_IN, ANSWER_SUBMITTED and SCORE_READY the payload is read only inside the state updater. A missing payload there throws when React applies the update, outside the handler's `try`, and is not dropped. A payload object that lacks the field stores `undefined` rather than changing nothing.
- Clock readings. Every envelope time and the buzz's payload and stored times are separate parameters, because each comes from its own `Date.now()` call.
- Map iteration order. `GameView.ValuesInOrder` takes the order as a parameter.
- GameView.Leaderboard: does not state that players with equal scores keep their roster order. The insertion places the earlier player first, as the stable built-in sort does, but no lemma states it.
- Scores are integers. The floating-point progress bar width is left out.
- Follow-up questions and answers. The hook never fills them; they are only cleared.
- The camera, track and media effects of the overlay. Only the predicates deciding them are modelled.
- The recorder's media streams, `Blob` creation, the transcription upload and its completion callback, the processing and button flags, and the unmount cleanup.
- The control panel, the LiveKit room component, the API routes and the build configuration.
