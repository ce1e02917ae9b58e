# Tap-battle round state machine

A Dafny model of the game server in `server.js`. Two teams, A and B, tap as
fast as they can during a fixed 30-second round, and the server keeps the
score. Everything with decision logic in the server is one shared record,
`gameState`, which holds two tap counters, a `started` flag and the handle of
the round's countdown. Three handlers change it:

- `click(team)` counts a tap, but only while a round runs.
- `adminAction(action)` handles `"reset"`, which stops everything, and
  `"start"`, which zeroes the scores and schedules a new countdown. Any other
  action does nothing.
- The countdown callback ends the round and broadcasts the winner and both
  scores.

The project has three modules:

- `Game` (`game.dfy`) holds the state and one pure step function per handler.
  Each step function returns the next state and the events it broadcasts. The
  state includes the JavaScript runtime's view of the timers. `live` is the
  set of countdown handles that are scheduled and have neither fired nor been
  cleared. `nextHandle` is the fresh handle the next `setTimeout` returns.
  `clearTimeout(h)` removes `h` from `live`. Clearing `null` or a countdown
  that has already fired changes nothing. `Inv` is the invariant of every
  reachable state:
  - the only live countdown is the one `gameState.timer` names;
  - a round runs exactly when that countdown is live;
  - every handle already handed out is older than the next one.
- `Rounds` (`rounds.dfy`) delivers sequences of inputs one per event-loop turn:
  clicks, admin commands, and a live countdown firing. It proves what holds
  along such sequences: the invariant, the tally of a round, and that no
  cancelled countdown ever fires.
- `Server` (`server.dfy`) is the handlers as they run: a class whose fields are
  `gameState`'s fields and the runtime's timers, updated in place. Each
  method's contract ties the new fields and the emitted events to the
  matching `Game` step function and keeps the invariant.

`start` does not check `started` (server.js:51-63). A second `start` during a
running round zeroes the scores, cancels the running countdown and schedules a
new one. `Rounds.RestartCancelsRound` states what happens.

## Model

| member | source | states |
|---|---|---|
| Game.WinnerOf | server.js:67-70 | The winner is A iff teamA > teamB, B iff teamB > teamA, and DRAW iff the scores are equal, so exactly one case holds |
| Game.Click | server.js:27-36 | A click never touches `started` or any countdown. While no round runs it changes nothing and broadcasts nothing. While a round runs, "A" adds exactly 1 to teamA and leaves teamB alone, and "B" does the same for teamB. Any other value leaves the state unchanged. A running click always broadcasts the current scores, even for an unknown team. The invariant is kept |
| Game.Reset | server.js:41-49 | From any state, both scores become 0 and `started` becomes false. The countdown `gameState.timer` names is no longer live, and in a reachable state no countdown is pending at all. Broadcasts updateScore, resetGame, gameStatus(false) |
| Game.Start | server.js:51-63 | Both scores become 0 and `started` becomes true. `gameState.timer` names a freshly scheduled countdown. In a reachable state it is the only live countdown, and every earlier one is cancelled, including when a round was already running. The invariant is kept. Broadcasts updateScore, gameStart(30), gameStatus(true) |
| Game.AdminAction | server.js:38-80 | "reset" is Reset and "start" is Start. Any other action leaves the whole state unchanged and broadcasts nothing. The invariant is kept |
| Game.Expire | server.js:63-78 | Callable only for a live countdown, which in a reachable state is the running round's own. The callback clears `started`, consumes that countdown so that none is left pending, and leaves both scores unchanged. It broadcasts gameStatus(false) and then gameOver with WinnerOf of the scores and the scores at the moment of expiry |
| Game.AtMostOneCountdown | server.js:45-63 | In a reachable state at most one countdown is pending. While a round runs, it is exactly the one `gameState.timer` names |
| Game.ResetIdempotent | server.js:41-49 | Resetting twice gives the same state and events as resetting once |
| Rounds.InvariantAlongTrace | server.js:13-78 | After any sequence of clicks, admin commands and countdown expiries, the invariant still holds. Both scores stay ≥ 0, `started` implies a pending countdown, and no other countdown is pending |
| Rounds.IdleTapsIgnored | server.js:27-29 | While no round runs, any sequence of clicks leaves the state unchanged and broadcasts nothing |
| Rounds.RunningTapsCounted | server.js:29-35 | While a round runs, a sequence of clicks raises teamA by the number of "A" taps and teamB by the number of "B" taps. It leaves the round and its countdown alone. It broadcasts exactly one updateScore per click, and the k-th one carries the scores after the first k+1 clicks |
| Rounds.RoundOutcome | server.js:51-78 | For the sequence start, any clicks, then the scheduled countdown firing: the sequence is possible. The round ends stopped with nothing pending and the scores equal to the tap counts. The last event is gameOver carrying WinnerOf of those counts and the counts themselves |
| Rounds.RestartCancelsRound | server.js:51-63 | A start issued while a round is running, after any clicks, zeroes the scores and keeps the round running. Only the new countdown is live. The first round's countdown never fires on any later sequence of events |
| Rounds.CancelledNeverFires | server.js:45-63 | A countdown handle that was handed out and is no longer live never fires on any later sequence of events, starts included: handles are never reused |
| Rounds.QuietUntilStart | server.js:27-49 | From a state with no round running, no countdown fires before the next start, and the round stays stopped |
| Rounds.NoStaleExpiry | server.js:41-45 | After a reset, even one in the middle of a round, no countdown at all fires before the next start, and the round stays stopped |
| Rounds.ResetCancelsRound | server.js:41-45 | A reset in the middle of a round cancels that round's countdown for good. It never fires on any later sequence of events, starts included, so the cancelled round never reports a result |
| Server.GameServer.constructor | server.js:13-18 | The server starts with both scores 0, no round, no timer and no pending countdown, and the invariant holds |
| Server.GameServer.Click | server.js:27-36 | The fields change exactly as Game.Click says and the broadcast is Game.Click's. Nothing changes when no round runs. "A" or "B" adds 1 to its own counter only. The invariant is kept |
| Server.GameServer.AdminAction | server.js:38-63 | The fields and broadcasts are Game.AdminAction's. A reset leaves zero scores, no round and no pending countdown. A start leaves zero scores, a running round and exactly one live countdown, fresh and disjoint from every earlier one. Any other action leaves the object unchanged |
| Server.GameServer.Expire | server.js:63-78 | The fields and broadcasts are Game.Expire's. The round stops with nothing pending and both scores unchanged. The last event is gameOver with the winner and the scores at expiry |

## Left out

- The Express static file server, the HTTP server, `PORT` and `server.listen` (server.js:1-11, 83-86) are process plumbing with no game logic.
- The socket.io transport is not modelled. Each handler returns the list of events it broadcasts, in order, and the model does not deliver them. The greeting a newly connected client receives (server.js:22-25) is a read of the current state sent to one socket and is not modelled.
- The `updateScore` payload is the whole `gameState` object in the source. The model's `UpdateScore` event carries the two scores and `started`, but not the timer handle.
- Every broadcast is assumed to return normally. Once a countdown is scheduled, the `updateScore` payload includes the runtime's timer object, and depending on the runtime and the transport library, serialising it might throw. Nothing here decides whether it does. If the emit at server.js:57 threw, `start` would stop before server.js:62-63. The scores would be 0 and `started` true, the old countdown would still be live, and no new one would be scheduled. The model does not capture that abort. The clicks at server.js:35 and the greeting at server.js:24 face the same assumption. `reset` is not affected, because `clearTimeout` (server.js:45) runs before its emits.
- Rounds.RestartCancelsRound: holds only under the assumption above that the emit at server.js:57 returns normally.
- Wall-clock time is not modelled. A countdown's firing is the explicit `Fire` input, or `Expire`. Nothing bounds when it happens relative to clicks, so the 30 000 ms delay and the ordering of events in time are outside the model. `GameDuration` appears only as the payload of `gameStart`.
- `console.log` of admin commands (server.js:39) is debugging output.
- Scores are unbounded naturals. JavaScript numbers count exactly up to 2^53, far beyond any number of taps in a 30-second round.
- Player rosters, team selection, elimination, forfeits and tournament rounds are not part of `server.js`, so they are not part of this model.
