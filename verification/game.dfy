/** The round state machine of the tap-battle server: the shared `gameState`
    record, the JavaScript runtime's pending countdowns, and one pure step
    function per handler (a click, an admin command, a countdown that fires).
    Each step yields the next state and the events it broadcasts. */
module Game {

  /** Length of one round in seconds; the countdown is scheduled for
      GameDuration * 1000 milliseconds. */
  const GameDuration: nat := 30

  /** The value of `gameState.timer`: null until the first start, afterwards
      the handle of the most recently scheduled countdown (which may since
      have fired or been cleared). */
  datatype Handle = NoTimer | Timer(id: nat)

  datatype Winner = A | B | Draw

  /** The events the server broadcasts to every connected client. */
  datatype Event =
    | UpdateScore(teamA: nat, teamB: nat, started: bool)
    | GameStatus(running: bool)
    | ResetGame
    | GameStart(seconds: nat)
    | GameOver(winner: Winner, scoreA: nat, scoreB: nat)

  /** `gameState` (teamA, teamB, started, timer) together with the runtime's
      view of the timers: `live` holds the handles of countdowns that are
      scheduled and have neither fired nor been cleared, and `nextHandle` is
      the handle the next `setTimeout` hands out. */
  datatype State = State(
    teamA: nat,
    teamB: nat,
    started: bool,
    timer: Handle,
    live: set<nat>,
    nextHandle: nat)

  /** What one handler leaves behind: the new state and the events it sent,
      in order. */
  datatype Outcome = Outcome(next: State, emitted: seq<Event>)

  /** The state when the process starts: no scores, no round, no timer. */
  const Init := State(0, 0, false, NoTimer, {}, 0)

  /** The handles that `clearTimeout(h)` cancels: none for null. */
  function Handles(h: Handle): (hs: set<nat>) {
    if h.Timer? then {h.id} else {}
  }

  /** Holds in every reachable state: the only countdown that can still fire
      is the one `gameState.timer` names, a round is running exactly when
      such a countdown is pending, and every handle handed out is older than
      the next one. */
  predicate Inv(s: State) {
    && s.live <= Handles(s.timer)
    && (s.started <==> s.live != {})
    && (s.timer.Timer? ==> s.timer.id < s.nextHandle)
  }

  /** The winner of a round, by strict comparison of the two scores. */
  function WinnerOf(a: nat, b: nat): (w: Winner)
    ensures w == A <==> a > b
    ensures w == B <==> b > a
    ensures w == Draw <==> a == b
  {
    if a > b then A else if b > a then B else Draw
  }

  /** The `click` handler. */
  function Click(s: State, team: string): (o: Outcome)
    ensures o.next.started == s.started && o.next.timer == s.timer
    ensures o.next.live == s.live && o.next.nextHandle == s.nextHandle
    ensures !s.started ==> o == Outcome(s, [])
    ensures team == "A" ==>
      o.next.teamA == s.teamA + (if s.started then 1 else 0) && o.next.teamB == s.teamB
    ensures team == "B" ==>
      o.next.teamB == s.teamB + (if s.started then 1 else 0) && o.next.teamA == s.teamA
    ensures team != "A" && team != "B" ==> o.next == s
    ensures s.started ==> o.emitted == [UpdateScore(o.next.teamA, o.next.teamB, true)]
    ensures Inv(s) ==> Inv(o.next)
  {
    if !s.started then
      Outcome(s, [])
    else
      var t :=
        if team == "A" then s.(teamA := s.teamA + 1)
        else if team == "B" then s.(teamB := s.teamB + 1)
        else s;
      Outcome(t, [UpdateScore(t.teamA, t.teamB, t.started)])
  }

  /** The admin command "reset". */
  function Reset(s: State): (o: Outcome)
    ensures o.next.teamA == 0 && o.next.teamB == 0 && !o.next.started
    ensures o.next.timer == s.timer && o.next.nextHandle == s.nextHandle
    ensures o.next.live <= s.live && Handles(s.timer) !! o.next.live
    ensures Inv(s) ==> o.next.live == {} && Inv(o.next)
    ensures o.emitted == [UpdateScore(0, 0, false), ResetGame, GameStatus(false)]
  {
    Outcome(State(0, 0, false, s.timer, s.live - Handles(s.timer), s.nextHandle),
            [UpdateScore(0, 0, false), ResetGame, GameStatus(false)])
  }

  /** The admin command "start": it restarts the round even when one is
      already running. */
  function Start(s: State): (o: Outcome)
    ensures o.next.teamA == 0 && o.next.teamB == 0 && o.next.started
    ensures o.next.timer == Timer(s.nextHandle) && s.nextHandle in o.next.live
    ensures o.next.nextHandle == s.nextHandle + 1
    ensures Inv(s) ==> o.next.live == {s.nextHandle} && s.live !! o.next.live && Inv(o.next)
    ensures o.emitted == [UpdateScore(0, 0, true), GameStart(GameDuration), GameStatus(true)]
  {
    var n := s.nextHandle;
    Outcome(State(0, 0, true, Timer(n), (s.live - Handles(s.timer)) + {n}, n + 1),
            [UpdateScore(0, 0, true), GameStart(GameDuration), GameStatus(true)])
  }

  /** The `adminAction` handler: "reset", "start", and nothing for any other
      action. */
  function AdminAction(s: State, action: string): (o: Outcome)
    ensures action == "reset" ==> o == Reset(s)
    ensures action == "start" ==> o == Start(s)
    ensures action != "reset" && action != "start" ==> o == Outcome(s, [])
    ensures Inv(s) ==> Inv(o.next)
  {
    if action == "reset" then Reset(s)
    else if action == "start" then Start(s)
    else Outcome(s, [])
  }

  /** The callback of the countdown with handle `h`, which the runtime runs
      only while that countdown is live. */
  function Expire(s: State, h: nat): (o: Outcome)
    requires h in s.live
    ensures !o.next.started && h !in o.next.live
    ensures o.next.teamA == s.teamA && o.next.teamB == s.teamB
    ensures o.next.timer == s.timer && o.next.nextHandle == s.nextHandle
    ensures Inv(s) ==> s.started && s.timer == Timer(h) && o.next.live == {} && Inv(o.next)
    ensures o.emitted == [GameStatus(false), GameOver(WinnerOf(s.teamA, s.teamB), s.teamA, s.teamB)]
  {
    Outcome(s.(started := false, live := s.live - {h}),
            [GameStatus(false), GameOver(WinnerOf(s.teamA, s.teamB), s.teamA, s.teamB)])
  }

  /** In a reachable state at most one countdown is pending, and while a
      round runs it is exactly the one `gameState.timer` names. */
  lemma AtMostOneCountdown(s: State)
    requires Inv(s)
    ensures |s.live| <= 1
    ensures s.started ==> s.timer.Timer? && s.live == {s.timer.id}
  {
  }

  /** Resetting twice is the same as resetting once, events included. */
  lemma ResetIdempotent(s: State)
    ensures Reset(Reset(s).next) == Reset(s)
  {
  }
}
