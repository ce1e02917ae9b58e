/** The server's handlers as they run: one object holds `gameState` and the
    runtime's pending countdowns, and each handler updates its fields in
    place. Every method is proved to do what the matching step function of
    `Game` describes, and to keep the invariant. */
module Server {
  import opened Game

  class GameServer {
    var teamA: nat
    var teamB: nat
    var started: bool
    var timer: Handle
    /** Handles of the countdowns the runtime has scheduled and neither run
        nor cleared. */
    var live: set<nat>
    /** The handle the next `setTimeout` returns. */
    var nextHandle: nat

    function Snapshot(): (s: State)
      reads this
    {
      State(teamA, teamB, started, timer, live, nextHandle)
    }

    ghost predicate Valid()
      reads this
    {
      Inv(Snapshot())
    }

    constructor ()
      ensures Valid() && Snapshot() == Init
    {
      teamA, teamB, started, timer := 0, 0, false, NoTimer;
      live, nextHandle := {}, 0;
    }

    /** The `click` handler. */
    method Click(team: string) returns (emitted: seq<Event>)
      requires Valid()
      modifies this
      ensures Valid()
      ensures Outcome(Snapshot(), emitted) == Game.Click(old(Snapshot()), team)
      ensures !old(started) ==> unchanged(this) && emitted == []
      ensures old(started) && team == "A" ==> teamA == old(teamA) + 1 && teamB == old(teamB)
      ensures old(started) && team == "B" ==> teamB == old(teamB) + 1 && teamA == old(teamA)
    {
      if !started {
        return [];
      }
      if team == "A" {
        teamA := teamA + 1;
      } else if team == "B" {
        teamB := teamB + 1;
      }
      emitted := [UpdateScore(teamA, teamB, started)];
    }

    /** The `adminAction` handler. */
    method AdminAction(action: string) returns (emitted: seq<Event>)
      requires Valid()
      modifies this
      ensures Valid()
      ensures Outcome(Snapshot(), emitted) == Game.AdminAction(old(Snapshot()), action)
      ensures action == "reset" ==> teamA == 0 && teamB == 0 && !started && live == {}
      ensures action == "start" ==>
        && teamA == 0 && teamB == 0 && started
        && timer == Timer(old(nextHandle)) && live == {timer.id} && old(live) !! live
      ensures action != "reset" && action != "start" ==> unchanged(this) && emitted == []
    {
      if action == "reset" {
        teamA, teamB, started := 0, 0, false;
        live := live - Handles(timer);  // clearTimeout(gameState.timer)
        emitted := [UpdateScore(teamA, teamB, started), ResetGame, GameStatus(false)];
      } else if action == "start" {
        teamA, teamB, started := 0, 0, true;
        emitted := [UpdateScore(teamA, teamB, started), GameStart(GameDuration), GameStatus(true)];
        live := live - Handles(timer);  // clearTimeout(gameState.timer)
        timer := Timer(nextHandle);     // gameState.timer = setTimeout(...)
        live := live + {nextHandle};
        nextHandle := nextHandle + 1;
      } else {
        emitted := [];
      }
    }

    /** The countdown with handle `handle` fires: the runtime drops it from
        the live timers and runs its callback. */
    method Expire(handle: nat) returns (emitted: seq<Event>)
      requires Valid() && handle in live
      modifies this
      ensures Valid()
      ensures Outcome(Snapshot(), emitted) == Game.Expire(old(Snapshot()), handle)
      ensures !started && live == {} && teamA == old(teamA) && teamB == old(teamB)
      ensures emitted[|emitted| - 1] == GameOver(WinnerOf(teamA, teamB), teamA, teamB)
    {
      live := live - {handle};
      started := false;
      var winner := Draw;
      if teamA > teamB {
        winner := A;
      } else if teamB > teamA {
        winner := B;
      }
      emitted := [GameStatus(false), GameOver(winner, teamA, teamB)];
    }
  }
}
