/** Sequences of inputs delivered to the server one at a time, as the event
    loop does, and the properties that hold along them: the invariant, what
    a round of taps adds up to, and that no stale countdown ever fires. */
module Rounds {
  import opened Game

  /** One turn of the event loop: a client's click, an admin command, or the
      countdown with the given handle firing. */
  datatype Input = Tap(team: string) | Admin(action: string) | Fire(handle: nat)

  /** The runtime only runs the callback of a countdown that is still live. */
  predicate Enabled(s: State, i: Input) {
    i.Fire? ==> i.handle in s.live
  }

  function Deliver(s: State, i: Input): (o: Outcome)
    requires Enabled(s, i)
  {
    match i
    case Tap(team) => Click(s, team)
    case Admin(action) => AdminAction(s, action)
    case Fire(h) => Expire(s, h)
  }

  /** Every input of `trace` can happen in the state it meets. */
  predicate ValidTrace(s: State, trace: seq<Input>)
    decreases |trace|
  {
    trace == [] || (Enabled(s, trace[0]) && ValidTrace(Deliver(s, trace[0]).next, trace[1..]))
  }

  /** The state after `trace` and every event broadcast along the way. */
  function Replay(s: State, trace: seq<Input>): (o: Outcome)
    requires ValidTrace(s, trace)
    decreases |trace|
  {
    if trace == [] then Outcome(s, [])
    else
      var o := Deliver(s, trace[0]);
      var rest := Replay(o.next, trace[1..]);
      Outcome(rest.next, o.emitted + rest.emitted)
  }

  /** The clicks of a sequence of team values, in order. */
  function Taps(teams: seq<string>): (r: seq<Input>)
    ensures |r| == |teams|
  {
    if teams == [] then [] else [Tap(teams[0])] + Taps(teams[1..])
  }

  /** How many of `teams` name `team`. */
  function Count(teams: seq<string>, team: string): (n: nat) {
    if teams == [] then 0
    else (if teams[0] == team then 1 else 0) + Count(teams[1..], team)
  }

  /** A valid trace followed by a trace valid where it ends is valid. */
  lemma {:induction false} ValidTraceAppend(s: State, t1: seq<Input>, t2: seq<Input>)
    requires ValidTrace(s, t1)
    requires ValidTrace(Replay(s, t1).next, t2)
    ensures ValidTrace(s, t1 + t2)
    decreases |t1|
  {
    if t1 == [] {
      assert t1 + t2 == t2;
    } else {
      var t := t1 + t2;
      assert t[0] == t1[0];
      assert t[1..] == t1[1..] + t2;
      ValidTraceAppend(Deliver(s, t1[0]).next, t1[1..], t2);
    }
  }

  /** Replaying two traces one after the other is replaying their
      concatenation. */
  lemma {:induction false} ReplayAppend(s: State, t1: seq<Input>, t2: seq<Input>)
    requires ValidTrace(s, t1)
    requires ValidTrace(Replay(s, t1).next, t2)
    ensures ValidTrace(s, t1 + t2)
    ensures Replay(s, t1 + t2) ==
      Outcome(Replay(Replay(s, t1).next, t2).next,
              Replay(s, t1).emitted + Replay(Replay(s, t1).next, t2).emitted)
    decreases |t1|
  {
    ValidTraceAppend(s, t1, t2);
    if t1 == [] {
      assert t1 + t2 == t2;
    } else {
      var t := t1 + t2;
      assert t[0] == t1[0];
      assert t[1..] == t1[1..] + t2;
      var o := Deliver(s, t1[0]);
      var r1 := Replay(o.next, t1[1..]);
      ReplayAppend(o.next, t1[1..], t2);
      var r2 := Replay(r1.next, t2);
      assert o.emitted + (r1.emitted + r2.emitted) == (o.emitted + r1.emitted) + r2.emitted;
    }
  }

  /** Every handler keeps the invariant, so it holds after any sequence of
      events: both scores stay non-negative, a running round always has its
      one countdown pending, and no other countdown is pending. */
  lemma {:induction false} InvariantAlongTrace(s: State, trace: seq<Input>)
    requires Inv(s) && ValidTrace(s, trace)
    ensures Inv(Replay(s, trace).next)
    decreases |trace|
  {
    if trace != [] {
      InvariantAlongTrace(Deliver(s, trace[0]).next, trace[1..]);
    }
  }

  /** While no round is running, any number of clicks changes nothing and
      broadcasts nothing. */
  lemma {:induction false} IdleTapsIgnored(s: State, teams: seq<string>)
    requires !s.started
    ensures ValidTrace(s, Taps(teams))
    ensures Replay(s, Taps(teams)) == Outcome(s, [])
    decreases |teams|
  {
    if teams != [] {
      assert Taps(teams)[0] == Tap(teams[0]);
      assert Taps(teams)[1..] == Taps(teams[1..]);
      IdleTapsIgnored(s, teams[1..]);
    }
  }

  /** While a round runs, each click for "A" or "B" adds exactly one to that
      team, other values add nothing, the round and its countdown are left
      alone, and the k-th click broadcasts one score update carrying the
      scores as they stand after the first k+1 clicks. */
  lemma {:induction false} RunningTapsCounted(s: State, teams: seq<string>)
    requires s.started
    ensures ValidTrace(s, Taps(teams))
    ensures Replay(s, Taps(teams)).next ==
      s.(teamA := s.teamA + Count(teams, "A"), teamB := s.teamB + Count(teams, "B"))
    ensures |Replay(s, Taps(teams)).emitted| == |teams|
    ensures forall k | 0 <= k < |teams| ::
      Replay(s, Taps(teams)).emitted[k] ==
        UpdateScore(s.teamA + Count(teams[..k + 1], "A"), s.teamB + Count(teams[..k + 1], "B"), true)
    decreases |teams|
  {
    if teams != [] {
      assert Taps(teams)[0] == Tap(teams[0]);
      assert Taps(teams)[1..] == Taps(teams[1..]);
      var t := Click(s, teams[0]).next;
      RunningTapsCounted(t, teams[1..]);
      var e := Replay(s, Taps(teams)).emitted;
      var rest := Replay(t, Taps(teams[1..])).emitted;
      assert e == [UpdateScore(t.teamA, t.teamB, true)] + rest;
      forall k | 0 <= k < |teams|
        ensures e[k] ==
          UpdateScore(s.teamA + Count(teams[..k + 1], "A"), s.teamB + Count(teams[..k + 1], "B"), true)
      {
        var p := teams[..k + 1];
        assert p[0] == teams[0];
        assert p[1..] == teams[1..][..k];
        if k > 0 {
          assert e[k] == rest[k - 1];
        } else {
          assert p[1..] == [];
        }
      }
    }
  }

  /** A whole round: "start", any clicks, then the countdown that start
      scheduled fires. The round ends with the clicks counted per team,
      nothing pending, and a final report whose winner and scores are those
      counts. */
  lemma RoundOutcome(s: State, teams: seq<string>)
    requires Inv(s)
    ensures ValidTrace(s, [Admin("start")] + Taps(teams) + [Fire(s.nextHandle)])
    ensures
      var o := Replay(s, [Admin("start")] + Taps(teams) + [Fire(s.nextHandle)]);
      var a, b := Count(teams, "A"), Count(teams, "B");
      && o.next.teamA == a && o.next.teamB == b
      && !o.next.started && o.next.live == {}
      && |o.emitted| > 0 && o.emitted[|o.emitted| - 1] == GameOver(WinnerOf(a, b), a, b)
  {
    var start := [Admin("start")];
    var fire := [Fire(s.nextHandle)];
    var s1 := Start(s).next;
    assert ValidTrace(s1, []);
    assert Replay(s, start) == Outcome(s1, Start(s).emitted);
    RunningTapsCounted(s1, teams);
    var s2 := Replay(s1, Taps(teams)).next;
    ReplayAppend(s, start, Taps(teams));
    assert s2.live == {s.nextHandle};
    assert ValidTrace(Expire(s2, s.nextHandle).next, []);
    assert ValidTrace(s2, fire);
    ReplayAppend(s, start + Taps(teams), fire);
  }

  /** A "start" issued while a round runs restarts it: whatever was clicked
      is discarded, and the first round's countdown is cancelled, so the only
      countdown that can fire is the new one. */
  lemma RestartCancelsRound(s: State, teams: seq<string>)
    requires Inv(s)
    ensures ValidTrace(Start(s).next, Taps(teams))
    ensures
      var s1 := Start(s).next;
      var s3 := Start(Replay(s1, Taps(teams)).next).next;
      && s3.teamA == 0 && s3.teamB == 0 && s3.started
      && s3.live == {s1.nextHandle} && s1.timer.id !in s3.live
      && forall later | ValidTrace(s3, later) ::
           forall i | 0 <= i < |later| :: later[i] != Fire(s1.timer.id)
  {
    var s1 := Start(s).next;
    RunningTapsCounted(s1, teams);
    var s3 := Start(Replay(s1, Taps(teams)).next).next;
    forall later | ValidTrace(s3, later)
      ensures forall i | 0 <= i < |later| :: later[i] != Fire(s1.timer.id)
    {
      CancelledNeverFires(s3, s1.timer.id, later);
    }
  }

  /** A countdown that was handed out and is no longer live never fires
      again, whatever happens later: handles are never reused, and only a
      live countdown fires. */
  lemma {:induction false} CancelledNeverFires(s: State, h: nat, trace: seq<Input>)
    requires Inv(s) && h < s.nextHandle && h !in s.live
    requires ValidTrace(s, trace)
    ensures forall i | 0 <= i < |trace| :: trace[i] != Fire(h)
    decreases |trace|
  {
    if trace != [] {
      var t := Deliver(s, trace[0]).next;
      assert Inv(t) && h < t.nextHandle && h !in t.live;
      CancelledNeverFires(t, h, trace[1..]);
      forall i | 0 <= i < |trace| ensures trace[i] != Fire(h) {
        if i > 0 { assert trace[i] == trace[1..][i - 1]; }
      }
    }
  }

  /** From a state with no round running, no countdown can fire until the
      next "start", and the round stays stopped. */
  lemma {:induction false} QuietUntilStart(s: State, trace: seq<Input>)
    requires Inv(s) && !s.started
    requires forall i | 0 <= i < |trace| :: trace[i] != Admin("start")
    requires ValidTrace(s, trace)
    ensures forall i | 0 <= i < |trace| :: !trace[i].Fire?
    ensures !Replay(s, trace).next.started && Replay(s, trace).next.live == {}
    decreases |trace|
  {
    if trace != [] {
      assert !trace[0].Fire?;
      var t := Deliver(s, trace[0]).next;
      QuietUntilStart(t, trace[1..]);
      forall i | 0 <= i < |trace| ensures !trace[i].Fire? {
        if i > 0 { assert trace[i] == trace[1..][i - 1]; }
      }
    }
  }

  /** After "reset", even in the middle of a round, no countdown fires until
      the next "start": the cancelled round never reports a result. */
  lemma NoStaleExpiry(s: State, trace: seq<Input>)
    requires Inv(s)
    requires forall i | 0 <= i < |trace| :: trace[i] != Admin("start")
    requires ValidTrace(Reset(s).next, trace)
    ensures forall i | 0 <= i < |trace| :: !trace[i].Fire?
    ensures !Replay(Reset(s).next, trace).next.started
  {
    QuietUntilStart(Reset(s).next, trace);
  }

  /** A "reset" in the middle of a round cancels that round for good: its
      countdown never fires on any later sequence of events, starts
      included, so the cancelled round never reports a result. */
  lemma ResetCancelsRound(s: State, trace: seq<Input>)
    requires Inv(s) && s.started
    requires ValidTrace(Reset(s).next, trace)
    ensures s.timer.Timer?
    ensures forall i | 0 <= i < |trace| :: trace[i] != Fire(s.timer.id)
  {
    CancelledNeverFires(Reset(s).next, s.timer.id, trace);
  }
}
