/** The worker's sliding-window pacer: each provider may be called a limited number of times
    per 60 seconds. The lock is released while a caller sleeps, and the caller does not look
    at the window again when it wakes. */
module Pacer {
  import opened Common

  const PERIOD := 60.0
  const SLACK := 0.1

  type Caller = nat

  /** The timestamps less than 60 s old. */
  function Pruned(window: seq<real>, now: real): (r: seq<real>)
    ensures |r| <= |window|
  {
    if window == [] then []
    else
      var init, t := Pruned(window[..|window| - 1], now), window[|window| - 1];
      if now - t < PERIOD then init + [t] else init
  }

  lemma PrunedPush(window: seq<real>, t: real, now: real)
    ensures Pruned(window + [t], now) == Pruned(window, now) + if now - t < PERIOD then [t] else []
  {
    assert (window + [t])[..|window|] == window;
  }

  lemma {:induction false} PrunedIsFresh(window: seq<real>, now: real)
    ensures forall t :: t in Pruned(window, now) ==> now - t < PERIOD && t in window
  {
    if window != [] { PrunedIsFresh(window[..|window| - 1], now); }
  }

  /** Pruning later makes an earlier pruning irrelevant. */
  lemma {:induction false} PrunedTwice(window: seq<real>, now: real, later: real)
    requires now <= later
    ensures Pruned(Pruned(window, now), later) == Pruned(window, later)
    ensures |Pruned(window, later)| <= |Pruned(window, now)|
  {
    if window != [] {
      var init, t := window[..|window| - 1], window[|window| - 1];
      PrunedTwice(init, now, later);
      if now - t < PERIOD { PrunedPush(Pruned(init, now), t, later); }
    }
  }

  /** Once its oldest entry has expired, a window has lost an entry. */
  lemma {:induction false} OldestExpires(window: seq<real>, now: real)
    requires window != [] && now - window[0] >= PERIOD
    ensures |Pruned(window, now)| <= |window| - 1
  {
    if |window| > 1 { OldestExpires(window[..|window| - 1], now); }
  }

  /** The grants in the half-open interval (from, from + 60]. */
  function Within(grants: seq<real>, from: real): seq<real> {
    if grants == [] then []
    else
      var init, t := Within(grants[..|grants| - 1], from), grants[|grants| - 1];
      if from < t <= from + PERIOD then init + [t] else init
  }

  lemma WithinPush(grants: seq<real>, t: real, from: real)
    ensures Within(grants + [t], from) == Within(grants, from) + if from < t <= from + PERIOD then [t] else []
  {
    assert (grants + [t])[..|grants|] == grants;
  }

  lemma {:induction false} WithinIsFresh(grants: seq<real>, from: real, t: real)
    requires t <= from + PERIOD
    ensures |Within(grants, from)| <= |Pruned(grants, t)|
  {
    if grants != [] { WithinIsFresh(grants[..|grants| - 1], from, t); }
  }

  // ------------------------------------------------------------------ the protocol

  /** One provider's window, its sleeping callers with the earliest time each may wake, every
      grant ever made, and the clock. */
  datatype State = State(window: seq<real>, sleepers: map<Caller, real>, grants: seq<real>, clock: real)

  /** Enter reads the clock twice, once to prune and once to stamp; Wake stamps after a sleep. */
  datatype Action = Enter(c: Caller, now: real, later: real) | Wake(c: Caller, now: real)

  predicate Enabled(s: State, a: Action) {
    match a
    case Enter(c, now, later) => c !in s.sleepers && s.clock <= now <= later
    case Wake(c, now) => c in s.sleepers && s.clock <= now && s.sleepers[c] <= now
  }

  predicate Waits(limit: int, s: State, now: real) {
    |Pruned(s.window, now)| >= limit
  }

  function WakeTime(window: seq<real>, now: real): real
    requires window != []
  {
    now + (PERIOD - (now - window[0]) + SLACK)
  }

  function Step(limit: int, s: State, a: Action): State
    requires limit >= 1
  {
    match a
    case Enter(c, now, later) =>
      var recent := Pruned(s.window, now);
      if |recent| >= limit then State(recent, s.sleepers[c := WakeTime(recent, now)], s.grants, later)
      else State(recent + [later], s.sleepers, s.grants + [later], later)
    case Wake(c, now) => State(s.window + [now], s.sleepers - {c}, s.grants + [now], now)
  }

  ghost predicate IsRun(limit: int, run: seq<State>, actions: seq<Action>)
    requires limit >= 1
  {
    && |run| == |actions| + 1 && run[0] == State([], map[], [], run[0].clock)
    && forall i :: 0 <= i < |actions| ==> Enabled(run[i], actions[i]) && run[i + 1] == Step(limit, run[i], actions[i])
  }

  /** Calls do not overlap: nobody enters while somebody sleeps. */
  ghost predicate Sequential(run: seq<State>, actions: seq<Action>)
    requires |run| == |actions| + 1
  {
    forall i :: 0 <= i < |actions| && actions[i].Enter? ==> run[i].sleepers == map[]
  }

  /** The window is as good as the full history for every future pruning. */
  ghost predicate Faithful(s: State) {
    forall now :: s.clock <= now ==> Pruned(s.window, now) == Pruned(s.grants, now)
  }

  lemma StepStaysFaithful(limit: int, s: State, a: Action)
    requires limit >= 1 && Faithful(s) && Enabled(s, a)
    ensures Faithful(Step(limit, s, a))
  {
    hide Pruned;
    var s' := Step(limit, s, a);
    forall now | s'.clock <= now ensures Pruned(s'.window, now) == Pruned(s'.grants, now) {
      assert Pruned(s.window, now) == Pruned(s.grants, now);
      match a
      case Enter(c, t, later) =>
        PrunedTwice(s.window, t, now);
        PrunedPush(Pruned(s.window, t), later, now);
        PrunedPush(s.grants, later, now);
      case Wake(c, t) =>
        PrunedPush(s.window, t, now);
        PrunedPush(s.grants, t, now);
    }
  }

  lemma {:induction false} RunsAreFaithful(limit: int, run: seq<State>, actions: seq<Action>)
    requires limit >= 1 && IsRun(limit, run, actions)
    ensures Faithful(run[|actions|])
    decreases |actions|
  {
    if actions != [] {
      var k := |actions| - 1;
      RunsAreFaithful(limit, run[..k + 1], actions[..k]);
      StepStaysFaithful(limit, run[k], actions[k]);
    }
  }

  /** In every run, however calls overlap, a grant taken without waiting leaves at most `limit`
      grants in the trailing 60 s. */
  lemma ImmediateGrantRespectsLimit(limit: int, run: seq<State>, actions: seq<Action>, i: nat)
    requires limit >= 1 && IsRun(limit, run, actions) && i < |actions|
    requires actions[i].Enter? && !Waits(limit, run[i], actions[i].now)
    ensures run[i + 1].grants == run[i].grants + [actions[i].later]
    ensures |Pruned(run[i + 1].grants, actions[i].later)| <= limit
  {
    RunsAreFaithful(limit, run[..i + 1], actions[..i]);
    var s, now, later := run[i], actions[i].now, actions[i].later;
    assert Faithful(s);
    assert Pruned(s.window, now) == Pruned(s.grants, now);
    PrunedTwice(s.grants, now, later);
    PrunedPush(s.grants, later, later);
  }

  // ------------------------------------------------------------------ exactly when the limit holds

  /** No grant lies in the future. */
  ghost predicate Past(s: State) {
    forall t :: t in s.grants ==> t <= s.clock
  }

  lemma {:induction false} RunsLookBack(limit: int, run: seq<State>, actions: seq<Action>)
    requires limit >= 1 && IsRun(limit, run, actions)
    ensures Past(run[|actions|])
    decreases |actions|
  {
    hide Pruned;
    if actions != [] { RunsLookBack(limit, run[..|actions|], actions[..|actions| - 1]); }
  }

  /** While no grant lies in the future, the recent grants are those of the trailing interval. */
  lemma {:induction false} RecentIsWithin(grants: seq<real>, t: real)
    requires forall g :: g in grants ==> g <= t
    ensures Pruned(grants, t) == Within(grants, t - PERIOD)
  {
    if grants != [] {
      var init := grants[..|grants| - 1];
      assert forall g :: g in init ==> g in grants;
      assert grants[|grants| - 1] in grants;
      RecentIsWithin(init, t);
    }
  }

  /** A grant stamped when fewer than `limit` grants are recent keeps every interval within the limit. */
  lemma GrantStaysWithin(limit: int, grants: seq<real>, t: real)
    requires |Pruned(grants, t)| <= limit - 1
    requires forall from :: |Within(grants, from)| <= limit
    ensures forall from :: |Within(grants + [t], from)| <= limit
  {
    hide Pruned, Within;
    forall from ensures |Within(grants + [t], from)| <= limit {
      WithinPush(grants, t, from);
      if from < t <= from + PERIOD { WithinIsFresh(grants, from, t); }
    }
  }

  /** The re-check that the comment in the code announces: fewer than `limit` grants are recent. */
  predicate HasRoom(limit: int, s: State, now: real) {
    |Pruned(s.window, now)| < limit
  }

  /** Every caller that wakes finds room. */
  ghost predicate RoomAtWakes(limit: int, run: seq<State>, actions: seq<Action>)
    requires |run| == |actions| + 1
  {
    forall i :: 0 <= i < |actions| && actions[i].Wake? ==> HasRoom(limit, run[i], actions[i].now)
  }

  ghost predicate Respected(limit: int, s: State) {
    forall from :: |Within(s.grants, from)| <= limit
  }

  /** One step keeps a respected limit unless a caller wakes without room. */
  lemma RespectedStep(limit: int, s: State, a: Action)
    requires limit >= 1 && Faithful(s) && Enabled(s, a) && Respected(limit, s)
    requires a.Wake? ==> HasRoom(limit, s, a.now)
    ensures Respected(limit, Step(limit, s, a))
  {
    hide Pruned, Within;
    assert Pruned(s.window, a.now) == Pruned(s.grants, a.now);
    match a
    case Wake(c, now) => GrantStaysWithin(limit, s.grants, now);
    case Enter(c, now, later) =>
      if !Waits(limit, s, now) {
        PrunedTwice(s.grants, now, later);
        GrantStaysWithin(limit, s.grants, later);
      }
  }

  /** A caller that wakes without room breaks the limit. */
  lemma RoomlessWakeBreaks(limit: int, s: State, a: Action)
    requires limit >= 1 && Faithful(s) && Past(s) && Enabled(s, a) && a.Wake? && !HasRoom(limit, s, a.now)
    ensures !Respected(limit, Step(limit, s, a))
  {
    hide Pruned, Within;
    assert Pruned(s.window, a.now) == Pruned(s.grants, a.now);
    RecentIsWithin(s.grants, a.now);
    WithinPush(s.grants, a.now, a.now - PERIOD);
    assert |Within(Step(limit, s, a).grants, a.now - PERIOD)| > limit;
  }

  /** What is broken stays broken: grants are never taken back. */
  lemma BrokenStep(limit: int, s: State, a: Action)
    requires limit >= 1 && !Respected(limit, s)
    ensures !Respected(limit, Step(limit, s, a))
  {
    hide Pruned, Within;
    var from :| |Within(s.grants, from)| > limit;
    var s' := Step(limit, s, a);
    if s'.grants != s.grants { WithinPush(s.grants, s'.clock, from); }
    assert |Within(s'.grants, from)| > limit;
  }

  /** A run, however its calls overlap, keeps every 60-second interval within the limit exactly
      when every caller that wakes finds room. */
  lemma {:induction false} RespectedIffRoomAtWakes(limit: int, run: seq<State>, actions: seq<Action>)
    requires limit >= 1 && IsRun(limit, run, actions)
    ensures Respected(limit, run[|actions|]) <==> RoomAtWakes(limit, run, actions)
    decreases |actions|
  {
    hide Pruned, Within, Faithful, Past, HasRoom, Respected, Step, Enabled;
    if actions == [] {
      StartIsRespected(limit, run[0]);
    } else {
      var k := |actions| - 1;
      var before, done := run[..k + 1], actions[..k];
      RespectedIffRoomAtWakes(limit, before, done);
      RunsAreFaithful(limit, before, done);
      RunsLookBack(limit, before, done);
      RoomSoFar(limit, run, actions);
      if !Respected(limit, run[k]) {
        BrokenStep(limit, run[k], actions[k]);
      } else if actions[k].Wake? && !HasRoom(limit, run[k], actions[k].now) {
        RoomlessWakeBreaks(limit, run[k], actions[k]);
      } else {
        RespectedStep(limit, run[k], actions[k]);
      }
    }
  }

  lemma StartIsRespected(limit: int, s: State)
    requires limit >= 1 && s.grants == []
    ensures Respected(limit, s)
  {
  }

  lemma RoomSoFar(limit: int, run: seq<State>, actions: seq<Action>)
    requires |run| == |actions| + 1 && actions != []
    ensures var k := |actions| - 1;
      RoomAtWakes(limit, run, actions) <==>
        && RoomAtWakes(limit, run[..k + 1], actions[..k])
        && (actions[k].Wake? ==> HasRoom(limit, run[k], actions[k].now))
  {
    hide HasRoom;
    var k := |actions| - 1;
    assert forall i :: 0 <= i < k ==> run[..k + 1][i] == run[i] && actions[..k][i] == actions[i];
    if RoomAtWakes(limit, run[..k + 1], actions[..k]) && (actions[k].Wake? ==> HasRoom(limit, run[k], actions[k].now)) {
      forall i | 0 <= i < |actions| && actions[i].Wake? ensures HasRoom(limit, run[i], actions[i].now) {
        if i < k { assert actions[..k][i].Wake?; }
      }
    }
  }

  // ------------------------------------------------------------------ calls that do not overlap

  /** With at most one sleeper, there is room once the sleeper may wake. */
  ghost predicate Paced(limit: int, s: State) {
    && |Pruned(s.grants, s.clock)| <= limit
    && (forall c, d :: c in s.sleepers && d in s.sleepers ==> c == d)
    && (forall c, now :: c in s.sleepers && s.sleepers[c] <= now ==> |Pruned(s.grants, now)| <= limit - 1)
  }

  lemma EnterStaysPaced(limit: int, s: State, a: Action)
    requires limit >= 1 && Faithful(s) && Paced(limit, s) && Enabled(s, a) && a.Enter? && s.sleepers == map[]
    ensures Paced(limit, Step(limit, s, a))
  {
    hide Pruned;
    var recent := Pruned(s.window, a.now);
    assert recent == Pruned(s.grants, a.now);
    PrunedTwice(s.grants, s.clock, a.now);
    PrunedTwice(s.grants, a.now, a.later);
    if |recent| < limit {
      PrunedPush(s.grants, a.later, a.later);
    } else {
      var wake := WakeTime(recent, a.now);
      forall now | wake <= now ensures |Pruned(s.grants, now)| <= limit - 1 {
        FreshIsBefore(s.window, a.now);
        PrunedTwice(s.grants, a.now, now);
        OldestExpires(recent, now);
      }
    }
  }

  /** A sleeper wakes more than 0.1 s later. */
  lemma FreshIsBefore(window: seq<real>, now: real)
    requires Pruned(window, now) != []
    ensures WakeTime(Pruned(window, now), now) > now + SLACK
  {
    hide Pruned;
    PrunedIsFresh(window, now);
    assert Pruned(window, now)[0] in Pruned(window, now);
  }

  lemma WakeStaysPaced(limit: int, s: State, a: Action)
    requires limit >= 1 && Faithful(s) && Paced(limit, s) && Enabled(s, a) && a.Wake?
    ensures HasRoom(limit, s, a.now) && Paced(limit, Step(limit, s, a))
  {
    hide Pruned;
    assert Pruned(s.window, a.now) == Pruned(s.grants, a.now);
    PrunedPush(s.grants, a.now, a.now);
  }

  lemma {:induction false} SequentialRunsArePaced(limit: int, run: seq<State>, actions: seq<Action>)
    requires limit >= 1 && IsRun(limit, run, actions) && Sequential(run, actions)
    ensures Paced(limit, run[|actions|]) && RoomAtWakes(limit, run, actions)
    decreases |actions|
  {
    hide Paced, HasRoom, Faithful;
    if actions == [] {
      StartIsPaced(limit, run[0]);
    } else {
      var k := |actions| - 1;
      SequentialRunsArePaced(limit, run[..k + 1], actions[..k]);
      RunsAreFaithful(limit, run[..k + 1], actions[..k]);
      RoomSoFar(limit, run, actions);
      if actions[k].Enter? {
        EnterStaysPaced(limit, run[k], actions[k]);
      } else {
        WakeStaysPaced(limit, run[k], actions[k]);
      }
    }
  }

  lemma StartIsPaced(limit: int, s: State)
    requires limit >= 1 && s == State([], map[], [], s.clock)
    ensures Paced(limit, s)
  {
  }

  /** When calls do not overlap, every sleeper finds room, so every 60-second interval contains
      at most `limit` grants, waited or not. */
  lemma SequentialRunsRespectLimit(limit: int, run: seq<State>, actions: seq<Action>, from: real)
    requires limit >= 1 && IsRun(limit, run, actions) && Sequential(run, actions)
    ensures |Within(run[|actions|].grants, from)| <= limit
  {
    SequentialRunsArePaced(limit, run, actions);
    RespectedIffRoomAtWakes(limit, run, actions);
    assert Respected(limit, run[|actions|]);
  }

  // ------------------------------------------------------------------ nobody waits too long

  ghost predicate Ascending(ts: seq<real>) {
    forall i, j :: 0 <= i < j < |ts| ==> ts[i] <= ts[j]
  }

  lemma {:induction false} PrunedAscends(window: seq<real>, now: real)
    requires Ascending(window)
    ensures Ascending(Pruned(window, now)) && forall t :: t in Pruned(window, now) ==> t in window
  {
    if window != [] {
      var init := window[..|window| - 1];
      PrunedAscends(init, now);
      assert forall t :: t in init ==> t <= window[|window| - 1] && t in window;
      AscendingPush(Pruned(init, now), window[|window| - 1]);
    }
  }

  lemma AscendingPush(ts: seq<real>, t: real)
    requires Ascending(ts) && forall u :: u in ts ==> u <= t
    ensures Ascending(ts + [t])
  {
    var all := ts + [t];
    forall i, j | 0 <= i < j < |all| ensures all[i] <= all[j] {
      assert all[i] == ts[i] && ts[i] in ts;
    }
  }

  /** While the first entry of an ascending window is recent, all are. */
  lemma {:induction false} NothingExpires(window: seq<real>, now: real)
    requires Ascending(window) && (window != [] ==> now - window[0] < PERIOD)
    ensures Pruned(window, now) == window
  {
    if window != [] { NothingExpires(window[..|window| - 1], now); }
  }

  /** The window ascends and lies in the past. */
  ghost predicate Orderly(s: State) {
    Ascending(s.window) && forall t :: t in s.window ==> t <= s.clock
  }

  lemma StepIsOrderly(limit: int, s: State, a: Action)
    requires limit >= 1 && Orderly(s) && Enabled(s, a)
    ensures Orderly(Step(limit, s, a))
  {
    hide Pruned;
    match a
    case Enter(_, now, later) =>
      PrunedAscends(s.window, now);
      AscendingPush(Pruned(s.window, now), later);
    case Wake(_, now) => AscendingPush(s.window, now);
  }

  lemma {:induction false} RunsAreOrderly(limit: int, run: seq<State>, actions: seq<Action>)
    requires limit >= 1 && IsRun(limit, run, actions)
    ensures Orderly(run[|actions|])
    decreases |actions|
  {
    hide Step, Enabled;
    if actions != [] {
      var k := |actions| - 1;
      RunsAreOrderly(limit, run[..k + 1], actions[..k]);
      StepIsOrderly(limit, run[k], actions[k]);
    }
  }

  /** In every run, a caller that is told to wait is told so because there is no room until
      0.1 s before its waking time, and then there is; it never waits longer than 60.1 s. */
  lemma WaitIsTight(limit: int, run: seq<State>, actions: seq<Action>, i: nat, t: real)
    requires limit >= 1 && IsRun(limit, run, actions) && i < |actions|
    requires actions[i].Enter? && Waits(limit, run[i], actions[i].now) && actions[i].now <= t
    ensures actions[i].c in run[i + 1].sleepers
    ensures var wake := run[i + 1].sleepers[actions[i].c];
      && wake <= actions[i].now + 60.1
      && (t < wake - 0.1 ==> |Pruned(run[i].window, t)| >= limit)
      && (t >= wake - 0.1 ==> |Pruned(run[i].window, t)| < |Pruned(run[i].window, actions[i].now)|)
  {
    hide Pruned;
    RunsAreOrderly(limit, run[..i + 1], actions[..i]);
    var window, now := run[i].window, actions[i].now;
    var recent := Pruned(window, now);
    PrunedAscends(window, now);
    PrunedIsFresh(window, now);
    PrunedTwice(window, now, t);
    assert recent[0] in recent && recent[0] in window;
    if t - recent[0] < PERIOD { NothingExpires(recent, t); } else { OldestExpires(recent, t); }
  }

  // ------------------------------------------------------------------ calls that overlap

  /** One grant at time 0, the others at time 30. */
  function Filled(k: nat): seq<real> {
    if k == 0 then [] else Filled(k - 1) + [if k == 1 then 0.0 else 30.0]
  }

  lemma {:induction false} FilledFresh(k: nat)
    ensures |Filled(k)| == k && (k > 0 ==> Filled(k)[0] == 0.0)
    ensures Pruned(Filled(k), 30.0) == Filled(k)
    ensures Pruned(Filled(k), 0.0) == Filled(k)
    ensures |Pruned(Filled(k), 60.1)| == if k == 0 then 0 else k - 1
  {
    if k > 0 {
      FilledFresh(k - 1);
      var t := if k == 1 then 0.0 else 30.0;
      PrunedPush(Filled(k - 1), t, 30.0);
      PrunedPush(Filled(k - 1), t, 0.0);
      PrunedPush(Filled(k - 1), t, 60.1);
    }
  }

  lemma {:induction false} FillRun(limit: int, k: nat) returns (run: seq<State>, actions: seq<Action>)
    requires limit >= 1 && k <= limit
    ensures IsRun(limit, run, actions)
    ensures run[|actions|] == State(Filled(k), map[], Filled(k), if k <= 1 then 0.0 else 30.0)
  {
    if k == 0 {
      return [State([], map[], [], 0.0)], [];
    }
    run, actions := FillRun(limit, k - 1);
    FilledFresh(k - 1);
    var t := if k == 1 then 0.0 else 30.0;
    run, actions := Extend(limit, run, actions, Enter(0, t, t));
  }

  lemma Extend(limit: int, run: seq<State>, actions: seq<Action>, a: Action)
    returns (run': seq<State>, actions': seq<Action>)
    requires limit >= 1 && IsRun(limit, run, actions) && Enabled(run[|actions|], a)
    ensures IsRun(limit, run', actions') && actions' == actions + [a]
    ensures run'[|actions'|] == Step(limit, run[|actions|], a)
  {
    hide Step, Enabled;
    run', actions' := run + [Step(limit, run[|actions|], a)], actions + [a];
  }

  /** For every limit, two callers that wait at the same time exceed it: both were told to wake
      when the oldest grant expires, and neither looks again. */
  lemma OverlapExceedsLimit(limit: int) returns (run: seq<State>, actions: seq<Action>)
    requires limit >= 1
    ensures IsRun(limit, run, actions)
    ensures |Pruned(run[|actions|].grants, run[|actions|].clock)| == limit + 1
  {
    hide Pruned, Filled;
    run, actions := FillRun(limit, limit);
    FilledFresh(limit);
    var g := Filled(limit);
    run, actions := Extend(limit, run, actions, Enter(1, 30.0, 30.0));
    assert run[|actions|] == State(g, map[1 := 60.1], g, 30.0);
    run, actions := Extend(limit, run, actions, Enter(2, 30.0, 30.0));
    assert run[|actions|] == State(g, map[1 := 60.1, 2 := 60.1], g, 30.0);
    run, actions := Extend(limit, run, actions, Wake(1, 60.1));
    assert run[|actions|].grants == g + [60.1];
    run, actions := Extend(limit, run, actions, Wake(2, 60.1));
    assert run[|actions|].grants == g + [60.1] + [60.1];
    PrunedPush(g, 60.1, 60.1);
    PrunedPush(g + [60.1], 60.1, 60.1);
  }

  // ------------------------------------------------------------------ how far overlap can go

  /** The tenth of a second after `from` that ends at or after t, counted from 1. */
  function Tenth(from: real, t: real): int {
    -((from - t) * 10.0).Floor
  }

  /** Which caller woke in which tenth of a second. */
  type Wakes = set<(Caller, int)>

  /** No caller can still wake in a tenth of a second in which it has woken before. */
  ghost predicate Spaced(s: State, from: real, wakes: Wakes) {
    forall p :: p in wakes ==>
      p.1 < if p.0 in s.sleepers then Tenth(from, s.sleepers[p.0]) else Tenth(from, s.clock) + 1
  }

  ghost predicate Charged(limit: int, s: State, from: real, callers: set<Caller>, wakes: Wakes) {
    && |Within(s.grants, from)| <= limit + |wakes|
    && (forall p :: p in wakes ==> p.0 in callers && 1 <= p.1 <= 600)
    && Spaced(s, from, wakes)
  }

  lemma SlotGrows(from: real, t: real, u: real)
    requires t <= u
    ensures Tenth(from, t) <= Tenth(from, u)
    ensures u > t + SLACK ==> Tenth(from, t) < Tenth(from, u)
    ensures from < t <= from + PERIOD ==> 1 <= Tenth(from, t) <= 600
  {
  }

  lemma EnterStaysSpaced(limit: int, s: State, a: Action, from: real, wakes: Wakes)
    requires limit >= 1 && Enabled(s, a) && a.Enter? && Spaced(s, from, wakes)
    ensures Spaced(Step(limit, s, a), from, wakes)
  {
    hide Tenth, Pruned;
    SlotGrows(from, s.clock, a.now);
    SlotGrows(from, a.now, a.later);
    if Waits(limit, s, a.now) {
      FreshIsBefore(s.window, a.now);
      SlotGrows(from, a.now, WakeTime(Pruned(s.window, a.now), a.now));
    }
  }

  lemma EnterStaysCharged(limit: int, s: State, a: Action, from: real, callers: set<Caller>, wakes: Wakes)
    requires limit >= 1 && Faithful(s) && Enabled(s, a) && a.Enter? && Charged(limit, s, from, callers, wakes)
    ensures Charged(limit, Step(limit, s, a), from, callers, wakes)
  {
    hide Pruned, Within, Spaced;
    EnterStaysSpaced(limit, s, a, from, wakes);
    if !Waits(limit, s, a.now) {
      var t := a.later;
      assert Pruned(s.window, a.now) == Pruned(s.grants, a.now);
      PrunedTwice(s.grants, a.now, t);
      WithinPush(s.grants, t, from);
      if from < t <= from + PERIOD { WithinIsFresh(s.grants, from, t); }
    }
  }

  lemma WakeStaysSpaced(limit: int, s: State, a: Action, from: real, wakes: Wakes)
    requires limit >= 1 && Enabled(s, a) && a.Wake? && Spaced(s, from, wakes)
    ensures (a.c, Tenth(from, a.now)) !in wakes
    ensures Spaced(Step(limit, s, a), from, wakes + {(a.c, Tenth(from, a.now))})
    ensures Spaced(Step(limit, s, a), from, wakes)
  {
    hide Tenth;
    SlotGrows(from, s.clock, a.now);
    SlotGrows(from, s.sleepers[a.c], a.now);
  }

  lemma WakeStaysCharged(limit: int, s: State, a: Action, from: real, callers: set<Caller>, wakes: Wakes)
    returns (wakes': Wakes)
    requires limit >= 1 && Enabled(s, a) && a.Wake? && a.c in callers && Charged(limit, s, from, callers, wakes)
    ensures Charged(limit, Step(limit, s, a), from, callers, wakes')
  {
    hide Tenth, Within, Spaced;
    WakeStaysSpaced(limit, s, a, from, wakes);
    SlotGrows(from, a.now, a.now);
    WithinPush(s.grants, a.now, from);
    wakes' := if from < a.now <= from + PERIOD then wakes + {(a.c, Tenth(from, a.now))} else wakes;
  }

  lemma {:induction false} RunsAreCharged(
    limit: int, run: seq<State>, actions: seq<Action>, from: real, callers: set<Caller>) returns (wakes: Wakes)
    requires limit >= 1 && IsRun(limit, run, actions)
    requires forall i :: 0 <= i < |actions| ==> actions[i].c in callers
    ensures Charged(limit, run[|actions|], from, callers, wakes)
    decreases |actions|
  {
    hide Charged, Faithful, Step, Enabled;
    if actions == [] {
      wakes := {};
      StartIsCharged(limit, run[0], from, callers);
    } else {
      var k := |actions| - 1;
      wakes := RunsAreCharged(limit, run[..k + 1], actions[..k], from, callers);
      if actions[k].Wake? {
        wakes := WakeStaysCharged(limit, run[k], actions[k], from, callers, wakes);
      } else {
        RunsAreFaithful(limit, run[..k + 1], actions[..k]);
        EnterStaysCharged(limit, run[k], actions[k], from, callers, wakes);
      }
    }
  }

  lemma StartIsCharged(limit: int, s: State, from: real, callers: set<Caller>)
    requires limit >= 1 && s.grants == []
    ensures Charged(limit, s, from, callers, {})
  {
  }

  lemma {:induction false} CountWakes(wakes: Wakes, callers: set<Caller>)
    requires forall p :: p in wakes ==> p.0 in callers && 1 <= p.1 <= 600
    ensures |wakes| <= 600 * |callers|
    decreases callers
  {
    if callers == {} {
      assert wakes == {};
    } else {
      var c :| c in callers;
      var mine, rest := set p | p in wakes && p.0 == c, set p | p in wakes && p.0 != c;
      assert wakes == mine + rest;
      CountWakes(rest, callers - {c});
      CountTenths(mine, c, 600);
    }
  }

  lemma {:induction false} CountTenths(mine: Wakes, c: Caller, n: nat)
    requires forall p :: p in mine ==> p.0 == c && 1 <= p.1 <= n
    ensures |mine| <= n
  {
    if n == 0 {
      assert mine == {};
    } else {
      CountTenths(mine - {(c, n)}, c, n - 1);
    }
  }

  /** However calls overlap, each caller adds at most one waited grant per tenth of a second. */
  lemma OverlapIsBounded(limit: int, run: seq<State>, actions: seq<Action>, callers: set<Caller>, from: real)
    requires limit >= 1 && IsRun(limit, run, actions)
    requires forall i :: 0 <= i < |actions| ==> actions[i].c in callers
    ensures |Within(run[|actions|].grants, from)| <= limit + 600 * |callers|
  {
    var wakes := RunsAreCharged(limit, run, actions, from, callers);
    CountWakes(wakes, callers);
  }

  // ------------------------------------------------------------------ the object

  class ProviderRateLimiter {
    var windows: map<string, seq<real>>
    var limits: map<string, int>

    constructor ()
      ensures windows == map[] && limits == map[]
    {
      windows, limits := map[], map[];
    }

    method SetLimit(provider: string, rpm: int)
      modifies this`limits
      ensures limits == old(limits)[provider := rpm]
    {
      limits := limits[provider := rpm];
    }

    function Window(provider: string): seq<real>
      reads this
    {
      if provider in windows then windows[provider] else []
    }

    /** The first locked section: prune, then stamp or compute how long to sleep. */
    method TryAcquire(provider: string, now: real, later: real, ghost s: State, ghost c: Caller)
      returns (wait: Option<real>)
      requires s.window == Window(provider)
      modifies this`windows
      ensures if provider !in limits || limits[provider] <= 0 then wait == None && windows == old(windows)
        else
          var s' := Step(limits[provider], s, Enter(c, now, later));
          && windows == old(windows)[provider := s'.window]
          && (wait.Some? <==> Waits(limits[provider], s, now))
          && (wait.Some? ==> s'.sleepers == s.sleepers[c := now + wait.value])
    {
      if provider !in limits || limits[provider] <= 0 { return None; }
      var limit := limits[provider];
      var window := PruneLoop(Window(provider), now);
      windows := windows[provider := window];
      if |window| >= limit {
        var oldest := window[0];
        wait := Some(PERIOD - (now - oldest) + SLACK);
      } else {
        windows := windows[provider := window + [later]];
        wait := None;
      }
    }

    /** The second locked section, after the sleep: stamp without looking. The window is left
        within the limit exactly when there was room. */
    method Resume(provider: string, now: real, ghost limit: int, ghost s: State, ghost c: Caller)
      requires limit >= 1 && s.window == Window(provider)
      modifies this`windows
      ensures Window(provider) == Step(limit, s, Wake(c, now)).window
      ensures forall p :: p != provider ==> Window(p) == old(Window(p))
      ensures |Pruned(Window(provider), now)| <= limit <==> HasRoom(limit, s, now)
    {
      windows := windows[provider := Window(provider) + [now]];
      PrunedPush(s.window, now, now);
    }
  }

  method PruneLoop(window: seq<real>, now: real) returns (recent: seq<real>)
    ensures recent == Pruned(window, now)
  {
    recent := [];
    for i := 0 to |window|
      invariant recent == Pruned(window[..i], now)
    {
      assert window[..i + 1] == window[..i] + [window[i]];
      PrunedPush(window[..i], window[i], now);
      if now - window[i] < PERIOD { recent := recent + [window[i]]; }
    }
    assert window[..|window|] == window;
  }
}
