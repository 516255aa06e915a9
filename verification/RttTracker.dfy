/** The two lock-free compare-and-swap loops by which successful responses update a model's
    minimum RTT and its truncating moving average, under every interleaving. */
module RttTracker {
  type Tid = nat

  datatype Pc =
    | Outside
    | MinLoad(rtt: int)
    | MinCas(rtt: int, old_: int)
    | EwmaLoad(rtt: int)
    | EwmaCas(rtt: int, old_: int)

  /** largest is the greatest RTT any success has reported so far. */
  datatype State = State(minRTT: int, ewma: int, largest: int, pcs: map<Tid, Pc>)

  /** Integer division as the language does it: toward zero. */
  function Div(a: int, b: int): int
    requires b > 0
  {
    if a >= 0 then a / b else -((-a) / b)
  }

  function Smoothed(old_: int, rtt: int): int {
    if old_ == 0 then rtt else Div(old_ * 7, 10) + Div(rtt * 3, 10)
  }

  datatype Action = Report(t: Tid, rtt: int) | Advance(t: Tid)

  /** One atomic step of the success path. */
  function Step(s: State, a: Action): State
    requires a.t in s.pcs
  {
    var t := a.t;
    match (a, s.pcs[t])
    case (Report(_, rtt), Outside) =>
      s.(pcs := s.pcs[t := MinLoad(rtt)], largest := if rtt > s.largest then rtt else s.largest)
    case (Advance(_), MinLoad(r)) =>
      if r > 0 && (s.minRTT == 0 || r < s.minRTT) then s.(pcs := s.pcs[t := MinCas(r, s.minRTT)])
      else s.(pcs := s.pcs[t := EwmaLoad(r)])
    case (Advance(_), MinCas(r, old_)) =>
      if s.minRTT == old_ then s.(minRTT := r, pcs := s.pcs[t := EwmaLoad(r)])
      else s.(pcs := s.pcs[t := MinLoad(r)])
    case (Advance(_), EwmaLoad(r)) => s.(pcs := s.pcs[t := EwmaCas(r, s.ewma)])
    case (Advance(_), EwmaCas(r, old_)) =>
      if s.ewma == old_ then s.(ewma := Smoothed(old_, r), pcs := s.pcs[t := Outside])
      else s.(pcs := s.pcs[t := EwmaLoad(r)])
    case _ => s
  }

  ghost predicate Init(s: State) {
    s.minRTT == 0 && s.ewma == 0 && s.largest == 0 && forall t :: t in s.pcs ==> s.pcs[t] == Outside
  }

  ghost predicate IsRun(run: seq<State>, actions: seq<Action>) {
    && |run| == |actions| + 1 && Init(run[0])
    && forall i :: 0 <= i < |actions| ==> actions[i].t in run[i].pcs && run[i + 1] == Step(run[i], actions[i])
  }

  ghost predicate AllPositive(actions: seq<Action>) {
    forall i :: 0 <= i < |actions| && actions[i].Report? ==> actions[i].rtt > 0
  }

  /** The average is unset, or at most `slack` ns below the minimum RTT and at most the largest. */
  predicate InRange(s: State, slack: int) {
    s.ewma == 0 || (0 < s.minRTT && s.minRTT - slack <= s.ewma <= s.largest)
  }

  ghost predicate Inv(s: State) {
    && s.minRTT >= 0 && s.ewma >= 0 && InRange(s, 3)
    && forall t :: t in s.pcs ==>
         match s.pcs[t]
         case Outside => true
         case MinLoad(r) => 0 < r <= s.largest
         case MinCas(r, old_) => 0 < r <= s.largest && (old_ == 0 || r < old_)
         case EwmaLoad(r) => 0 < s.minRTT <= r <= s.largest
         case EwmaCas(r, _) => 0 < s.minRTT <= r <= s.largest
  }

  /** Two truncated divisions lose at most 1.8 together, so an average 3 below the minimum
      does not fall further. */
  lemma SmoothedInRange(old_: int, rtt: int, lo: int, hi: int)
    requires 0 < lo <= rtt <= hi && 0 <= old_
    requires old_ == 0 || lo - 3 <= old_ <= hi
    ensures 0 <= Smoothed(old_, rtt) && lo - 3 <= Smoothed(old_, rtt) <= hi
  {
  }

  lemma StepKeepsInv(s: State, a: Action)
    requires Inv(s) && a.t in s.pcs && (a.Report? ==> a.rtt > 0)
    ensures Inv(Step(s, a))
  {
    hide Smoothed;
    match s.pcs[a.t]
    case EwmaCas(r, old_) =>
      if s.ewma == old_ { SmoothedInRange(old_, r, s.minRTT, s.largest); }
    case _ =>
  }

  /** In every interleaving of positive reports, truncation error never accumulates. */
  lemma {:induction false} EveryRun(run: seq<State>, actions: seq<Action>)
    requires IsRun(run, actions) && AllPositive(actions)
    ensures Inv(run[|actions|])
    ensures InRange(run[|actions|], 3)
    decreases |actions|
  {
    if actions != [] {
      var k := |actions| - 1;
      EveryRun(run[..k + 1], actions[..k]);
      StepKeepsInv(run[k], actions[k]);
    }
  }

  // ------------------------------------------------------------------ every report counts once

  /** The step begins a report, or ends one by storing the new average. */
  predicate Begins(s: State, a: Action) {
    a.Report? && a.t in s.pcs && s.pcs[a.t].Outside?
  }

  predicate Stores(s: State, a: Action) {
    a.Advance? && a.t in s.pcs && s.pcs[a.t].EwmaCas? && s.pcs[a.t].old_ == s.ewma
  }

  function Begun(run: seq<State>, actions: seq<Action>): nat {
    if |run| != |actions| + 1 || actions == [] then 0
    else
      var k := |actions| - 1;
      Begun(run[..k + 1], actions[..k]) + if Begins(run[k], actions[k]) then 1 else 0
  }

  function StoredTimes(run: seq<State>, actions: seq<Action>): nat {
    if |run| != |actions| + 1 || actions == [] then 0
    else
      var k := |actions| - 1;
      StoredTimes(run[..k + 1], actions[..k]) + if Stores(run[k], actions[k]) then 1 else 0
  }

  function UnderWay(s: State): set<Tid> {
    set t | t in s.pcs && !s.pcs[t].Outside?
  }

  /** No report is lost to a race: those begun are those that have updated the average plus
      those still under way. */
  lemma {:induction false} ReportsCountOnce(run: seq<State>, actions: seq<Action>)
    requires IsRun(run, actions)
    ensures Begun(run, actions) == StoredTimes(run, actions) + |UnderWay(run[|actions|])|
    decreases |actions|
  {
    if actions == [] {
      assert UnderWay(run[0]) == {};
    } else {
      var k := |actions| - 1;
      var s, a := run[k], actions[k];
      ReportsCountOnce(run[..k + 1], actions[..k]);
      UnderWayStep(s, a);
    }
  }

  lemma UnderWayStep(s: State, a: Action)
    requires a.t in s.pcs
    ensures |UnderWay(Step(s, a))| ==
      |UnderWay(s)| + (if Begins(s, a) then 1 else 0) - (if Stores(s, a) then 1 else 0)
  {
    hide Smoothed;
    var s' := Step(s, a);
    assert UnderWay(s') == if s'.pcs[a.t].Outside? then UnderWay(s) - {a.t} else UnderWay(s) + {a.t};
    assert a.t in UnderWay(s) <==> !s.pcs[a.t].Outside?;
  }

  ghost predicate WasReported(actions: seq<Action>, rtt: int) {
    exists i :: 0 <= i < |actions| && actions[i].Report? && actions[i].rtt == rtt
  }

  /** The RTT a thread is reporting. */
  function Carried(pc: Pc): int {
    if pc.Outside? then 0 else pc.rtt
  }

  /** The minimum is an RTT that was reported, as is what any thread still carries. */
  lemma {:induction false} MinimumWasReported(run: seq<State>, actions: seq<Action>)
    requires IsRun(run, actions)
    ensures var s := run[|actions|];
      && (s.minRTT != 0 ==> WasReported(actions, s.minRTT))
      && forall t :: t in s.pcs && !s.pcs[t].Outside? ==> WasReported(actions, Carried(s.pcs[t]))
    decreases |actions|
  {
    hide Smoothed;
    if actions != [] {
      var k := |actions| - 1;
      MinimumWasReported(run[..k + 1], actions[..k]);
      forall rtt | WasReported(actions[..k], rtt) ensures WasReported(actions, rtt) {
        var i :| 0 <= i < k && actions[..k][i].Report? && actions[..k][i].rtt == rtt;
        assert actions[i] == actions[..k][i];
      }
      if actions[k].Report? { assert WasReported(actions, actions[k].rtt); }
      assert run[k + 1] == Step(run[k], actions[k]);
      hide WasReported;
    }
  }

  // ------------------------------------------------------------------ exactly when the range holds

  ghost predicate ReportsFrom(actions: seq<Action>, v: iset<int>) {
    forall i :: 0 <= i < |actions| && actions[i].Report? ==> actions[i].rtt in v
  }

  ghost predicate AlwaysInRange(v: iset<int>, slack: int) {
    forall run, actions :: IsRun(run, actions) && ReportsFrom(actions, v) ==> InRange(run[|actions|], slack)
  }

  /** What holds while every report is between 0 and `top`. */
  ghost predicate SmallInv(s: State, top: int) {
    && 0 <= s.minRTT <= s.largest <= top && 0 <= s.ewma <= s.largest && (s.ewma > 0 ==> s.minRTT > 0)
    && forall t :: t in s.pcs ==>
         match s.pcs[t]
         case Outside => true
         case MinLoad(r) => 0 <= r <= s.largest
         case MinCas(r, _) => 0 < r <= s.largest
         case EwmaLoad(r) => 0 <= r <= s.largest && (r > 0 ==> s.minRTT > 0)
         case EwmaCas(r, _) => 0 <= r <= s.largest && (r > 0 ==> s.minRTT > 0)
  }

  lemma {:induction false} SmallRun(run: seq<State>, actions: seq<Action>, v: iset<int>, top: nat)
    requires IsRun(run, actions) && ReportsFrom(actions, v) && forall r :: r in v ==> 0 <= r <= top
    ensures SmallInv(run[|actions|], top)
    decreases |actions|
  {
    if actions != [] {
      var k := |actions| - 1;
      SmallRun(run[..k + 1], actions[..k], v, top);
      assert run[k + 1] == Step(run[k], actions[k]);
    }
  }

  /** A run from the start, with one thread, to a given minimum and average. */
  ghost predicate Visits(run: seq<State>, actions: seq<Action>, v: iset<int>, minRTT: int, ewma: int) {
    && IsRun(run, actions) && ReportsFrom(actions, v)
    && run[|actions|].pcs == map[0 := Outside] && run[|actions|].minRTT == minRTT && run[|actions|].ewma == ewma
  }

  lemma Extend(run: seq<State>, actions: seq<Action>, a: Action, v: iset<int>)
    returns (run': seq<State>, actions': seq<Action>)
    requires IsRun(run, actions) && ReportsFrom(actions, v) && a.t in run[|actions|].pcs && (a.Report? ==> a.rtt in v)
    ensures IsRun(run', actions') && ReportsFrom(actions', v)
    ensures run'[|actions'|] == Step(run[|actions|], a)
  {
    hide Step, Init;
    run', actions' := run + [Step(run[|actions|], a)], actions + [a];
  }

  /** One undisturbed report, up to the average. */
  lemma ReportMin(run: seq<State>, actions: seq<Action>, v: iset<int>, minRTT: int, ewma: int, rtt: int)
    returns (run': seq<State>, actions': seq<Action>)
    requires Visits(run, actions, v, minRTT, ewma) && rtt in v
    ensures IsRun(run', actions') && ReportsFrom(actions', v)
    ensures run'[|actions'|].pcs == map[0 := EwmaLoad(rtt)] && run'[|actions'|].ewma == ewma
    ensures run'[|actions'|].minRTT == if rtt > 0 && (minRTT == 0 || rtt < minRTT) then rtt else minRTT
  {
    var go := Advance(0);
    run', actions' := Extend(run, actions, Report(0, rtt), v);
    run', actions' := Extend(run', actions', go, v);
    if run'[|actions'|].pcs[0].MinCas? { run', actions' := Extend(run', actions', go, v); }
  }

  /** One undisturbed report. */
  lemma ReportOnce(run: seq<State>, actions: seq<Action>, v: iset<int>, minRTT: int, ewma: int, rtt: int)
    returns (run': seq<State>, actions': seq<Action>)
    requires Visits(run, actions, v, minRTT, ewma) && rtt in v
    ensures Visits(run', actions', v, if rtt > 0 && (minRTT == 0 || rtt < minRTT) then rtt else minRTT, Smoothed(ewma, rtt))
  {
    hide Smoothed, IsRun, ReportsFrom;
    var go := Advance(0);
    run', actions' := ReportMin(run, actions, v, minRTT, ewma, rtt);
    run', actions' := Extend(run', actions', go, v);
    run', actions' := Extend(run', actions', go, v);
  }

  /** Report zeros until the average is 1. */
  lemma {:induction false} Decay(run: seq<State>, actions: seq<Action>, v: iset<int>, minRTT: int, ewma: int)
    returns (run': seq<State>, actions': seq<Action>)
    requires Visits(run, actions, v, minRTT, ewma) && 0 in v && ewma >= 1
    ensures Visits(run', actions', v, minRTT, 1)
    decreases ewma
  {
    hide Visits;
    if ewma == 1 { return run, actions; }
    run', actions' := ReportOnce(run, actions, v, minRTT, ewma, 0);
    run', actions' := Decay(run', actions', v, minRTT, ewma * 7 / 10);
  }

  lemma Start(v: iset<int>) returns (run: seq<State>, actions: seq<Action>)
    ensures Visits(run, actions, v, 0, 0)
  {
    run, actions := [State(0, 0, 0, map[0 := Outside])], [];
  }

  /** A zero RTT skips the minimum but enters the average: after one report above slack + 1,
      zeros take the average down to 1, out of range. A negative one leaves it at once. */
  lemma LeavesRange(v: iset<int>, slack: int, bad: int) returns (run: seq<State>, actions: seq<Action>)
    requires bad in v && slack >= 3 && (bad < 0 || (bad > slack + 1 && 0 in v))
    ensures IsRun(run, actions) && ReportsFrom(actions, v) && !InRange(run[|actions|], slack)
  {
    run, actions := Start(v);
    run, actions := ReportOnce(run, actions, v, 0, 0, bad);
    if bad > 0 { run, actions := Decay(run, actions, v, bad, bad); }
  }

  lemma StaysInRange(run: seq<State>, actions: seq<Action>, v: iset<int>, slack: int)
    requires IsRun(run, actions) && ReportsFrom(actions, v) && slack >= 3
    requires forall r :: r in v ==> r >= 0
    requires 0 !in v || forall r :: r in v ==> r <= slack + 1
    ensures InRange(run[|actions|], slack)
  {
    if 0 in v { SmallRun(run, actions, v, slack + 1); } else { EveryRun(run, actions); }
  }

  /** For every set of possible RTTs and every slack from 3 on, all runs stay in range exactly
      when no RTT is negative and zero does not occur together with one above slack + 1. */
  lemma InRangeIff(v: iset<int>, slack: int)
    requires slack >= 3
    ensures AlwaysInRange(v, slack) <==>
      (forall r :: r in v ==> r >= 0) && (0 !in v || forall r :: r in v ==> r <= slack + 1)
  {
    hide Init, Step, InRange, ReportsFrom;
    if bad :| bad in v && (bad < 0 || (bad > slack + 1 && 0 in v)) {
      var run, actions := LeavesRange(v, slack, bad);
    } else {
      forall run, actions | IsRun(run, actions) && ReportsFrom(actions, v) ensures InRange(run[|actions|], slack) {
        StaysInRange(run, actions, v, slack);
      }
    }
  }

  /** Three nanoseconds are the least slack that suffices for all positive RTTs: repeated
      reports of 13 ns settle at an average of 10. */
  lemma LeastSlack(v: iset<int>, slack: int)
    requires forall r :: r in v <==> r > 0
    ensures AlwaysInRange(v, slack) <==> slack >= 3
  {
    hide Init, Step, ReportsFrom;
    if slack >= 3 {
      InRangeIff(v, slack);
    } else {
      var run, actions := ThirteenSettlesAtTen(v);
      assert !InRange(run[|actions|], slack);
    }
  }

  lemma ThirteenSettlesAtTen(v: iset<int>) returns (run: seq<State>, actions: seq<Action>)
    requires 13 in v
    ensures Visits(run, actions, v, 13, 10)
  {
    hide Visits;
    run, actions := Start(v);
    run, actions := ReportOnce(run, actions, v, 0, 0, 13);
    run, actions := ReportOnce(run, actions, v, 13, 13, 13);
    run, actions := ReportOnce(run, actions, v, 13, 12, 13);
    run, actions := ReportOnce(run, actions, v, 13, 11, 13);
  }
}
