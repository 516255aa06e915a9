/** The limiter's acquire/release protocol, as threads taking atomic steps.

    What a thread holds is read off its program position; the shared counters are only
    touched by the individual atomic operations of the code. Limits change at any time. */
module SlotProtocol {
  import opened Common

  type Tid = nat

  /** A slot pool: a configured model or the shared default for unknown names. */
  datatype ModelId = Named(name: string) | Default

  /** Configured models, and the fallback order over them. */
  datatype Config = Config(models: set<string>, fallbackOrder: seq<string>, globalLimit: int)
  {
    ghost predicate Valid() {
      globalLimit > 0 && forall i :: 0 <= i < |fallbackOrder| ==> fallbackOrder[i] in models
    }

    function Resolve(name: string): ModelId {
      if name in models then Named(name) else Default
    }

    function SeriesOf(name: string): int {
      if name in models then ModelSeries(name) else 0
    }

    /** Whether every listed name is a configured model of the given series. */
    ghost predicate InBucket(names: seq<string>, s: int) {
      forall i :: 0 <= i < |names| ==> names[i] in models && ModelSeries(names[i]) == s
    }

    /** A model named "" is configured, and one whose lower-series bucket contains it. */
    ghost predicate LeakProne() {
      "" in models && exists name :: name in models && SeriesOf(name) > 0 && SeriesOf(name) - 1 == SeriesOf("")
    }
  }

  /** A result of signed 64-bit arithmetic. */
  function Wrapped(n: int): int {
    (n + 0x8000_0000_0000_0000) % 0x1_0000_0000_0000_0000 - 0x8000_0000_0000_0000
  }

  /** The number spelled by the digits of s up to the first other character, after n. */
  function LeadingNumber(s: string, n: int): int {
    if s == [] || !('0' <= s[0] <= '9') then n
    else LeadingNumber(s[1..], Wrapped(n * 10 + (s[0] as int - '0' as int)))
  }

  /** The major version of a "glm-" model; every other model is of series 0. */
  function ModelSeries(name: string): int {
    if |name| < 5 || name[..4] != "glm-" then 0 else LeadingNumber(name[4..], 0)
  }

  /** The decimal digits of k. */
  function Decimal(k: nat): string {
    if k < 10 then [Digit(k)] else Decimal(k / 10) + [Digit(k % 10)]
  }

  function Digit(d: nat): char
    requires d < 10
  {
    ('0' as int + d) as char
  }

  lemma ReadsDigit(d: nat, rest: string, n: int)
    requires d < 10 && 0 <= n * 10 + d < 0x8000_0000_0000_0000
    ensures LeadingNumber([Digit(d)] + rest, n) == LeadingNumber(rest, n * 10 + d)
  {
    assert ([Digit(d)] + rest)[1..] == rest;
  }

  lemma {:induction false} ReadsDecimal(k: nat, rest: string)
    requires k < 0x8000_0000_0000_0000
    ensures LeadingNumber(Decimal(k) + rest, 0) == LeadingNumber(rest, k)
    ensures |Decimal(k)| >= 1
  {
    hide LeadingNumber, Digit;
    if k < 10 {
      ReadsDigit(k, rest, 0);
    } else {
      var last := [Digit(k % 10)];
      ReadsDecimal(k / 10, last + rest);
      assert Decimal(k) + rest == Decimal(k / 10) + (last + rest);
      ReadsDigit(k % 10, rest, k / 10);
    }
  }

  /** The series of "glm-" followed by a number below 2^63, and then anything but a digit, is
      that number; names that do not start like that are of series 0. */
  lemma SeriesIsNumber(k: nat, rest: string, name: string)
    requires k < 0x8000_0000_0000_0000 && (rest == "" || !('0' <= rest[0] <= '9'))
    ensures ModelSeries("glm-" + Decimal(k) + rest) == k
    ensures !("glm-" <= name) ==> ModelSeries(name) == 0
  {
    ReadsDecimal(k, rest);
    var full := "glm-" + Decimal(k) + rest;
    assert full[..4] == "glm-" && full[4..] == Decimal(k) + rest;
    assert |name| >= 4 && name[..4] == "glm-" ==> "glm-" <= name;
  }

  method ParseSeries(name: string) returns (n: int)
    ensures n == ModelSeries(name)
  {
    if |name| < 5 || name[..4] != "glm-" { return 0; }
    n := 0;
    var i := 4;
    while i < |name| && '0' <= name[i] <= '9'
      invariant 4 <= i <= |name|
      invariant LeadingNumber(name[i..], n) == LeadingNumber(name[4..], 0)
    {
      n := Wrapped(n * 10 + (name[i] as int - '0' as int));
      i := i + 1;
    }
  }

  /** Why a model slot is being tried, and what remains to be tried. */
  datatype Goal =
    | Direct(req: string)                                       // Acquire's first attempt
    | Same(req: string, rest: seq<string>)                      // same-series round robin
    | Cross(req: string, picked: string, rest: seq<string>)     // proactive lower-series attempt
    | Spill(req: string, rest: seq<string>)                     // lower-series spillover
    | AnyRequested(req: string)                                 // acquireAnyModel, requested model
    | AnyListed(req: string, rest: seq<string>)                 // acquireAnyModel, fallback order

  /** Where acquireGlobal returns to. */
  datatype Return = ToDirect(req: string) | ToModelFirst(name: string)

  datatype Pc =
    | Idle
    | GlobalLock(ret: Return)      // waiting for the mutex, before or after a condition wait
    | GlobalTest(ret: Return)      // mutex held, about to compare the counter with the limit
    | GlobalAdd(ret: Return)       // mutex held, comparison passed
    | GlobalUnlock(ret: Return)    // mutex held, counter incremented
    | GlobalParked(ret: Return)    // in the condition wait
    | LoadCount(name: string, goal: Goal)
    | LoadLimit(name: string, goal: Goal, cur: int)
    | Cas(name: string, goal: Goal, cur: int)
    | SameWon(req: string, picked: string)                    // same-series slot taken
    | SwapOut(picked: string, lower: string)                  // both slots held, old one to be dropped
    | GiveBack(req: string)                                   // global slot to be returned
    | AnyWait(req: string)                                    // sleeping or in the condition wait
    | DropModel(name: string)                                 // global wait timed out, slot to be dropped
    | Granted(name: string)
    | ReleaseModel(name: string)
    | ReleaseGlobal

  datatype Pool = Pool(inFlight: int, limit: int, peak: int)

  /** leaked counts the slots of the model named "" that were taken without being reported; won
      holds the name under which each thread last took a slot and knew it, tried the names it
      has found full since it last started over. */
  datatype State = State(
    global: int, mutex: Option<Tid>, pools: map<ModelId, Pool>, pcs: map<Tid, Pc>, leaked: nat, won: map<Tid, string>,
    tried: map<Tid, seq<string>>)

  // ------------------------------------------------------------------ what a position holds

  predicate HoldsGlobal(pc: Pc) {
    match pc
    case Idle | GlobalLock(_) | GlobalTest(_) | GlobalAdd(_) | GlobalParked(_) => false
    case AnyWait(_) | DropModel(_) => false
    case GlobalUnlock(_) | SameWon(_, _) | SwapOut(_, _) | GiveBack(_) => true
    case Granted(_) | ReleaseModel(_) | ReleaseGlobal => true
    case LoadCount(_, goal) => !goal.AnyRequested? && !goal.AnyListed?
    case LoadLimit(_, goal, _) => !goal.AnyRequested? && !goal.AnyListed?
    case Cas(_, goal, _) => !goal.AnyRequested? && !goal.AnyListed?
  }

  function HeldByReturn(c: Config, ret: Return): set<ModelId> {
    if ret.ToModelFirst? then {c.Resolve(ret.name)} else {}
  }

  function HeldByGoal(c: Config, goal: Goal): set<ModelId> {
    if goal.Cross? then {c.Resolve(goal.picked)} else {}
  }

  function Slots(c: Config, pc: Pc): set<ModelId> {
    match pc
    case Idle | GiveBack(_) | AnyWait(_) | ReleaseGlobal => {}
    case GlobalLock(ret) => HeldByReturn(c, ret)
    case GlobalTest(ret) => HeldByReturn(c, ret)
    case GlobalAdd(ret) => HeldByReturn(c, ret)
    case GlobalUnlock(ret) => HeldByReturn(c, ret)
    case GlobalParked(ret) => HeldByReturn(c, ret)
    case LoadCount(_, goal) => HeldByGoal(c, goal)
    case LoadLimit(_, goal, _) => HeldByGoal(c, goal)
    case Cas(_, goal, _) => HeldByGoal(c, goal)
    case SameWon(_, picked) => {c.Resolve(picked)}
    case SwapOut(picked, lower) => {c.Resolve(picked), c.Resolve(lower)}
    case DropModel(name) => {c.Resolve(name)}
    case Granted(name) => {c.Resolve(name)}
    case ReleaseModel(name) => {c.Resolve(name)}
  }

  /** Positions at which a thread inside Acquire waits for somebody else or for time to pass. */
  predicate Blocks(pc: Pc) {
    pc.GlobalLock? || pc.GlobalParked? || pc.AnyWait?
  }

  predicate InCriticalSection(pc: Pc) {
    pc.GlobalTest? || pc.GlobalAdd? || pc.GlobalUnlock?
  }

  // ------------------------------------------------------------------ control flow

  /** Candidates come from one series bucket; a cross-series attempt looks one series lower. */
  ghost predicate GoalOk(c: Config, name: string, goal: Goal) {
    match goal
    case Direct(req) => name == req
    case AnyRequested(req) => name == req
    case Same(req, rest) => c.SeriesOf(req) > 0 && c.InBucket([name] + rest, c.SeriesOf(req))
    case Cross(req, picked, rest) =>
      c.SeriesOf(req) > 0 && c.InBucket([picked], c.SeriesOf(req)) && c.InBucket([name] + rest, c.SeriesOf(req) - 1)
    case Spill(req, rest) => c.SeriesOf(req) > 0 && c.InBucket([name] + rest, c.SeriesOf(req) - 1)
    case AnyListed(req, rest) => name in c.models && forall i :: 0 <= i < |rest| ==> rest[i] in c.models
  }

  ghost predicate PcOk(c: Config, pc: Pc) {
    match pc
    case LoadCount(name, goal) => GoalOk(c, name, goal)
    case LoadLimit(name, goal, _) => GoalOk(c, name, goal)
    case Cas(name, goal, _) => GoalOk(c, name, goal)
    case SameWon(req, picked) => c.SeriesOf(req) > 0 && c.InBucket([picked], c.SeriesOf(req))
    case SwapOut(picked, lower) => c.Resolve(picked) != c.Resolve(lower)
    case _ => true
  }

  /** The position after a reported success of tryAcquire. */
  function Won(name: string, goal: Goal): Pc {
    match goal
    case Direct(req) => Granted(req)
    case Same(req, _) => SameWon(req, name)
    case Cross(_, picked, _) => SwapOut(picked, name)
    case Spill(_, _) => Granted(name)
    case AnyRequested(req) => GlobalLock(ToModelFirst(req))
    case AnyListed(_, _) => GlobalLock(ToModelFirst(name))
  }

  /** Whether a slot of this name, once taken, is reported by a round robin that returns the
      name and means failure by the empty one. */
  predicate Unreported(name: string, goal: Goal) {
    name == "" && (goal.Same? || goal.Cross? || goal.Spill?)
  }

  /** The positions that may follow after tryAcquire returned true. An unreported success ends
      the round robin like a failure of its last candidate. */
  ghost predicate Taken(c: Config, name: string, goal: Goal, pc': Pc) {
    if Unreported(name, goal) then Lost(c, goal.(rest := []), pc') else pc' == Won(name, goal)
  }

  /** Whether a step takes a model slot that its thread does not know of. */
  predicate Leaks(pc: Pc, e: Effect) {
    pc.Cas? && e.AddModel? && Unreported(pc.name, pc.goal)
  }

  /** Whether a step takes a model slot and its thread knows it. */
  predicate Takes(pc: Pc, e: Effect) {
    pc.Cas? && e.AddModel? && !Unreported(pc.name, pc.goal)
  }

  /** The positions that may follow after tryAcquire returned false. Round-robin candidate
      lists are any selection from the bucket: the rotation and headroom filter pick one. */
  ghost predicate Lost(c: Config, goal: Goal, pc': Pc) {
    match goal
    case Direct(req) =>
      if c.SeriesOf(req) > 0 then StartsSame(c, req, pc') else pc' == GiveBack(req)
    case Same(req, rest) =>
      if rest != [] then pc' == LoadCount(rest[0], Same(req, rest[1..])) else StartsSpill(c, req, pc')
    case Cross(req, picked, rest) =>
      if rest != [] then pc' == LoadCount(rest[0], Cross(req, picked, rest[1..])) else pc' == Granted(picked)
    case Spill(req, rest) =>
      if rest != [] then pc' == LoadCount(rest[0], Spill(req, rest[1..])) else pc' == GiveBack(req)
    case AnyRequested(req) =>
      if c.fallbackOrder != [] then pc' == LoadCount(c.fallbackOrder[0], AnyListed(req, c.fallbackOrder[1..]))
      else pc' == AnyWait(req) || pc' == Idle
    case AnyListed(req, rest) =>
      if rest != [] then pc' == LoadCount(rest[0], AnyListed(req, rest[1..]))
      else pc' == AnyWait(req) || pc' == Idle
  }

  ghost predicate StartsSame(c: Config, req: string, pc': Pc) {
    || StartsSpill(c, req, pc')
    || (pc'.LoadCount? && pc'.goal.Same? && pc'.goal.req == req
        && c.InBucket([pc'.name] + pc'.goal.rest, c.SeriesOf(req)))
  }

  ghost predicate StartsSpill(c: Config, req: string, pc': Pc) {
    || pc' == GiveBack(req)
    || (pc'.LoadCount? && pc'.goal.Spill? && pc'.goal.req == req
        && c.InBucket([pc'.name] + pc'.goal.rest, c.SeriesOf(req) - 1))
  }

  /** The one shared effect of an atomic step. */
  datatype Effect = Nothing | AddGlobal(d: int) | AddModel(m: ModelId, d: int) | Lock | Unlock

  /** One atomic step of thread t, from position pc to pc' with the given effect. */
  ghost predicate ThreadStep(c: Config, s: State, t: Tid, pc: Pc, pc': Pc, e: Effect) {
    match pc
    case Idle => e == Nothing && pc'.GlobalLock? && pc'.ret.ToDirect?
    case GlobalLock(ret) => s.mutex.None? && e == Lock && pc' == GlobalTest(ret)
    case GlobalTest(ret) =>
      if s.global >= c.globalLimit then
        // deadline passed, or wait on the condition variable
        e == Unlock && (pc' == GlobalParked(ret) || pc' == (if ret.ToDirect? then Idle else DropModel(ret.name)))
      else e == Nothing && pc' == GlobalAdd(ret)
    case GlobalParked(ret) => e == Nothing && pc' == GlobalLock(ret)
    case GlobalAdd(ret) => e == AddGlobal(1) && pc' == GlobalUnlock(ret)
    case GlobalUnlock(ret) =>
      e == Unlock && pc' == (if ret.ToDirect? then LoadCount(ret.req, Direct(ret.req)) else Granted(ret.name))
    case LoadCount(name, goal) =>
      c.Resolve(name) in s.pools && e == Nothing && pc' == LoadLimit(name, goal, s.pools[c.Resolve(name)].inFlight)
    case LoadLimit(name, goal, cur) =>
      c.Resolve(name) in s.pools && e == Nothing &&
      if cur >= s.pools[c.Resolve(name)].limit then Lost(c, goal, pc') else pc' == Cas(name, goal, cur)
    case Cas(name, goal, cur) =>
      c.Resolve(name) in s.pools &&
      if s.pools[c.Resolve(name)].inFlight == cur then e == AddModel(c.Resolve(name), 1) && Taken(c, name, goal, pc')
      else e == Nothing && pc' == LoadCount(name, goal)
    case SameWon(req, picked) =>
      && e == Nothing
      && (|| pc' == Granted(picked)
          || (pc'.LoadCount? && pc'.goal.Cross? && pc'.goal.req == req && pc'.goal.picked == picked
              && c.InBucket([pc'.name] + pc'.goal.rest, c.SeriesOf(req) - 1)))
    case SwapOut(picked, lower) => e == AddModel(c.Resolve(picked), -1) && pc' == Granted(lower)
    case GiveBack(req) => e == AddGlobal(-1) && pc' == LoadCount(req, AnyRequested(req))
    case AnyWait(req) => e == Nothing && pc' == LoadCount(req, AnyRequested(req))
    case DropModel(name) => e == AddModel(c.Resolve(name), -1) && pc' == Idle
    case Granted(name) => e == Nothing && pc' == ReleaseModel(name)
    case ReleaseModel(name) => e == AddModel(c.Resolve(name), -1) && pc' == ReleaseGlobal
    case ReleaseGlobal => e == AddGlobal(-1) && pc' == Idle
  }

  function Apply(s: State, t: Tid, e: Effect): State {
    match e
    case Nothing => s
    case AddGlobal(d) => s.(global := s.global + d)
    case AddModel(m, d) =>
      if m in s.pools then s.(pools := s.pools[m := s.pools[m].(inFlight := s.pools[m].inFlight + d)]) else s
    case Lock => s.(mutex := Some(t))
    case Unlock => s.(mutex := None)
  }

  /** A full model is noted; starting to look for any model forgets the earlier ones. */
  function TriedAfter(pc: Pc, tried: seq<string>, pc': Pc): seq<string> {
    if pc.LoadLimit? && !pc'.Cas? then tried + [pc.name]
    else if pc.GiveBack? || pc.AnyWait? then []
    else tried
  }

  function After(s: State, t: Tid, pc': Pc, e: Effect): State
    requires t in s.pcs
  {
    Apply(s, t, e).(
      pcs := s.pcs[t := pc'],
      leaked := if Leaks(s.pcs[t], e) then s.leaked + 1 else s.leaked,
      won := if Takes(s.pcs[t], e) then s.won[t := s.pcs[t].name] else s.won,
      tried := s.tried[t := TriedAfter(s.pcs[t], if t in s.tried then s.tried[t] else [], pc')])
  }

  datatype Action = Thread(t: Tid, pc': Pc, e: Effect) | SetLimit(m: ModelId, limit: int)

  /** A thread step, or feedback (or an override) storing a new limit. */
  ghost predicate Next(c: Config, s: State, a: Action, s': State) {
    match a
    case Thread(t, pc', e) =>
      && t in s.pcs && ThreadStep(c, s, t, s.pcs[t], pc', e)
      && s' == After(s, t, pc', e)
    case SetLimit(m, limit) =>
      && m in s.pools
      && s' == s.(pools := s.pools[m := s.pools[m].(
                  limit := limit, peak := if limit > s.pools[m].peak then limit else s.pools[m].peak)])
  }

  ghost predicate Init(c: Config, s: State) {
    && c.Valid()
    && s.global == 0 && s.mutex == None && s.leaked == 0
    && s.pools.Keys == (set n | n in c.models :: Named(n)) + {Default}
    && (forall m :: m in s.pools ==> s.pools[m].inFlight == 0 && s.pools[m].peak == s.pools[m].limit)
    && (forall t :: t in s.pcs ==> s.pcs[t] == Idle)
  }

  ghost predicate IsRun(c: Config, run: seq<State>, actions: seq<Action>) {
    && |run| == |actions| + 1 && Init(c, run[0])
    && forall i :: 0 <= i < |actions| ==> Next(c, run[i], actions[i], run[i + 1])
  }

  // ------------------------------------------------------------------ the invariant

  function GlobalHolders(s: State): set<Tid> {
    set t | t in s.pcs && HoldsGlobal(s.pcs[t])
  }

  function Holders(c: Config, s: State, m: ModelId): set<Tid> {
    set t | t in s.pcs && m in Slots(c, s.pcs[t])
  }

  /** The slots of m that no thread will return. */
  function Leaked(s: State, m: ModelId): nat {
    if m == Named("") then s.leaked else 0
  }

  ghost predicate Counts(c: Config, s: State) {
    && s.global == |GlobalHolders(s)|
    && forall m :: m in s.pools ==> s.pools[m].inFlight == |Holders(c, s, m)| + Leaked(s, m)
  }

  ghost predicate MutexOk(s: State) {
    forall t :: t in s.pcs ==> (InCriticalSection(s.pcs[t]) <==> s.mutex == Some(t))
  }

  ghost predicate Bounded(c: Config, s: State) {
    && s.global <= c.globalLimit
    && (forall t :: t in s.pcs && s.pcs[t].GlobalAdd? ==> s.global < c.globalLimit)
    && (forall m :: m in s.pools ==> s.pools[m].inFlight <= 0 || s.pools[m].inFlight <= s.pools[m].peak)
    && (forall t :: t in s.pcs && s.pcs[t].Cas? ==>
          c.Resolve(s.pcs[t].name) in s.pools && s.pcs[t].cur < s.pools[c.Resolve(s.pcs[t].name)].peak)
  }

  ghost predicate Typed(c: Config, s: State) {
    && c.Valid()
    && s.pools.Keys == (set n | n in c.models :: Named(n)) + {Default}
    && (forall m :: m in s.pools ==> s.pools[m].limit <= s.pools[m].peak)
    && (forall t :: t in s.pcs ==> PcOk(c, s.pcs[t]))
    && (s.leaked > 0 ==> c.LeakProne())
  }

  ghost predicate Inv(c: Config, s: State) {
    Typed(c, s) && Counts(c, s) && MutexOk(s) && Bounded(c, s)
  }

  lemma ResolveIsPool(c: Config, s: State, name: string)
    requires Typed(c, s)
    ensures c.Resolve(name) in s.pools
  {
  }

  /** The effect of a step is exactly the change in what its thread holds, or a leak. */
  ghost predicate Accounted(c: Config, s: State, pc: Pc, pc': Pc, e: Effect) {
    && PcOk(c, pc')
    && (if e.AddGlobal? then
          || (e.d == 1 && !HoldsGlobal(pc) && HoldsGlobal(pc'))
          || (e.d == -1 && HoldsGlobal(pc) && !HoldsGlobal(pc'))
        else HoldsGlobal(pc) == HoldsGlobal(pc'))
    && (if Leaks(pc, e) then
          c.LeakProne() && e == AddModel(Named(""), 1) && e.m in s.pools && Slots(c, pc') == Slots(c, pc)
        else if e.AddModel? then
          && e.m in s.pools
          && (|| (e.d == 1 && e.m !in Slots(c, pc) && Slots(c, pc') == Slots(c, pc) + {e.m})
              || (e.d == -1 && e.m in Slots(c, pc) && Slots(c, pc') == Slots(c, pc) - {e.m}))
        else Slots(c, pc') == Slots(c, pc))
  }

  lemma GoalsStart(c: Config, req: string)
    ensures GoalOk(c, req, Direct(req)) && GoalOk(c, req, AnyRequested(req))
  {
  }

  lemma CrossStarts(c: Config, req: string, picked: string, name: string, rest: seq<string>)
    requires c.SeriesOf(req) > 0 && c.InBucket([picked], c.SeriesOf(req)) && c.InBucket([name] + rest, c.SeriesOf(req) - 1)
    ensures GoalOk(c, name, Cross(req, picked, rest))
  {
  }

  predicate AtModel(pc: Pc) {
    pc.LoadCount? || pc.LoadLimit? || pc.Cas? || pc.SameWon? || pc.SwapOut?
  }

  lemma ModelStepAccounts(c: Config, s: State, t: Tid, pc: Pc, pc': Pc, e: Effect)
    requires Typed(c, s) && PcOk(c, pc) && AtModel(pc) && ThreadStep(c, s, t, pc, pc', e)
    ensures Accounted(c, s, pc, pc', e)
  {
    hide GoalOk, Lost, Typed;
    match pc
    case LoadCount(_, _) =>
    case LoadLimit(name, goal, cur) => LostAccounts(c, s, name, goal, pc', cur);
    case Cas(name, goal, cur) =>
      ResolveIsPool(c, s, name);
      if e.AddModel? { TakenAccounts(c, s, name, goal, pc', cur); }
    case SameWon(req, picked) => if pc'.LoadCount? { CrossStarts(c, req, picked, pc'.name, pc'.goal.rest); }
    case SwapOut(picked, lower) => ResolveIsPool(c, s, picked);
  }

  lemma OtherStepAccounts(c: Config, s: State, t: Tid, pc: Pc, pc': Pc, e: Effect)
    requires Typed(c, s) && PcOk(c, pc) && !AtModel(pc) && ThreadStep(c, s, t, pc, pc', e)
    ensures Accounted(c, s, pc, pc', e)
  {
    hide GoalOk, Lost, Typed;
    match pc
    case GlobalUnlock(ret) => if ret.ToDirect? { GoalsStart(c, ret.req); }
    case GiveBack(req) => GoalsStart(c, req);
    case AnyWait(req) => GoalsStart(c, req);
    case DropModel(name) => ResolveIsPool(c, s, name);
    case ReleaseModel(name) => ResolveIsPool(c, s, name);
    case _ =>
  }

  lemma StepAccounts(c: Config, s: State, t: Tid, pc: Pc, pc': Pc, e: Effect)
    requires Typed(c, s) && t in s.pcs && s.pcs[t] == pc && ThreadStep(c, s, t, pc, pc', e)
    ensures Accounted(c, s, pc, pc', e)
  {
    hide ThreadStep, Accounted, PcOk;
    if AtModel(pc) {
      ModelStepAccounts(c, s, t, pc, pc', e);
    } else {
      OtherStepAccounts(c, s, t, pc, pc', e);
    }
  }

  /** What a step has tested before it locks, increments, or remembers a comparison. */
  ghost predicate Guarded(c: Config, s: State, pc: Pc, pc': Pc, e: Effect) {
    && (InCriticalSection(pc') <==> (e == Lock || (InCriticalSection(pc) && e != Unlock)))
    && (e == Lock ==> s.mutex.None?)
    && (e == Unlock ==> InCriticalSection(pc))
    && (e.AddGlobal? ==> e.d == -1 || (e.d == 1 && pc.GlobalAdd?))
    && (pc'.GlobalAdd? ==> e == Nothing && s.global < c.globalLimit)
    && (e.AddModel? ==>
          || e.d == -1
          || (e.d == 1 && pc.Cas? && e.m == c.Resolve(pc.name) && e.m in s.pools && s.pools[e.m].inFlight == pc.cur))
    && (pc'.Cas? ==>
          && e == Nothing && c.Resolve(pc'.name) in s.pools
          && pc'.cur < s.pools[c.Resolve(pc'.name)].limit)
  }

  lemma StepGuards(c: Config, s: State, t: Tid, pc: Pc, pc': Pc, e: Effect)
    requires ThreadStep(c, s, t, pc, pc', e)
    ensures Guarded(c, s, pc, pc', e)
  {
    hide GoalOk;
  }

  /** Only a lower-series round robin can meet a model named "". */
  lemma UnreportedIsProne(c: Config, name: string, goal: Goal)
    requires GoalOk(c, name, goal) && Unreported(name, goal)
    ensures !goal.Same? && c.LeakProne() && c.Resolve(name) == Named("")
  {
    assert ([name] + goal.rest)[0] == "";
  }

  lemma TakenAccounts(c: Config, s: State, name: string, goal: Goal, pc': Pc, cur: int)
    requires Typed(c, s) && GoalOk(c, name, goal) && Taken(c, name, goal, pc')
    ensures PcOk(c, pc')
    ensures HoldsGlobal(pc') == (!goal.AnyRequested? && !goal.AnyListed?)
    ensures if Unreported(name, goal) then
        c.LeakProne() && c.Resolve(name) == Named("") && Slots(c, pc') == HeldByGoal(c, goal)
      else
        c.Resolve(name) !in HeldByGoal(c, goal) && Slots(c, pc') == HeldByGoal(c, goal) + {c.Resolve(name)}
  {
    hide PcOk, HoldsGlobal, Slots, GoalOk, Lost, Typed;
    if Unreported(name, goal) {
      UnreportedIsProne(c, name, goal);
      LastCandidate(c, name, goal);
      LostAccounts(c, s, name, goal.(rest := []), pc', cur);
    } else {
      WonAccounts(c, name, goal);
    }
  }

  lemma LastCandidate(c: Config, name: string, goal: Goal)
    requires GoalOk(c, name, goal) && Unreported(name, goal)
    ensures GoalOk(c, name, goal.(rest := []))
    ensures HeldByGoal(c, goal.(rest := [])) == HeldByGoal(c, goal)
  {
    assert ([name] + goal.rest)[0] == name;
  }

  lemma WonAccounts(c: Config, name: string, goal: Goal)
    requires GoalOk(c, name, goal)
    ensures PcOk(c, Won(name, goal))
    ensures HoldsGlobal(Won(name, goal)) == (!goal.AnyRequested? && !goal.AnyListed?)
    ensures c.Resolve(name) !in HeldByGoal(c, goal)
    ensures Slots(c, Won(name, goal)) == HeldByGoal(c, goal) + {c.Resolve(name)}
  {
    match goal
    case Same(req, rest) => assert ([name] + rest)[0] == name;
    case Cross(req, picked, rest) =>
      assert ([name] + rest)[0] == name;
      assert [picked][0] == picked;
    case Spill(req, rest) => assert ([name] + rest)[0] == name;
    case _ =>
  }

  /** The remaining candidates are as good as the ones before. */
  lemma NextCandidate(c: Config, name: string, goal: Goal)
    requires GoalOk(c, name, goal) && !goal.Direct? && !goal.AnyRequested? && goal.rest != []
    ensures GoalOk(c, goal.rest[0], goal.(rest := goal.rest[1..]))
  {
    var rest := goal.rest;
    assert [rest[0]] + rest[1..] == rest;
    assert forall i :: 0 <= i < |rest| ==> rest[i] == ([name] + rest)[i + 1];
  }

  lemma LostAccounts(c: Config, s: State, name: string, goal: Goal, pc': Pc, cur: int)
    requires Typed(c, s) && GoalOk(c, name, goal)
    requires Lost(c, goal, pc') || pc' == Cas(name, goal, cur)
    ensures PcOk(c, pc')
    ensures HoldsGlobal(pc') == (!goal.AnyRequested? && !goal.AnyListed?)
    ensures Slots(c, pc') == HeldByGoal(c, goal)
  {
    if pc' != Cas(name, goal, cur) && !goal.Direct? && !goal.AnyRequested? && goal.rest != [] {
      NextCandidate(c, name, goal);
    }
  }

  /** Moving one thread changes each holder set by at most that thread. */
  lemma HoldersAfter(c: Config, s: State, s': State, t: Tid, pc': Pc)
    requires t in s.pcs && s'.pcs == s.pcs[t := pc']
    ensures GlobalHolders(s') == if HoldsGlobal(pc') then GlobalHolders(s) + {t} else GlobalHolders(s) - {t}
    ensures forall m ::
      Holders(c, s', m) == if m in Slots(c, pc') then Holders(c, s, m) + {t} else Holders(c, s, m) - {t}
  {
  }

  lemma ModelCountStep(c: Config, s: State, t: Tid, pc': Pc, e: Effect, s': State, m: ModelId)
    requires t in s.pcs && Accounted(c, s, s.pcs[t], pc', e)
    requires s' == After(s, t, pc', e) && m in s.pools && s.pools[m].inFlight == |Holders(c, s, m)| + Leaked(s, m)
    ensures m in s'.pools && s'.pools[m].inFlight == |Holders(c, s', m)| + Leaked(s', m)
  {
    hide HoldsGlobal, Slots, PcOk, Holders, Leaks;
    ModelHoldersAfter(c, s, s', t, pc', m);
  }

  lemma ModelHoldersAfter(c: Config, s: State, s': State, t: Tid, pc': Pc, m: ModelId)
    requires t in s.pcs && s'.pcs == s.pcs[t := pc']
    ensures |Holders(c, s', m)| == |Holders(c, s, m)|
      + (if m in Slots(c, pc') then 1 else 0) - (if m in Slots(c, s.pcs[t]) then 1 else 0)
  {
    hide Slots;
    HoldersAfter(c, s, s', t, pc');
    assert t in Holders(c, s, m) <==> m in Slots(c, s.pcs[t]);
  }

  lemma CountsStep(c: Config, s: State, t: Tid, pc': Pc, e: Effect, s': State)
    requires Counts(c, s) && t in s.pcs && Accounted(c, s, s.pcs[t], pc', e)
    requires s' == After(s, t, pc', e)
    ensures Counts(c, s')
  {
    hide HoldsGlobal, Slots, PcOk;
    assert s'.global == |GlobalHolders(s')| by {
      HoldersAfter(c, s, s', t, pc');
      assert t in GlobalHolders(s) <==> HoldsGlobal(s.pcs[t]);
    }
    forall m | m in s'.pools ensures s'.pools[m].inFlight == |Holders(c, s', m)| + Leaked(s', m) {
      ModelCountStep(c, s, t, pc', e, s', m);
    }
  }

  lemma MutexStep(c: Config, s: State, t: Tid, pc': Pc, e: Effect, s': State)
    requires MutexOk(s) && t in s.pcs && Guarded(c, s, s.pcs[t], pc', e)
    requires s' == After(s, t, pc', e)
    ensures MutexOk(s')
  {
    hide InCriticalSection;
  }

  lemma BoundedStep(c: Config, s: State, t: Tid, pc': Pc, e: Effect, s': State)
    requires Typed(c, s) && MutexOk(s) && Bounded(c, s) && t in s.pcs && Guarded(c, s, s.pcs[t], pc', e)
    requires s' == After(s, t, pc', e)
    ensures Bounded(c, s')
  {
    hide PcOk;
    forall u | u in s'.pcs && s'.pcs[u].GlobalAdd? ensures s'.global < c.globalLimit {
      if u != t {
        // u owns the mutex, so this step was not an increment
        assert s.mutex == Some(u);
      }
    }
  }

  lemma TypedStep(c: Config, s: State, t: Tid, pc': Pc, e: Effect, s': State)
    requires Typed(c, s) && t in s.pcs && Accounted(c, s, s.pcs[t], pc', e)
    requires s' == After(s, t, pc', e)
    ensures Typed(c, s')
  {
    hide HoldsGlobal, Slots, PcOk;
  }

  lemma SetLimitKeepsInv(c: Config, s: State, m: ModelId, limit: int, s': State)
    requires Inv(c, s) && Next(c, s, SetLimit(m, limit), s')
    ensures Inv(c, s')
  {
    hide ThreadStep, Counts, PcOk;
    SetLimitKeepsCounts(c, s, m, limit, s');
  }

  lemma SetLimitKeepsCounts(c: Config, s: State, m: ModelId, limit: int, s': State)
    requires Counts(c, s) && Next(c, s, SetLimit(m, limit), s')
    ensures Counts(c, s')
  {
    hide ThreadStep, HoldsGlobal, Slots;
    assert GlobalHolders(s') == GlobalHolders(s);
    forall k | k in s'.pools ensures s'.pools[k].inFlight == |Holders(c, s', k)| + Leaked(s', k) {
      assert Holders(c, s', k) == Holders(c, s, k);
    }
  }

  lemma NextKeepsInv(c: Config, s: State, a: Action, s': State)
    requires Inv(c, s) && Next(c, s, a, s')
    ensures Inv(c, s')
  {
    hide ThreadStep, Accounted, Guarded, Typed, Counts, MutexOk, Bounded, Apply;
    match a
    case Thread(t, pc', e) =>
      StepAccounts(c, s, t, s.pcs[t], pc', e);
      StepGuards(c, s, t, s.pcs[t], pc', e);
      TypedStep(c, s, t, pc', e, s');
      CountsStep(c, s, t, pc', e, s');
      MutexStep(c, s, t, pc', e, s');
      BoundedStep(c, s, t, pc', e, s');
    case SetLimit(m, limit) =>
      SetLimitKeepsInv(c, s, m, limit, s');
  }

  lemma InitInv(c: Config, s: State)
    requires Init(c, s)
    ensures Inv(c, s)
  {
    assert GlobalHolders(s) == {};
    assert forall m :: Holders(c, s, m) == {};
  }

  /** In every interleaving, at every moment, the invariant holds. */
  lemma {:induction false} EveryRun(c: Config, run: seq<State>, actions: seq<Action>)
    requires IsRun(c, run, actions)
    ensures forall i :: 0 <= i < |run| ==> Inv(c, run[i])
    decreases |actions|
  {
    if actions == [] {
      InitInv(c, run[0]);
    } else {
      var k := |actions| - 1;
      EveryRun(c, run[..k + 1], actions[..k]);
      assert run[..k + 1][k] == run[k];
      NextKeepsInv(c, run[k], actions[k], run[k + 1]);
      forall i | 0 <= i < |run| ensures Inv(c, run[i]) {
        if i < k + 1 { assert run[..k + 1][i] == run[i]; }
      }
    }
  }

  /** The promises of the protocol, for every reachable state of every configuration: counters
      equal the slots held, but for slots of a model named "" that nobody will return. */
  lemma Safety(c: Config, run: seq<State>, actions: seq<Action>, i: nat)
    requires IsRun(c, run, actions) && i < |run|
    ensures var s := run[i];
      && 0 <= s.global == |GlobalHolders(s)| <= c.globalLimit
      && (forall m :: m in s.pools ==>
            && 0 <= s.pools[m].inFlight == |Holders(c, s, m)| + Leaked(s, m)
            && (s.pools[m].inFlight == 0 || s.pools[m].inFlight <= s.pools[m].peak))
      && (s.leaked > 0 ==> c.LeakProne())
      && (forall t :: t in s.pcs && Blocks(s.pcs[t]) ==> t !in GlobalHolders(s))
      && (forall t :: t in s.pcs && s.pcs[t].Granted? ==>
            t in GlobalHolders(s) && Slots(c, s.pcs[t]) == {c.Resolve(s.pcs[t].name)})
  {
    hide PcOk, IsRun;
    EveryRun(c, run, actions);
    assert Inv(c, run[i]);
  }

  /** Every thread is back outside, whether granted and released or refused. */
  ghost predicate Quiet(s: State) {
    forall t :: t in s.pcs ==> s.pcs[t] == Idle
  }

  /** Once every thread is back outside, all that remains in the counters is what leaked. */
  lemma Quiescent(c: Config, run: seq<State>, actions: seq<Action>, i: nat)
    requires IsRun(c, run, actions) && i < |run| && Quiet(run[i])
    ensures run[i].global == 0
    ensures forall m :: m in run[i].pools ==> run[i].pools[m].inFlight == Leaked(run[i], m)
  {
    EveryRun(c, run, actions);
    assert Inv(c, run[i]);
    assert GlobalHolders(run[i]) == {};
    assert forall m :: Holders(c, run[i], m) == {};
  }

  // ------------------------------------------------------------------ which model is granted

  /** The name a thread at this position will be granted or give back, if that is settled. */
  function Chosen(pc: Pc): Option<string> {
    match pc
    case LoadCount(_, goal) => ChosenBy(goal)
    case LoadLimit(_, goal, _) => ChosenBy(goal)
    case Cas(_, goal, _) => ChosenBy(goal)
    case SameWon(_, picked) => Some(picked)
    case SwapOut(_, lower) => Some(lower)
    case GlobalLock(ret) => ChosenFor(ret)
    case GlobalTest(ret) => ChosenFor(ret)
    case GlobalAdd(ret) => ChosenFor(ret)
    case GlobalUnlock(ret) => ChosenFor(ret)
    case GlobalParked(ret) => ChosenFor(ret)
    case DropModel(name) => Some(name)
    case Granted(name) => Some(name)
    case ReleaseModel(name) => Some(name)
    case _ => None
  }

  function ChosenBy(goal: Goal): Option<string> {
    if goal.Cross? then Some(goal.picked) else None
  }

  function ChosenFor(ret: Return): Option<string> {
    if ret.ToModelFirst? then Some(ret.name) else None
  }

  /** Every settled name is the one under which the thread last took a slot. */
  ghost predicate Remembers(s: State) {
    forall t :: t in s.pcs && Chosen(s.pcs[t]).Some? ==> t in s.won && s.won[t] == Chosen(s.pcs[t]).value
  }

  lemma ModelStepRemembers(c: Config, s: State, t: Tid, pc: Pc, pc': Pc, e: Effect)
    requires AtModel(pc) && ThreadStep(c, s, t, pc, pc', e) && (pc.Cas? ==> GoalOk(c, pc.name, pc.goal))
    ensures Chosen(pc').Some? ==> Chosen(pc') == if Takes(pc, e) then Some(pc.name) else Chosen(pc)
  {
  }

  lemma StepRemembers(c: Config, s: State, t: Tid, pc: Pc, pc': Pc, e: Effect)
    requires ThreadStep(c, s, t, pc, pc', e) && (pc.Cas? ==> GoalOk(c, pc.name, pc.goal))
    ensures Chosen(pc').Some? ==> Chosen(pc') == if Takes(pc, e) then Some(pc.name) else Chosen(pc)
  {
    hide Lost, Taken;
    if AtModel(pc) { ModelStepRemembers(c, s, t, pc, pc', e); }
  }

  lemma NextRemembers(c: Config, s: State, a: Action, s': State)
    requires Inv(c, s) && Remembers(s) && Next(c, s, a, s')
    ensures Remembers(s')
  {
    hide ThreadStep, Counts, MutexOk, Bounded, Chosen;
    if a.Thread? { StepRemembers(c, s, a.t, s.pcs[a.t], a.pc', a.e); }
  }

  /** In every run, a thread is granted the model whose slot it took last: a cross-series swap
      ends with the lower model, a fallback with the model it fell back to. */
  lemma {:induction false} GrantIsLastTaken(c: Config, run: seq<State>, actions: seq<Action>, t: Tid)
    requires IsRun(c, run, actions)
    ensures Remembers(run[|actions|])
    ensures var s := run[|actions|];
      t in s.pcs && s.pcs[t].Granted? ==> t in s.won && s.won[t] == s.pcs[t].name
    decreases |actions|
  {
    hide Next, Inv;
    if actions != [] {
      var k := |actions| - 1;
      GrantIsLastTaken(c, run[..k + 1], actions[..k], t);
      EveryRun(c, run, actions);
      NextRemembers(c, run[k], actions[k], run[k + 1]);
    }
  }

  /** While a thread looks for any model, what it has found full, what it is trying and what
      remains are together the requested model and the whole fallback order. */
  ghost predicate LooksEverywhere(c: Config, pc: Pc, tried: seq<string>) {
    match pc
    case LoadCount(name, AnyRequested(req)) => tried == []
    case LoadLimit(name, AnyRequested(req), _) => tried == []
    case Cas(name, AnyRequested(req), _) => tried == []
    case LoadCount(name, AnyListed(req, rest)) => tried + [name] + rest == [req] + c.fallbackOrder
    case LoadLimit(name, AnyListed(req, rest), _) => tried + [name] + rest == [req] + c.fallbackOrder
    case Cas(name, AnyListed(req, rest), _) => tried + [name] + rest == [req] + c.fallbackOrder
    case AnyWait(req) => tried == [req] + c.fallbackOrder
    case _ => true
  }

  lemma StepLooksEverywhere(c: Config, s: State, t: Tid, pc: Pc, pc': Pc, e: Effect, tried: seq<string>)
    requires ThreadStep(c, s, t, pc, pc', e) && PcOk(c, pc) && LooksEverywhere(c, pc, tried)
    ensures LooksEverywhere(c, pc', TriedAfter(pc, tried, pc'))
  {
    if pc.LoadLimit? && !pc'.Cas? {
      MissLooksEverywhere(c, pc.name, pc.goal, pc', tried);
    }
  }

  lemma MissLooksEverywhere(c: Config, name: string, goal: Goal, pc': Pc, tried: seq<string>)
    requires Lost(c, goal, pc') && GoalOk(c, name, goal)
    requires goal.AnyRequested? ==> tried == []
    requires goal.AnyListed? ==> tried + [name] + goal.rest == [goal.req] + c.fallbackOrder
    ensures LooksEverywhere(c, pc', tried + [name])
  {
    if goal.AnyRequested? {
      assert [name] + [] == [name];
      if c.fallbackOrder == [] { assert [name] + c.fallbackOrder == [name]; }
      else { assert [c.fallbackOrder[0]] + c.fallbackOrder[1..] == c.fallbackOrder; }
    } else if goal.AnyListed? {
      if goal.rest == [] { assert tried + [name] + goal.rest == tried + [name]; }
      else { assert [goal.rest[0]] + goal.rest[1..] == goal.rest; }
    }
  }

  ghost predicate AllLookEverywhere(c: Config, s: State) {
    forall t :: t in s.pcs ==> LooksEverywhere(c, s.pcs[t], if t in s.tried then s.tried[t] else [])
  }

  lemma NextLooksEverywhere(c: Config, s: State, a: Action, s': State)
    requires Inv(c, s) && AllLookEverywhere(c, s) && Next(c, s, a, s')
    ensures AllLookEverywhere(c, s')
  {
    hide ThreadStep, Counts, MutexOk, Bounded, LooksEverywhere, TriedAfter, PcOk;
    if a.Thread? {
      StepLooksEverywhere(c, s, a.t, s.pcs[a.t], a.pc', a.e, if a.t in s.tried then s.tried[a.t] else []);
    }
  }

  /** In every run, a thread goes to sleep waiting for any model only after it has found the
      requested model and then every model of the fallback order full, in that order. */
  lemma {:induction false} WaitsAfterTryingAll(c: Config, run: seq<State>, actions: seq<Action>, t: Tid)
    requires IsRun(c, run, actions)
    ensures AllLookEverywhere(c, run[|actions|])
    ensures var s := run[|actions|];
      t in s.pcs && s.pcs[t].AnyWait? ==>
        t in s.tried && s.tried[t] == [s.pcs[t].req] + c.fallbackOrder
    decreases |actions|
  {
    hide Next, Inv;
    if actions != [] {
      var k := |actions| - 1;
      WaitsAfterTryingAll(c, run[..k + 1], actions[..k], t);
      EveryRun(c, run, actions);
      NextLooksEverywhere(c, run[k], actions[k], run[k + 1]);
    }
  }

  // ------------------------------------------------------------------ exactly when nothing leaks

  ghost predicate Positive(s: State) {
    forall m :: m in s.pools ==> s.pools[m].limit >= 1
  }

  /** Some run ends in s; when asked for, one whose limits are positive throughout. */
  ghost predicate Reaches(c: Config, s: State, positive: bool) {
    exists run: seq<State>, actions: seq<Action> {:trigger IsRun(c, run, actions)} ::
      && IsRun(c, run, actions) && run[|actions|] == s
      && (positive ==> forall i :: 0 <= i < |run| ==> Positive(run[i]))
  }

  /** Every counter equals the slots held. */
  ghost predicate Exact(c: Config, s: State) {
    forall m :: m in s.pools ==> s.pools[m].inFlight == |Holders(c, s, m)|
  }

  ghost predicate Drained(s: State) {
    forall m :: m in s.pools ==> s.pools[m].inFlight == 0
  }

  ghost predicate AlwaysExact(c: Config, positive: bool) {
    forall s :: Reaches(c, s, positive) ==> Exact(c, s)
  }

  ghost predicate AlwaysDrains(c: Config, positive: bool) {
    forall s :: Reaches(c, s, positive) && Quiet(s) ==> Drained(s)
  }

  lemma ReachesInit(c: Config, s: State, positive: bool)
    requires Init(c, s) && (positive ==> Positive(s))
    ensures Reaches(c, s, positive)
  {
    var run, actions: seq<Action> := [s], [];
    assert IsRun(c, run, actions) && run[|actions|] == s;
  }

  lemma ReachesNext(c: Config, s: State, a: Action, s': State, positive: bool)
    requires Reaches(c, s, positive) && Next(c, s, a, s') && (positive ==> Positive(s'))
    ensures Reaches(c, s', positive)
  {
    hide Next, Init;
    var run: seq<State>, actions: seq<Action> :| IsRun(c, run, actions) && run[|actions|] == s
      && (positive ==> forall i :: 0 <= i < |run| ==> Positive(run[i]));
    var run', actions' := run + [s'], actions + [a];
    assert IsRun(c, run', actions') && run'[|actions'|] == s';
  }

  lemma ReachesInv(c: Config, s: State, positive: bool)
    requires Reaches(c, s, positive)
    ensures Inv(c, s) && (positive ==> Positive(s))
  {
    hide Inv, Positive, Init, Next;
    var run: seq<State>, actions: seq<Action> :| IsRun(c, run, actions) && run[|actions|] == s
      && (positive ==> forall i :: 0 <= i < |run| ==> Positive(run[i]));
    EveryRun(c, run, actions);
  }

  /** One more step of a thread. */
  lemma Go(c: Config, s: State, t: Tid, pc': Pc, e: Effect, positive: bool) returns (s': State)
    requires Reaches(c, s, positive) && t in s.pcs && ThreadStep(c, s, t, s.pcs[t], pc', e)
    ensures s' == After(s, t, pc', e) && Reaches(c, s', positive)
  {
    hide Reaches, ThreadStep, Inv;
    s' := After(s, t, pc', e);
    ReachesInv(c, s, positive);
    ReachesNext(c, s, Thread(t, pc', e), s', positive);
  }

  lemma GlobalSteps(c: Config, s: State, t: Tid, ret: Return)
    ensures s.mutex.None? ==> ThreadStep(c, s, t, GlobalLock(ret), GlobalTest(ret), Lock)
    ensures s.global < c.globalLimit ==> ThreadStep(c, s, t, GlobalTest(ret), GlobalAdd(ret), Nothing)
    ensures ThreadStep(c, s, t, GlobalAdd(ret), GlobalUnlock(ret), AddGlobal(1))
    ensures ThreadStep(c, s, t, GlobalUnlock(ret),
      if ret.ToDirect? then LoadCount(ret.req, Direct(ret.req)) else Granted(ret.name), Unlock)
  {
  }

  /** A free global slot is taken. */
  lemma GoGlobal(c: Config, s: State, t: Tid, ret: Return, positive: bool) returns (s': State)
    requires Reaches(c, s, positive) && t in s.pcs && s.pcs[t] == GlobalLock(ret)
    requires s.mutex.None? && s.global < c.globalLimit
    ensures Reaches(c, s', positive)
    ensures s'.global == s.global + 1 && s'.mutex == s.mutex && s'.pools == s.pools && s'.leaked == s.leaked
    ensures s'.pcs ==
      s.pcs[t := if ret.ToDirect? then LoadCount(ret.req, Direct(ret.req)) else Granted(ret.name)]
  {
    hide Reaches, ThreadStep;
    GlobalSteps(c, s, t, ret);
    s' := Go(c, s, t, GlobalTest(ret), Lock, positive);
    GlobalSteps(c, s', t, ret);
    s' := Go(c, s', t, GlobalAdd(ret), Nothing, positive);
    GlobalSteps(c, s', t, ret);
    s' := Go(c, s', t, GlobalUnlock(ret), AddGlobal(1), positive);
    assert s'.pcs == s.pcs[t := GlobalUnlock(ret)] && s'.mutex == Some(t) && s'.global == s.global + 1;
    GlobalSteps(c, s', t, ret);
    s' := Go(c, s', t, if ret.ToDirect? then LoadCount(ret.req, Direct(ret.req)) else Granted(ret.name), Unlock, positive);
    assert s'.pcs == s.pcs[t := s'.pcs[t]];
  }

  lemma GoEnter(c: Config, s: State, t: Tid, req: string, positive: bool) returns (s': State)
    requires Reaches(c, s, positive) && t in s.pcs && s.pcs[t] == Idle
    requires s.mutex.None? && s.global < c.globalLimit
    ensures Reaches(c, s', positive)
    ensures s'.global == s.global + 1 && s'.mutex == s.mutex && s'.pools == s.pools && s'.leaked == s.leaked
    ensures s'.pcs == s.pcs[t := LoadCount(req, Direct(req))]
  {
    hide Reaches;
    s' := Go(c, s, t, GlobalLock(ToDirect(req)), Nothing, positive);
    s' := GoGlobal(c, s', t, ToDirect(req), positive);
    assert s'.pcs == s.pcs[t := s'.pcs[t]];
  }

  /** A free slot of a model is taken, undisturbed. */
  lemma GoTake(c: Config, s: State, t: Tid, name: string, goal: Goal, pc': Pc, positive: bool) returns (s': State)
    requires Reaches(c, s, positive) && t in s.pcs && s.pcs[t] == LoadCount(name, goal)
    requires c.Resolve(name) in s.pools && s.pools[c.Resolve(name)].inFlight < s.pools[c.Resolve(name)].limit
    requires Taken(c, name, goal, pc')
    ensures Reaches(c, s', positive)
    ensures s'.global == s.global && s'.mutex == s.mutex && s'.pcs == s.pcs[t := pc']
    ensures s'.leaked == if Unreported(name, goal) then s.leaked + 1 else s.leaked
    ensures var m := c.Resolve(name);
      s'.pools == s.pools[m := s.pools[m].(inFlight := s.pools[m].inFlight + 1)]
  {
    hide Reaches, Taken, Lost;
    var m := c.Resolve(name);
    var n := s.pools[m].inFlight;
    s' := Go(c, s, t, LoadLimit(name, goal, n), Nothing, positive);
    s' := Go(c, s', t, Cas(name, goal, n), Nothing, positive);
    s' := Go(c, s', t, pc', AddModel(m, 1), positive);
    assert s'.pcs == s.pcs[t := pc'];
  }

  /** A full model is given up. */
  lemma GoMiss(c: Config, s: State, t: Tid, name: string, goal: Goal, pc': Pc, positive: bool) returns (s': State)
    requires Reaches(c, s, positive) && t in s.pcs && s.pcs[t] == LoadCount(name, goal)
    requires c.Resolve(name) in s.pools && s.pools[c.Resolve(name)].inFlight >= s.pools[c.Resolve(name)].limit
    requires Lost(c, goal, pc')
    ensures Reaches(c, s', positive)
    ensures s'.global == s.global && s'.mutex == s.mutex && s'.pools == s.pools && s'.leaked == s.leaked
    ensures s'.pcs == s.pcs[t := pc']
  {
    hide Reaches, Lost;
    s' := Go(c, s, t, LoadLimit(name, goal, s.pools[c.Resolve(name)].inFlight), Nothing, positive);
    s' := Go(c, s', t, pc', Nothing, positive);
    assert s'.pcs == s.pcs[t := pc'];
  }

  lemma ReleaseSteps(c: Config, s: State, t: Tid, name: string)
    ensures ThreadStep(c, s, t, Granted(name), ReleaseModel(name), Nothing)
    ensures ThreadStep(c, s, t, ReleaseModel(name), ReleaseGlobal, AddModel(c.Resolve(name), -1))
    ensures ThreadStep(c, s, t, ReleaseGlobal, Idle, AddGlobal(-1))
  {
  }

  lemma GoRelease(c: Config, s: State, t: Tid, name: string, positive: bool) returns (s': State)
    requires Reaches(c, s, positive) && t in s.pcs && s.pcs[t] == Granted(name) && c.Resolve(name) in s.pools
    ensures Reaches(c, s', positive)
    ensures s'.global == s.global - 1 && s'.mutex == s.mutex && s'.leaked == s.leaked && s'.pcs == s.pcs[t := Idle]
    ensures var m := c.Resolve(name);
      s'.pools == s.pools[m := s.pools[m].(inFlight := s.pools[m].inFlight - 1)]
  {
    hide Reaches, ThreadStep;
    ReleaseSteps(c, s, t, name);
    s' := Go(c, s, t, ReleaseModel(name), Nothing, positive);
    ReleaseSteps(c, s', t, name);
    s' := Go(c, s', t, ReleaseGlobal, AddModel(c.Resolve(name), -1), positive);
    ReleaseSteps(c, s', t, name);
    s' := Go(c, s', t, Idle, AddGlobal(-1), positive);
    assert s'.pcs == s.pcs[t := Idle];
  }

  /** With `name` full and a slot of "" free, a request for `name` loses that slot. */
  lemma GoLeak(c: Config, s: State, t: Tid, name: string, positive: bool) returns (s': State)
    requires Reaches(c, s, positive) && t in s.pcs && s.pcs[t] == Idle
    requires s.mutex.None? && s.global < c.globalLimit
    requires "" in c.models && name in c.models && c.SeriesOf(name) > 0 && c.SeriesOf(name) - 1 == c.SeriesOf("")
    requires Named(name) in s.pools && s.pools[Named(name)].inFlight >= s.pools[Named(name)].limit
    requires Named("") in s.pools && s.pools[Named("")].inFlight < s.pools[Named("")].limit
    ensures Reaches(c, s', positive)
    ensures s'.global == s.global + 1 && s'.mutex == s.mutex && s'.leaked == s.leaked + 1
    ensures s'.pcs == s.pcs[t := GiveBack(name)]
    ensures s'.pools == s.pools[Named("") := s.pools[Named("")].(inFlight := s.pools[Named("")].inFlight + 1)]
  {
    hide Reaches;
    s' := GoEnter(c, s, t, name, positive);
    s' := GoMiss(c, s', t, name, Direct(name), LoadCount("", Spill(name, [])), positive);
    s' := GoTake(c, s', t, "", Spill(name, []), GiveBack(name), positive);
    assert s'.pcs == s.pcs[t := GiveBack(name)];
  }

  /** With a slot of `name` free again, the request is granted and released. */
  lemma GoFinish(c: Config, s: State, t: Tid, name: string, positive: bool) returns (s': State)
    requires Reaches(c, s, positive) && t in s.pcs && s.pcs[t] == GiveBack(name)
    requires s.mutex.None? && s.global <= c.globalLimit && name in c.models
    requires Named(name) in s.pools && s.pools[Named(name)].inFlight < s.pools[Named(name)].limit
    ensures Reaches(c, s', positive)
    ensures s'.global == s.global - 1 && s'.mutex == s.mutex && s'.leaked == s.leaked
    ensures s'.pcs == s.pcs[t := Idle] && s'.pools == s.pools
  {
    hide Reaches;
    var any, ret := AnyRequested(name), ToModelFirst(name);
    s' := Go(c, s, t, LoadCount(name, any), AddGlobal(-1), positive);
    s' := GoTake(c, s', t, name, any, GlobalLock(ret), positive);
    s' := GoGlobal(c, s', t, ret, positive);
    s' := GoRelease(c, s', t, name, positive);
    assert s'.pcs == s.pcs[t := Idle];
    assert s'.pools == s.pools;
  }

  function Fresh(c: Config, limits: map<ModelId, int>, threads: set<Tid>): State {
    State(0, None, map m | m in limits :: Pool(0, limits[m], limits[m]), map t | t in threads :: Idle, 0, map[], map[])
  }

  lemma GoFresh(c: Config, limits: map<ModelId, int>, threads: set<Tid>, positive: bool) returns (s: State)
    requires c.Valid() && limits.Keys == (set n | n in c.models :: Named(n)) + {Default}
    requires positive ==> forall m :: m in limits ==> limits[m] >= 1
    ensures s == Fresh(c, limits, threads) && Reaches(c, s, positive)
  {
    hide Reaches;
    s := Fresh(c, limits, threads);
    assert s.pools.Keys == limits.Keys;
    ReachesInit(c, s, positive);
  }

  /** A single request leaks from a model whose limit is 0; the leak outlives the request. */
  lemma LeakAtZero(c: Config) returns (s: State)
    requires c.Valid() && c.LeakProne()
    ensures Reaches(c, s, false) && Quiet(s) && !Drained(s) && !Exact(c, s)
  {
    hide Reaches;
    var name :| name in c.models && c.SeriesOf(name) > 0 && c.SeriesOf(name) - 1 == c.SeriesOf("");
    var ids := (set n | n in c.models :: Named(n)) + {Default};
    var limits := map m | m in ids :: if m == Named(name) then 0 else 1;
    s := GoFresh(c, limits, {0}, false);
    s := GoLeak(c, s, 0, name, false);
    var s' := s.(pools := s.pools[Named(name) := Pool(0, 1, 1)]);
    ReachesNext(c, s, SetLimit(Named(name), 1), s', false);
    s := GoFinish(c, s', 0, name, false);
    StaysLeaked(c, s);
  }

  lemma LeakBeside(c: Config, name: string) returns (s: State)
    requires c.Valid() && c.globalLimit >= 2
    requires "" in c.models && name in c.models && c.SeriesOf(name) > 0 && c.SeriesOf(name) - 1 == c.SeriesOf("")
    ensures Reaches(c, s, true)
    ensures s.pcs == map[0 := GiveBack(name), 1 := Granted(name)] && s.mutex.None? && s.global == 2
    ensures Named(name) in s.pools && s.pools[Named(name)] == Pool(1, 1, 1)
    ensures name != "" && Named("") in s.pools && s.pools[Named("")] == Pool(1, 1, 1)
  {
    hide Reaches, ModelSeries;
    var ids := (set n | n in c.models :: Named(n)) + {Default};
    s := GoFresh(c, map m | m in ids :: 1, {0, 1}, true);
    s := GoOccupy(c, s, 1, name, true);
    s := GoLeak(c, s, 0, name, true);
  }

  /** With room for two requests, positive limits do not prevent it. */
  lemma LeakAtOne(c: Config) returns (s: State)
    requires c.Valid() && c.LeakProne() && c.globalLimit >= 2
    ensures Reaches(c, s, true) && Quiet(s) && !Drained(s) && !Exact(c, s)
  {
    hide Reaches, ModelSeries, Exact, Drained;
    var name :| name in c.models && c.SeriesOf(name) > 0 && c.SeriesOf(name) - 1 == c.SeriesOf("");
    s := LeakBeside(c, name);
    s := GoRelease(c, s, 1, name, true);
    s := GoFinish(c, s, 0, name, true);
    StaysLeaked(c, s);
  }

  lemma GoOccupy(c: Config, s: State, t: Tid, name: string, positive: bool) returns (s': State)
    requires Reaches(c, s, positive) && t in s.pcs && s.pcs[t] == Idle
    requires s.mutex.None? && s.global < c.globalLimit && name in c.models
    requires Named(name) in s.pools && s.pools[Named(name)].inFlight < s.pools[Named(name)].limit
    ensures Reaches(c, s', positive)
    ensures s'.global == s.global + 1 && s'.mutex == s.mutex && s'.leaked == s.leaked
    ensures s'.pcs == s.pcs[t := Granted(name)]
    ensures s'.pools == s.pools[Named(name) := s.pools[Named(name)].(inFlight := s.pools[Named(name)].inFlight + 1)]
  {
    hide Reaches, Lost;
    s' := GoEnter(c, s, t, name, positive);
    s' := GoTake(c, s', t, name, Direct(name), Granted(name), positive);
    assert s'.pcs == s.pcs[t := Granted(name)];
  }

  lemma StaysLeaked(c: Config, s: State)
    requires Quiet(s) && Named("") in s.pools && s.pools[Named("")].inFlight > 0
    ensures !Drained(s) && !Exact(c, s)
  {
    assert Holders(c, s, Named("")) == {};
  }

  /** A state that has not leaked is exact, and empty once quiet. */
  lemma NoLeakIsExact(c: Config, s: State)
    requires Inv(c, s) && (s.leaked == 0 || !c.LeakProne())
    ensures Exact(c, s) && (Quiet(s) ==> Drained(s))
  {
    hide MutexOk, Bounded, PcOk;
    if Quiet(s) { assert forall m :: Holders(c, s, m) == {}; }
  }

  /** Counters are exact at every moment, and zero once everybody has left, for exactly the
      configurations that are not prone to the leak. */
  lemma ExactIffNotProne(c: Config)
    requires c.Valid()
    ensures AlwaysExact(c, false) <==> !c.LeakProne()
    ensures AlwaysDrains(c, false) <==> !c.LeakProne()
  {
    hide Reaches, Inv, Exact, Drained, Quiet;
    if c.LeakProne() {
      var s := LeakAtZero(c);
    } else {
      forall s | Reaches(c, s, false) ensures Exact(c, s) && (Quiet(s) ==> Drained(s)) {
        ReachesInv(c, s, false);
        NoLeakIsExact(c, s);
      }
    }
  }

  // ------------------------------------------------------------------ one request at a time

  /** Positions of a request that finds its own model free. */
  predicate OnDirectPath(pc: Pc) {
    match pc
    case Idle | Granted(_) | ReleaseModel(_) | ReleaseGlobal => true
    case GlobalLock(ret) => ret.ToDirect?
    case GlobalTest(ret) => ret.ToDirect?
    case GlobalAdd(ret) => ret.ToDirect?
    case GlobalUnlock(ret) => ret.ToDirect?
    case GlobalParked(ret) => ret.ToDirect?
    case LoadCount(name, goal) => goal == Direct(name)
    case LoadLimit(name, goal, cur) => goal == Direct(name) && cur <= 0
    case Cas(name, goal, _) => goal == Direct(name)
    case _ => false
  }

  ghost predicate Solo(s: State) {
    s.leaked == 0 && forall t :: t in s.pcs ==> OnDirectPath(s.pcs[t])
  }

  /** On the direct path a model slot is held together with a global one. */
  lemma DirectHolders(c: Config, s: State, t: Tid, m: ModelId)
    requires Solo(s) && t in s.pcs && HoldsGlobal(s.pcs[t]) && Slots(c, s.pcs[t]) == {}
    requires |GlobalHolders(s)| <= 1
    ensures Holders(c, s, m) == {}
  {
    assert GlobalHolders(s) - {t} == {} by {
      assert |GlobalHolders(s) - {t}| == |GlobalHolders(s)| - 1;
    }
    assert Holders(c, s, m) <= GlobalHolders(s) - {t};
  }

  lemma SoloStep(c: Config, s: State, a: Action, s': State)
    requires Inv(c, s) && Positive(s) && Solo(s) && c.globalLimit == 1 && Next(c, s, a, s')
    ensures Solo(s')
  {
    hide PcOk, MutexOk, Bounded;
    if a.Thread? { SoloThread(c, s, a.t, a.pc', a.e); }
  }

  /** A request that finds its own model free keeps to the direct path. */
  lemma DirectStep(c: Config, s: State, t: Tid, pc: Pc, pc': Pc, e: Effect)
    requires Positive(s) && OnDirectPath(pc) && ThreadStep(c, s, t, pc, pc', e)
    requires pc.LoadCount? && c.Resolve(pc.name) in s.pools ==> s.pools[c.Resolve(pc.name)].inFlight <= 0
    ensures OnDirectPath(pc') && !Leaks(pc, e)
  {
    hide Lost, Config.Resolve;
  }

  lemma SoloThread(c: Config, s: State, t: Tid, pc': Pc, e: Effect)
    requires Inv(c, s) && Positive(s) && Solo(s) && c.globalLimit == 1
    requires t in s.pcs && ThreadStep(c, s, t, s.pcs[t], pc', e)
    ensures OnDirectPath(pc') && !Leaks(s.pcs[t], e)
  {
    hide PcOk, MutexOk, ThreadStep, Positive, Config.Resolve;
    var pc := s.pcs[t];
    if pc.LoadCount? { DirectHolders(c, s, t, c.Resolve(pc.name)); }
    DirectStep(c, s, t, pc, pc', e);
  }

  lemma {:induction false} SoloRun(c: Config, run: seq<State>, actions: seq<Action>)
    requires IsRun(c, run, actions) && c.globalLimit == 1
    requires forall i :: 0 <= i < |run| ==> Positive(run[i])
    ensures Solo(run[|actions|])
    decreases |actions|
  {
    hide Next, Inv, Positive;
    if actions != [] {
      var k := |actions| - 1;
      SoloRun(c, run[..k + 1], actions[..k]);
      EveryRun(c, run, actions);
      SoloStep(c, run[k], actions[k], run[k + 1]);
    }
  }

  /** As long as all limits are positive, the leak also needs two requests at a time. */
  lemma PositiveExactIff(c: Config)
    requires c.Valid()
    ensures AlwaysExact(c, true) <==> !(c.LeakProne() && c.globalLimit >= 2)
    ensures AlwaysDrains(c, true) <==> !(c.LeakProne() && c.globalLimit >= 2)
  {
    hide Reaches, Inv, Exact, Drained, Quiet;
    if c.LeakProne() && c.globalLimit >= 2 {
      var s := LeakAtOne(c);
    } else {
      forall s | Reaches(c, s, true) ensures Exact(c, s) && (Quiet(s) ==> Drained(s)) {
        ReachesInv(c, s, true);
        if c.LeakProne() { ReachesSolo(c, s); }
        NoLeakIsExact(c, s);
      }
    }
  }

  lemma ReachesSolo(c: Config, s: State)
    requires Reaches(c, s, true) && c.globalLimit == 1
    ensures Solo(s)
  {
    hide Next, Init, Solo, Positive;
    var run: seq<State>, actions: seq<Action> :| IsRun(c, run, actions) && run[|actions|] == s
      && forall i :: 0 <= i < |run| ==> Positive(run[i]);
    SoloRun(c, run, actions);
  }
}
