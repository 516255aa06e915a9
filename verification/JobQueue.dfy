/** The worker pool as a queue state machine: pop, execute, back off and requeue, or store a
    result. The store is reliable and nothing is cancelled; providers may fail at will. */
module JobQueue {
  import opened Common

  /** Identifies one submission. */
  type Id = nat

  /** The request id under which a result is stored; "unknown" when the job has none. */
  type Key = string

  /** The most providers one execution can try: its own and five fallbacks. */
  const CHAIN := 6

  datatype Job = Job(id: Id, key: Key, retry: int)

  /** A queue element: a job, something that is not valid JSON, or JSON that is not an object. */
  datatype Entry = Good(job: Job) | Malformed | Stray

  datatype Outcome = Completed | Errored

  /** An execution knows how many providers it has left to try. */
  datatype Task =
    Idle | Executing(job: Job, left: nat) | BackingOff(job: Job) | Storing(job: Job, outcome: Outcome)

  datatype Result = Result(id: Id, key: Key, outcome: Outcome)

  /** The queue is pushed at the left and popped at the right. results logs every write to the
      store. starts counts executions begun, runs counts them per job, miscounted counts
      responses that were counted as processed and then failed to be recorded, known holds the
      request id of every job ever submitted; pushed and popped log the queue's traffic. */
  datatype State = State(
    queue: seq<Entry>, workers: seq<Task>, results: seq<Result>, store: map<Key, Result>,
    processed: nat, failed: nat, malformed: nat, retried: nat, starts: nat, miscounted: nat,
    runs: map<Id, nat>, known: map<Id, Key>, pushed: seq<Entry>, popped: seq<Entry>)

  /** NextProvider: the current provider had no key or raised, counted if the exception came
      after the response had been counted. */
  datatype Action =
    | Submit(id: Id, key: Key) | SubmitMalformed | SubmitStray
    | Pop(w: nat, chain: nat) | Succeed(w: nat) | NextProvider(w: nat, counted: bool) | Fail(w: nat)
    | Requeue(w: nat) | Store(w: nat)

  predicate Enabled(s: State, a: Action) {
    match a
    case Submit(id, _) => id !in s.known
    case SubmitMalformed => true
    case SubmitStray => true
    case Pop(w, chain) => w < |s.workers| && s.workers[w].Idle? && s.queue != [] && 1 <= chain <= CHAIN
    case Succeed(w) => w < |s.workers| && s.workers[w].Executing? && s.workers[w].left > 0
    case NextProvider(w, _) => w < |s.workers| && s.workers[w].Executing? && s.workers[w].left > 0
    case Fail(w) => w < |s.workers| && s.workers[w].Executing? && s.workers[w].left == 0
    case Requeue(w) => w < |s.workers| && s.workers[w].BackingOff?
    case Store(w) => w < |s.workers| && s.workers[w].Storing?
  }

  function Runs(s: State, id: Id): nat {
    if id in s.runs then s.runs[id] else 0
  }

  /** Pushes at the left. */
  function Push(s: State, e: Entry): State {
    s.(queue := [e] + s.queue, pushed := s.pushed + [e])
  }

  function Step(maxRetries: int, s: State, a: Action): State
    requires Enabled(s, a)
  {
    match a
    case Submit(id, key) => Push(s, Good(Job(id, key, 0))).(known := s.known[id := key])
    case SubmitMalformed => Push(s, Malformed)
    case SubmitStray => Push(s, Stray)
    case Pop(w, chain) =>
      var e := s.queue[|s.queue| - 1];
      var rest := s.(queue := s.queue[..|s.queue| - 1], popped := s.popped + [e]);
      if e.Malformed? then rest.(failed := s.failed + 1, malformed := s.malformed + 1)
      else if e.Stray? then rest
      else rest.(workers := s.workers[w := Executing(e.job, chain)], starts := s.starts + 1,
              runs := s.runs[e.job.id := Runs(s, e.job.id) + 1])
    case Succeed(w) =>
      s.(workers := s.workers[w := Storing(s.workers[w].job, Completed)], processed := s.processed + 1)
    case NextProvider(w, counted) =>
      var task := s.workers[w];
      var next := s.(workers := s.workers[w := Executing(task.job, task.left - 1)]);
      if counted then next.(processed := s.processed + 1, miscounted := s.miscounted + 1) else next
    case Fail(w) =>
      var job := s.workers[w].job;
      if job.retry < maxRetries then
        s.(workers := s.workers[w := BackingOff(job)], failed := s.failed + 1, retried := s.retried + 1)
      else s.(workers := s.workers[w := Storing(job, Errored)], failed := s.failed + 1)
    case Requeue(w) =>
      var job := s.workers[w].job;
      Push(s, Good(job.(retry := job.retry + 1))).(workers := s.workers[w := Idle])
    case Store(w) =>
      var task := s.workers[w];
      var r := Result(task.job.id, task.job.key, task.outcome);
      s.(workers := s.workers[w := Idle], results := s.results + [r], store := s.store[r.key := r])
  }

  ghost predicate Init(s: State) {
    && s.queue == [] && s.results == [] && s.store == map[] && s.runs == map[] && s.known == map[]
    && s.pushed == [] && s.popped == []
    && (forall w :: 0 <= w < |s.workers| ==> s.workers[w] == Idle)
    && s.processed == s.failed == s.malformed == s.retried == s.starts == s.miscounted == 0
  }

  ghost predicate IsRun(maxRetries: int, run: seq<State>, actions: seq<Action>) {
    && |run| == |actions| + 1 && Init(run[0])
    && forall i :: 0 <= i < |actions| ==> Enabled(run[i], actions[i]) && run[i + 1] == Step(maxRetries, run[i], actions[i])
  }

  // ------------------------------------------------------------------ where the jobs are

  function InEntry(e: Entry, id: Id): nat {
    if e.Good? && e.job.id == id then 1 else 0
  }

  function InTask(t: Task, id: Id): nat {
    if !t.Idle? && t.job.id == id then 1 else 0
  }

  function InQueue(q: seq<Entry>, id: Id): nat {
    if q == [] then 0 else InQueue(q[..|q| - 1], id) + InEntry(q[|q| - 1], id)
  }

  function WithWorkers(ws: seq<Task>, id: Id): nat {
    if ws == [] then 0 else WithWorkers(ws[..|ws| - 1], id) + InTask(ws[|ws| - 1], id)
  }

  function Stored(rs: seq<Result>, id: Id): nat {
    if rs == [] then 0 else Stored(rs[..|rs| - 1], id) + if rs[|rs| - 1].id == id then 1 else 0
  }

  lemma {:induction false} QueuePush(e: Entry, q: seq<Entry>, id: Id)
    ensures InQueue([e] + q, id) == InEntry(e, id) + InQueue(q, id)
  {
    hide InEntry;
    if q == [] {
      assert [e] + q == [e];
      assert [e][..0] == [];
    } else {
      QueuePush(e, q[..|q| - 1], id);
      assert ([e] + q)[..|q|] == [e] + q[..|q| - 1];
    }
  }

  lemma QueuePop(q: seq<Entry>, id: Id)
    requires q != []
    ensures InQueue(q, id) == InQueue(q[..|q| - 1], id) + InEntry(q[|q| - 1], id)
  {
  }

  lemma {:induction false} WorkerSet(ws: seq<Task>, w: nat, t: Task, id: Id)
    requires w < |ws|
    ensures WithWorkers(ws[w := t], id) + InTask(ws[w], id) == WithWorkers(ws, id) + InTask(t, id)
  {
    hide InTask;
    var init := ws[..|ws| - 1];
    if w == |ws| - 1 {
      assert ws[w := t][..|ws| - 1] == init;
    } else {
      WorkerSet(init, w, t, id);
      assert ws[w := t][..|ws| - 1] == init[w := t];
    }
  }

  lemma ResultPush(rs: seq<Result>, r: Result, id: Id)
    ensures Stored(rs + [r], id) == Stored(rs, id) + if r.id == id then 1 else 0
  {
    assert (rs + [r])[..|rs|] == rs;
  }

  lemma {:induction false} QueueHas(q: seq<Entry>, i: nat)
    requires i < |q| && q[i].Good?
    ensures InQueue(q, q[i].job.id) >= 1
  {
    if i < |q| - 1 { QueueHas(q[..|q| - 1], i); }
  }

  lemma {:induction false} WorkersHave(ws: seq<Task>, w: nat)
    requires w < |ws| && !ws[w].Idle?
    ensures WithWorkers(ws, ws[w].job.id) >= 1
  {
    if w < |ws| - 1 { WorkersHave(ws[..|ws| - 1], w); }
  }

  lemma {:induction false} StoredHas(rs: seq<Result>, i: nat)
    requires i < |rs|
    ensures Stored(rs, rs[i].id) >= 1
  {
    if i < |rs| - 1 { StoredHas(rs[..|rs| - 1], i); }
  }

  /** How many copies of a job there are: queued, with a worker (executing, backing off or
      storing), or stored. */
  function Copies(s: State, id: Id): nat {
    InQueue(s.queue, id) + WithWorkers(s.workers, id) + Stored(s.results, id)
  }

  /** Every job ever submitted is in exactly one place, exactly once; no other job is anywhere. */
  ghost predicate Conserved(s: State) {
    forall id :: Copies(s, id) == if id in s.known then 1 else 0
  }

  lemma CopiesStep(maxRetries: int, s: State, a: Action, id: Id)
    requires Enabled(s, a)
    ensures Copies(Step(maxRetries, s, a), id) == Copies(s, id) + if a.Submit? && a.id == id then 1 else 0
  {
    hide InQueue, WithWorkers, Stored;
    var s' := Step(maxRetries, s, a);
    match a
    case Submit(new_, key) => QueuePush(Good(Job(new_, key, 0)), s.queue, id);
    case SubmitMalformed => QueuePush(Malformed, s.queue, id);
    case SubmitStray => QueuePush(Stray, s.queue, id);
    case Pop(w, _) =>
      QueuePop(s.queue, id);
      if s.queue[|s.queue| - 1].Good? { WorkerSet(s.workers, w, s'.workers[w], id); }
    case Succeed(w) => WorkerSet(s.workers, w, s'.workers[w], id);
    case NextProvider(w, _) => WorkerSet(s.workers, w, s'.workers[w], id);
    case Fail(w) => WorkerSet(s.workers, w, s'.workers[w], id);
    case Requeue(w) =>
      WorkerSet(s.workers, w, Idle, id);
      QueuePush(s'.queue[0], s.queue, id);
    case Store(w) =>
      WorkerSet(s.workers, w, Idle, id);
      ResultPush(s.results, s'.results[|s.results|], id);
  }

  lemma ConservedStep(maxRetries: int, s: State, a: Action)
    requires Conserved(s) && Enabled(s, a)
    ensures Conserved(Step(maxRetries, s, a))
  {
    hide Copies;
    forall id ensures Copies(Step(maxRetries, s, a), id) == if id in Step(maxRetries, s, a).known then 1 else 0 {
      CopiesStep(maxRetries, s, a, id);
    }
  }

  // ------------------------------------------------------------------ how often jobs run

  function Bound(maxRetries: int): nat {
    if maxRetries > 0 then maxRetries else 0
  }

  ghost predicate EntryOk(maxRetries: int, s: State, e: Entry) {
    e.Good? ==> 0 <= e.job.retry <= Bound(maxRetries) && Runs(s, e.job.id) == e.job.retry
  }

  ghost predicate TaskOk(maxRetries: int, s: State, t: Task) {
    && (!t.Idle? ==> 0 <= t.job.retry <= Bound(maxRetries) && Runs(s, t.job.id) == t.job.retry + 1)
    && (t.Executing? ==> t.left <= CHAIN)
    && (t.BackingOff? ==> t.job.retry < maxRetries)
    && (t.Storing? && t.outcome == Errored ==> t.job.retry == Bound(maxRetries))
  }

  /** An error is only stored once every allowed run has failed. */
  ghost predicate ResultOk(maxRetries: int, s: State, r: Result) {
    r.outcome == Errored ==> Runs(s, r.id) == Bound(maxRetries) + 1
  }

  /** The retry count of a job is the number of finished runs, and no job exceeds its budget. */
  ghost predicate Budgeted(maxRetries: int, s: State) {
    && (forall i :: 0 <= i < |s.queue| ==> EntryOk(maxRetries, s, s.queue[i]))
    && (forall w :: 0 <= w < |s.workers| ==> TaskOk(maxRetries, s, s.workers[w]))
    && (forall i :: 0 <= i < |s.results| ==> ResultOk(maxRetries, s, s.results[i]))
    && (forall id :: Runs(s, id) <= Bound(maxRetries) + 1)
    && (forall id :: id !in s.known ==> Runs(s, id) == 0)
  }

  lemma PopBudgeted(maxRetries: int, s: State, w: nat, chain: nat)
    requires Conserved(s) && Budgeted(maxRetries, s) && Enabled(s, Pop(w, chain))
    ensures Budgeted(maxRetries, Step(maxRetries, s, Pop(w, chain)))
  {
    hide InQueue, WithWorkers, Stored;
    var s' := Step(maxRetries, s, Pop(w, chain));
    var rest, e := s.queue[..|s.queue| - 1], s.queue[|s.queue| - 1];
    assert forall i :: 0 <= i < |rest| ==> rest[i] == s.queue[i];
    if e.Good? {
      var id := e.job.id;
      QueuePop(s.queue, id);
      assert Copies(s, id) >= 1;
      assert id in s.known;
      assert EntryOk(maxRetries, s, e);
      forall i | 0 <= i < |rest| ensures EntryOk(maxRetries, s', rest[i]) {
        assert EntryOk(maxRetries, s, s.queue[i]);
        if rest[i].Good? { QueueHas(rest, i); }
      }
      forall v | 0 <= v < |s'.workers| ensures TaskOk(maxRetries, s', s'.workers[v]) {
        assert TaskOk(maxRetries, s, s.workers[v]);
        if v != w && !s.workers[v].Idle? { WorkersHave(s.workers, v); }
      }
      forall i | 0 <= i < |s.results| ensures ResultOk(maxRetries, s', s.results[i]) {
        assert ResultOk(maxRetries, s, s.results[i]);
        StoredHas(s.results, i);
      }
      forall k ensures Runs(s', k) <= Bound(maxRetries) + 1 && (k !in s'.known ==> Runs(s', k) == 0) {
        assert Runs(s', k) == if k == id then Runs(s, id) + 1 else Runs(s, k);
      }
    } else {
      assert forall id :: Runs(s', id) == Runs(s, id);
      forall i | 0 <= i < |s.results| ensures ResultOk(maxRetries, s', s.results[i]) {
        assert ResultOk(maxRetries, s, s.results[i]);
      }
      forall i | 0 <= i < |rest| ensures EntryOk(maxRetries, s', rest[i]) {
        assert EntryOk(maxRetries, s, s.queue[i]);
      }
      forall v | 0 <= v < |s'.workers| ensures TaskOk(maxRetries, s', s'.workers[v]) {
        assert TaskOk(maxRetries, s, s.workers[v]);
      }
    }
  }

  lemma BudgetedStep(maxRetries: int, s: State, a: Action)
    requires Conserved(s) && Budgeted(maxRetries, s) && Enabled(s, a)
    ensures Budgeted(maxRetries, Step(maxRetries, s, a))
  {
    hide InQueue, WithWorkers, Stored;
    var s' := Step(maxRetries, s, a);
    if a.Pop? {
      PopBudgeted(maxRetries, s, a.w, a.chain);
    } else {
      assert forall id :: Runs(s', id) == Runs(s, id);
      forall i | 0 <= i < |s'.queue| ensures EntryOk(maxRetries, s', s'.queue[i]) {
        if |s'.queue| > |s.queue| && i > 0 {
          assert s'.queue[i] == s.queue[i - 1];
        } else if |s'.queue| == |s.queue| {
          assert s'.queue[i] == s.queue[i];
        } else if a.Requeue? {
          assert TaskOk(maxRetries, s, s.workers[a.w]);
        }
      }
      forall v | 0 <= v < |s'.workers| ensures TaskOk(maxRetries, s', s'.workers[v]) {
        assert TaskOk(maxRetries, s, s.workers[v]);
      }
      forall i | 0 <= i < |s'.results| ensures ResultOk(maxRetries, s', s'.results[i]) {
        if i < |s.results| {
          assert ResultOk(maxRetries, s, s.results[i]);
        } else {
          assert TaskOk(maxRetries, s, s.workers[a.w]);
        }
      }
    }
  }

  // ------------------------------------------------------------------ counters

  function CountExecuting(ws: seq<Task>): nat {
    if ws == [] then 0 else CountExecuting(ws[..|ws| - 1]) + if ws[|ws| - 1].Executing? then 1 else 0
  }

  lemma {:induction false} CountSet(ws: seq<Task>, w: nat, t: Task)
    requires w < |ws|
    ensures CountExecuting(ws[w := t]) + (if ws[w].Executing? then 1 else 0)
      == CountExecuting(ws) + if t.Executing? then 1 else 0
  {
    var init := ws[..|ws| - 1];
    if w == |ws| - 1 {
      assert ws[w := t][..|ws| - 1] == init;
    } else {
      CountSet(init, w, t);
      assert ws[w := t][..|ws| - 1] == init[w := t];
    }
  }

  /** Executions that have finished (begun and no longer executing) are the processed plus the
      failed ones, undecodable entries and miscounted responses aside. */
  ghost predicate Tallied(s: State) {
    s.starts + s.malformed + s.miscounted == s.processed + s.failed + CountExecuting(s.workers)
  }

  lemma TalliedStep(maxRetries: int, s: State, a: Action)
    requires Tallied(s) && Enabled(s, a)
    ensures Tallied(Step(maxRetries, s, a))
  {
    hide CountExecuting;
    var s' := Step(maxRetries, s, a);
    if !IsSubmission(a) {
      CountSet(s.workers, a.w, s'.workers[a.w]);
      assert s.workers[a.w := s'.workers[a.w]] == s'.workers;
    }
  }

  // ------------------------------------------------------------------ what the store holds

  predicate JobKeyed(s: State, job: Job) {
    job.id in s.known && s.known[job.id] == job.key
  }

  /** Every job carries the request id it was submitted with. */
  ghost predicate JobsKeyed(s: State) {
    && (forall i :: 0 <= i < |s.queue| && s.queue[i].Good? ==> JobKeyed(s, s.queue[i].job))
    && (forall w :: 0 <= w < |s.workers| && !s.workers[w].Idle? ==> JobKeyed(s, s.workers[w].job))
  }

  /** So does every result, and the store holds under each request id one of the results
      written there. */
  ghost predicate StoreKeyed(s: State) {
    && (forall r :: r in s.results ==> r.id in s.known && s.known[r.id] == r.key && r.key in s.store)
    && (forall k :: k in s.store ==> s.store[k].key == k && s.store[k] in s.results)
    && (forall k :: if k in s.store then Latest(s.results, k) == Some(s.store[k]) else Latest(s.results, k) == None)
  }

  /** The last result written under the request id. */
  function Latest(rs: seq<Result>, k: Key): Option<Result> {
    if rs == [] then None else if rs[|rs| - 1].key == k then Some(rs[|rs| - 1]) else Latest(rs[..|rs| - 1], k)
  }

  lemma LatestPush(rs: seq<Result>, r: Result, k: Key)
    ensures Latest(rs + [r], k) == if r.key == k then Some(r) else Latest(rs, k)
  {
    assert (rs + [r])[..|rs|] == rs;
  }

  ghost predicate Keyed(s: State) {
    JobsKeyed(s) && StoreKeyed(s)
  }

  lemma JobsKeyedStep(maxRetries: int, s: State, a: Action)
    requires JobsKeyed(s) && Enabled(s, a)
    ensures JobsKeyed(Step(maxRetries, s, a))
  {
    var s' := Step(maxRetries, s, a);
    forall i | 0 <= i < |s'.queue| && s'.queue[i].Good? ensures JobKeyed(s', s'.queue[i].job) {
      if |s'.queue| > |s.queue| && i > 0 {
        assert s'.queue[i] == s.queue[i - 1];
      } else if |s'.queue| <= |s.queue| {
        assert s'.queue[i] == s.queue[i];
      }
    }
  }

  lemma WriteKeepsStore(s: State, s': State, r: Result)
    requires StoreKeyed(s) && s'.known == s.known && r.id in s.known && s.known[r.id] == r.key
    requires s'.results == s.results + [r] && s'.store == s.store[r.key := r]
    ensures StoreKeyed(s')
  {
    hide Latest;
    forall k
      ensures if k in s'.store then Latest(s'.results, k) == Some(s'.store[k]) else Latest(s'.results, k) == None
    {
      LatestPush(s.results, r, k);
    }
  }

  lemma KeyedStep(maxRetries: int, s: State, a: Action)
    requires Keyed(s) && Enabled(s, a)
    ensures Keyed(Step(maxRetries, s, a))
  {
    hide Latest;
    var s' := Step(maxRetries, s, a);
    JobsKeyedStep(maxRetries, s, a);
    if a.Store? {
      assert JobKeyed(s, s.workers[a.w].job);
      WriteKeepsStore(s, s', s'.results[|s.results|]);
    } else {
      assert s'.results == s.results && s'.store == s.store;
    }
  }

  // ------------------------------------------------------------------ the provider chain

  /** Since the worker last took an entry: how many providers it has given up on, and how many
      there were to try. */
  function Attempt(actions: seq<Action>, w: nat): (nat, nat) {
    if actions == [] then (0, 0)
    else
      var before, a := Attempt(actions[..|actions| - 1], w), actions[|actions| - 1];
      if a.Pop? && a.w == w then (0, a.chain)
      else if a.NextProvider? && a.w == w then (before.0 + 1, before.1)
      else before
  }

  /** In every run, an execution has as many providers left as it has not yet given up on; so it
      fails exactly when the whole chain has been tried, and not before. */
  lemma {:induction false} ChainIsExhausted(maxRetries: int, run: seq<State>, actions: seq<Action>, w: nat)
    requires IsRun(maxRetries, run, actions) && w < |run[|actions|].workers|
    ensures var s, attempt := run[|actions|], Attempt(actions, w);
      s.workers[w].Executing? ==>
        && s.workers[w].left + attempt.0 == attempt.1
        && (Enabled(s, Fail(w)) <==> attempt.0 == attempt.1) && (Enabled(s, Succeed(w)) <==> attempt.0 < attempt.1)
    decreases |actions|
  {
    hide Step;
    if actions != [] {
      var k := |actions| - 1;
      assert run[k + 1] == Step(maxRetries, run[k], actions[k]);
      WorkersAfter(maxRetries, run[k], actions[k], w);
      ChainIsExhausted(maxRetries, run[..k + 1], actions[..k], w);
    }
  }

  lemma WorkersAfter(maxRetries: int, s: State, a: Action, w: nat)
    requires Enabled(s, a)
    ensures var ws := Step(maxRetries, s, a).workers;
      && |ws| == |s.workers|
      && (w < |ws| && ws[w].Executing? ==>
            || (a.Pop? && a.w == w && ws[w].left == a.chain)
            || (a.NextProvider? && a.w == w && s.workers[w].Executing? && ws[w].left == s.workers[w].left - 1)
            || (ws[w] == s.workers[w] && !(a.Pop? && a.w == w) && !(a.NextProvider? && a.w == w)))
  {
  }

  // ------------------------------------------------------------------ first in, first out

  function Reversed(q: seq<Entry>): seq<Entry> {
    if q == [] then [] else [q[|q| - 1]] + Reversed(q[..|q| - 1])
  }

  lemma {:induction false} ReversedPush(e: Entry, q: seq<Entry>)
    ensures Reversed([e] + q) == Reversed(q) + [e]
  {
    if q == [] {
      assert [e] + q == [e] && [e][..0] == [];
    } else {
      ReversedPush(e, q[..|q| - 1]);
      assert ([e] + q)[..|q|] == [e] + q[..|q| - 1];
    }
  }

  /** Entries leave the queue in the order in which they came, retries included. */
  ghost predicate InOrder(s: State) {
    s.pushed == s.popped + Reversed(s.queue)
  }

  /** What any step does to the queue: nothing, a push at the left or a pop at the right. */
  ghost predicate Moved(s: State, s': State) {
    || (s'.queue == s.queue && s'.pushed == s.pushed && s'.popped == s.popped)
    || (&& |s'.queue| == |s.queue| + 1 && s'.queue == [s'.queue[0]] + s.queue
        && s'.pushed == s.pushed + [s'.queue[0]] && s'.popped == s.popped)
    || (&& s.queue != [] && s'.queue == s.queue[..|s.queue| - 1]
        && s'.pushed == s.pushed && s'.popped == s.popped + [s.queue[|s.queue| - 1]])
  }

  lemma StepMoves(maxRetries: int, s: State, a: Action)
    requires Enabled(s, a)
    ensures Moved(s, Step(maxRetries, s, a))
  {
    var s' := Step(maxRetries, s, a);
    match a
    case Submit(id, key) => assert s'.queue[0] == Good(Job(id, key, 0));
    case Requeue(w) => assert s'.queue[0] == Good(s.workers[w].job.(retry := s.workers[w].job.retry + 1));
    case _ =>
  }

  lemma InOrderStep(maxRetries: int, s: State, a: Action)
    requires InOrder(s) && Enabled(s, a)
    ensures InOrder(Step(maxRetries, s, a))
  {
    hide Step, Enabled;
    var s' := Step(maxRetries, s, a);
    StepMoves(maxRetries, s, a);
    if |s'.queue| > |s.queue| {
      ReversedPush(s'.queue[0], s.queue);
      assert s.popped + Reversed(s.queue) + [s'.queue[0]] == s.popped + (Reversed(s.queue) + [s'.queue[0]]);
    } else if |s'.queue| < |s.queue| {
      var e := s.queue[|s.queue| - 1];
      assert s.popped + [e] + Reversed(s'.queue) == s.popped + ([e] + Reversed(s'.queue));
    }
  }

  // ------------------------------------------------------------------ counters and results

  function CountResults(rs: seq<Result>, o: Outcome): nat {
    if rs == [] then 0 else CountResults(rs[..|rs| - 1], o) + if rs[|rs| - 1].outcome == o then 1 else 0
  }

  predicate Stores(t: Task, o: Outcome) {
    t.Storing? && t.outcome == o
  }

  function CountStoring(ws: seq<Task>, o: Outcome): nat {
    if ws == [] then 0 else CountStoring(ws[..|ws| - 1], o) + if Stores(ws[|ws| - 1], o) then 1 else 0
  }

  lemma {:induction false} StoringSet(ws: seq<Task>, w: nat, t: Task, o: Outcome)
    requires w < |ws|
    ensures CountStoring(ws[w := t], o) + (if Stores(ws[w], o) then 1 else 0)
      == CountStoring(ws, o) + if Stores(t, o) then 1 else 0
  {
    hide Stores;
    var init := ws[..|ws| - 1];
    if w == |ws| - 1 {
      assert ws[w := t][..|ws| - 1] == init;
    } else {
      StoringSet(init, w, t, o);
      assert ws[w := t][..|ws| - 1] == init[w := t];
    }
  }

  lemma ResultsPush(rs: seq<Result>, r: Result, o: Outcome)
    ensures CountResults(rs + [r], o) == CountResults(rs, o) + if r.outcome == o then 1 else 0
  {
    assert (rs + [r])[..|rs|] == rs;
  }

  /** Every success counted and recorded is a completed result, written or about to be; every
      failure that was neither a retry nor undecodable is an error result. */
  ghost predicate Balanced(s: State) {
    && s.processed == s.miscounted + CountResults(s.results, Completed) + CountStoring(s.workers, Completed)
    && s.failed == s.malformed + s.retried + CountResults(s.results, Errored) + CountStoring(s.workers, Errored)
  }

  lemma BalancedStep(maxRetries: int, s: State, a: Action)
    requires Balanced(s) && Enabled(s, a)
    ensures Balanced(Step(maxRetries, s, a))
  {
    hide CountResults, CountStoring;
    var s' := Step(maxRetries, s, a);
    if !IsSubmission(a) {
      StoringSet(s.workers, a.w, s'.workers[a.w], Completed);
      StoringSet(s.workers, a.w, s'.workers[a.w], Errored);
      assert s.workers[a.w := s'.workers[a.w]] == s'.workers;
      if a.Store? {
        ResultsPush(s.results, s'.results[|s.results|], Completed);
        ResultsPush(s.results, s'.results[|s.results|], Errored);
      }
    }
  }

  // ------------------------------------------------------------------ how jobs end

  /** The step ends an execution of the job, well or badly. */
  predicate Ends(s: State, a: Action, id: Id, well: bool) {
    && (if well then a.Succeed? else a.Fail?)
    && a.w < |s.workers| && s.workers[a.w].Executing? && s.workers[a.w].job.id == id
  }

  /** How many executions of the job have ended this way in the run. */
  function Endings(run: seq<State>, actions: seq<Action>, id: Id, well: bool): nat {
    if |run| != |actions| + 1 || actions == [] then 0
    else
      var k := |actions| - 1;
      Endings(run[..k + 1], actions[..k], id, well) + if Ends(run[k], actions[k], id, well) then 1 else 0
  }

  ghost predicate TaskSettled(maxRetries: int, t: Task, wins: nat, fails: nat) {
    match t
    case Idle => true
    case Executing(job, _) => wins == 0 && fails == job.retry
    case BackingOff(job) => wins == 0 && fails == job.retry + 1
    case Storing(job, Completed) => wins == 1 && fails <= Bound(maxRetries)
    case Storing(job, Errored) => wins == 0 && fails == Bound(maxRetries) + 1
  }

  ghost predicate ResultSettled(maxRetries: int, r: Result, wins: nat, fails: nat) {
    if r.outcome == Completed then wins == 1 && fails <= Bound(maxRetries)
    else wins == 0 && fails == Bound(maxRetries) + 1
  }

  /** Where a job stands tells how its executions have ended. */
  ghost predicate Settled(maxRetries: int, s: State, wins: Id -> nat, fails: Id -> nat) {
    && (forall i :: 0 <= i < |s.queue| && s.queue[i].Good? ==>
          wins(s.queue[i].job.id) == 0 && fails(s.queue[i].job.id) == s.queue[i].job.retry)
    && (forall w :: 0 <= w < |s.workers| && !s.workers[w].Idle? ==>
          TaskSettled(maxRetries, s.workers[w], wins(s.workers[w].job.id), fails(s.workers[w].job.id)))
    && (forall i :: 0 <= i < |s.results| ==>
          ResultSettled(maxRetries, s.results[i], wins(s.results[i].id), fails(s.results[i].id)))
    && (forall id :: id !in s.known ==> wins(id) == 0 && fails(id) == 0)
  }

  /** A job with a worker is nowhere else. */
  lemma OnlyHere(s: State, w: nat)
    requires Conserved(s) && w < |s.workers| && !s.workers[w].Idle?
    ensures var id := s.workers[w].job.id;
      && id in s.known
      && (forall i :: 0 <= i < |s.queue| && s.queue[i].Good? ==> s.queue[i].job.id != id)
      && (forall v :: 0 <= v < |s.workers| && v != w && !s.workers[v].Idle? ==> s.workers[v].job.id != id)
      && (forall i :: 0 <= i < |s.results| ==> s.results[i].id != id)
  {
    hide InQueue, WithWorkers, Stored;
    var id := s.workers[w].job.id;
    WorkersHave(s.workers, w);
    assert Copies(s, id) == if id in s.known then 1 else 0;
    forall i | 0 <= i < |s.queue| && s.queue[i].Good? ensures s.queue[i].job.id != id {
      QueueHas(s.queue, i);
    }
    forall i | 0 <= i < |s.results| ensures s.results[i].id != id {
      StoredHas(s.results, i);
    }
    WorkerSet(s.workers, w, Idle, id);
    var others := s.workers[w := Idle];
    forall v | 0 <= v < |s.workers| && v != w && !s.workers[v].Idle? ensures s.workers[v].job.id != id {
      assert others[v] == s.workers[v];
      WorkersHave(others, v);
    }
  }

  lemma MoveSettlesQueue(maxRetries: int, s: State, a: Action, wins: Id -> nat, fails: Id -> nat, wins': Id -> nat, fails': Id -> nat)
    requires Conserved(s) && Budgeted(maxRetries, s) && Settled(maxRetries, s, wins, fails) && Enabled(s, a)
    requires a.Succeed? || a.Fail? || a.NextProvider? || a.Requeue? || a.Store?
    requires forall id :: wins'(id) == wins(id) + if Ends(s, a, id, true) then 1 else 0
    requires forall id :: fails'(id) == fails(id) + if Ends(s, a, id, false) then 1 else 0
    ensures var q := Step(maxRetries, s, a).queue;
      forall i :: 0 <= i < |q| && q[i].Good? ==> wins'(q[i].job.id) == 0 && fails'(q[i].job.id) == q[i].job.retry
  {
    hide Conserved, Copies, Budgeted;
    OnlyHere(s, a.w);
    var q := Step(maxRetries, s, a).queue;
    forall i | 0 <= i < |q| && q[i].Good?
      ensures wins'(q[i].job.id) == 0 && fails'(q[i].job.id) == q[i].job.retry
    {
      if a.Requeue? && i > 0 { assert q[i] == s.queue[i - 1]; }
    }
  }

  lemma MoveSettlesWorkers(maxRetries: int, s: State, a: Action, wins: Id -> nat, fails: Id -> nat, wins': Id -> nat, fails': Id -> nat)
    requires Conserved(s) && Budgeted(maxRetries, s) && Settled(maxRetries, s, wins, fails) && Enabled(s, a)
    requires a.Succeed? || a.Fail? || a.NextProvider? || a.Requeue? || a.Store?
    requires forall id :: wins'(id) == wins(id) + if Ends(s, a, id, true) then 1 else 0
    requires forall id :: fails'(id) == fails(id) + if Ends(s, a, id, false) then 1 else 0
    ensures var ws := Step(maxRetries, s, a).workers;
      forall w :: 0 <= w < |ws| && !ws[w].Idle? ==>
        TaskSettled(maxRetries, ws[w], wins'(ws[w].job.id), fails'(ws[w].job.id))
  {
    hide Conserved, Copies;
    OnlyHere(s, a.w);
    assert TaskOk(maxRetries, s, s.workers[a.w]);
  }

  lemma MoveSettlesResults(maxRetries: int, s: State, a: Action, wins: Id -> nat, fails: Id -> nat, wins': Id -> nat, fails': Id -> nat)
    requires Conserved(s) && Budgeted(maxRetries, s) && Settled(maxRetries, s, wins, fails) && Enabled(s, a)
    requires a.Succeed? || a.Fail? || a.NextProvider? || a.Requeue? || a.Store?
    requires forall id :: wins'(id) == wins(id) + if Ends(s, a, id, true) then 1 else 0
    requires forall id :: fails'(id) == fails(id) + if Ends(s, a, id, false) then 1 else 0
    ensures var rs := Step(maxRetries, s, a).results;
      forall i :: 0 <= i < |rs| ==> ResultSettled(maxRetries, rs[i], wins'(rs[i].id), fails'(rs[i].id))
  {
    hide Conserved, Copies, Budgeted;
    OnlyHere(s, a.w);
    var rs := Step(maxRetries, s, a).results;
    forall i | 0 <= i < |rs| ensures ResultSettled(maxRetries, rs[i], wins'(rs[i].id), fails'(rs[i].id)) {
      if i < |s.results| { assert rs[i] == s.results[i]; }
    }
  }

  /** The acting worker's job moves on; every other job stays where it was. */
  lemma MoveSettles(maxRetries: int, s: State, a: Action, wins: Id -> nat, fails: Id -> nat, wins': Id -> nat, fails': Id -> nat)
    requires Conserved(s) && Budgeted(maxRetries, s) && Settled(maxRetries, s, wins, fails) && Enabled(s, a)
    requires a.Succeed? || a.Fail? || a.NextProvider? || a.Requeue? || a.Store?
    requires forall id :: wins'(id) == wins(id) + if Ends(s, a, id, true) then 1 else 0
    requires forall id :: fails'(id) == fails(id) + if Ends(s, a, id, false) then 1 else 0
    ensures Settled(maxRetries, Step(maxRetries, s, a), wins', fails')
  {
    hide Conserved, Copies, Budgeted, TaskSettled, ResultSettled;
    OnlyHere(s, a.w);
    MoveSettlesQueue(maxRetries, s, a, wins, fails, wins', fails');
    MoveSettlesWorkers(maxRetries, s, a, wins, fails, wins', fails');
    MoveSettlesResults(maxRetries, s, a, wins, fails, wins', fails');
  }

  lemma QueueSettles(maxRetries: int, s: State, a: Action, wins: Id -> nat, fails: Id -> nat)
    requires Settled(maxRetries, s, wins, fails) && Enabled(s, a) && (IsSubmission(a) || a.Pop?)
    ensures Settled(maxRetries, Step(maxRetries, s, a), wins, fails)
  {
    var s' := Step(maxRetries, s, a);
    forall i | 0 <= i < |s'.queue| && s'.queue[i].Good?
      ensures wins(s'.queue[i].job.id) == 0 && fails(s'.queue[i].job.id) == s'.queue[i].job.retry
    {
      if IsSubmission(a) && i > 0 { assert s'.queue[i] == s.queue[i - 1]; }
      if a.Pop? { assert s'.queue[i] == s.queue[i]; }
    }
  }

  lemma {:induction false} RunSettles(maxRetries: int, run: seq<State>, actions: seq<Action>)
    requires IsRun(maxRetries, run, actions)
    ensures Settled(maxRetries, run[|actions|],
      id => Endings(run, actions, id, true), id => Endings(run, actions, id, false))
    decreases |actions|
  {
    hide Settled, Step, Enabled, Conserved, Budgeted;
    if actions == [] {
      StartSettles(maxRetries, run[0], id => Endings(run, actions, id, true), id => Endings(run, actions, id, false));
    } else {
      var k := |actions| - 1;
      var before, done, s, a := run[..k + 1], actions[..k], run[k], actions[k];
      RunSettles(maxRetries, before, done);
      EveryRun(maxRetries, before, done);
      SettledStep(maxRetries, s, a,
        id => Endings(before, done, id, true), id => Endings(before, done, id, false),
        id => Endings(run, actions, id, true), id => Endings(run, actions, id, false));
    }
  }

  lemma StartSettles(maxRetries: int, s: State, wins: Id -> nat, fails: Id -> nat)
    requires Init(s) && forall id :: wins(id) == 0 && fails(id) == 0
    ensures Settled(maxRetries, s, wins, fails)
  {
  }

  lemma SettledStep(maxRetries: int, s: State, a: Action, wins: Id -> nat, fails: Id -> nat, wins': Id -> nat, fails': Id -> nat)
    requires Conserved(s) && Budgeted(maxRetries, s) && Settled(maxRetries, s, wins, fails) && Enabled(s, a)
    requires forall id :: wins'(id) == wins(id) + if Ends(s, a, id, true) then 1 else 0
    requires forall id :: fails'(id) == fails(id) + if Ends(s, a, id, false) then 1 else 0
    ensures Settled(maxRetries, Step(maxRetries, s, a), wins', fails')
  {
    hide Conserved, Budgeted, Step, Enabled;
    if IsSubmission(a) || a.Pop? {
      QueueSettles(maxRetries, s, a, wins, fails);
      SettledSame(maxRetries, Step(maxRetries, s, a), wins, fails, wins', fails');
    } else {
      MoveSettles(maxRetries, s, a, wins, fails, wins', fails');
    }
  }

  lemma SettledSame(maxRetries: int, s: State, wins: Id -> nat, fails: Id -> nat, wins': Id -> nat, fails': Id -> nat)
    requires Settled(maxRetries, s, wins, fails) && forall id :: wins'(id) == wins(id) && fails'(id) == fails(id)
    ensures Settled(maxRetries, s, wins', fails')
  {
  }

  /** In every run, a result is a completion exactly when an execution of its job has succeeded,
      and an error exactly when all max_retries + 1 executions have failed. */
  lemma ResultsTellTheTruth(maxRetries: int, run: seq<State>, actions: seq<Action>, r: Result)
    requires IsRun(maxRetries, run, actions) && r in run[|actions|].results
    ensures r.outcome == Completed <==> Endings(run, actions, r.id, true) == 1
    ensures r.outcome == Errored <==> Endings(run, actions, r.id, false) == Bound(maxRetries) + 1
    ensures Endings(run, actions, r.id, true) <= 1 && Endings(run, actions, r.id, false) <= Bound(maxRetries) + 1
  {
    hide Endings;
    RunSettles(maxRetries, run, actions);
    var s := run[|actions|];
    var i :| 0 <= i < |s.results| && s.results[i] == r;
    assert ResultSettled(maxRetries, r, Endings(run, actions, r.id, true), Endings(run, actions, r.id, false));
  }

  // ------------------------------------------------------------------ every run

  ghost predicate Inv(maxRetries: int, s: State) {
    Conserved(s) && Budgeted(maxRetries, s) && Tallied(s) && Keyed(s) && InOrder(s) && Balanced(s)
  }

  lemma {:induction false} AllIdle(ws: seq<Task>)
    requires forall w :: 0 <= w < |ws| ==> ws[w] == Idle
    ensures (forall id :: WithWorkers(ws, id) == 0) && CountExecuting(ws) == 0
    ensures forall o :: CountStoring(ws, o) == 0
  {
    if ws != [] { AllIdle(ws[..|ws| - 1]); }
  }

  lemma {:induction false} EveryRun(maxRetries: int, run: seq<State>, actions: seq<Action>)
    requires IsRun(maxRetries, run, actions)
    ensures Inv(maxRetries, run[|actions|])
    decreases |actions|
  {
    if actions == [] {
      AllIdle(run[0].workers);
    } else {
      var k := |actions| - 1;
      EveryRun(maxRetries, run[..k + 1], actions[..k]);
      ConservedStep(maxRetries, run[k], actions[k]);
      BudgetedStep(maxRetries, run[k], actions[k]);
      TalliedStep(maxRetries, run[k], actions[k]);
      KeyedStep(maxRetries, run[k], actions[k]);
      InOrderStep(maxRetries, run[k], actions[k]);
      BalancedStep(maxRetries, run[k], actions[k]);
    }
  }

  /** At every moment: each submitted job is in exactly one place, no job has run more than
      max_retries + 1 times, and finished executions equal processed plus failed, but for
      miscounted responses. */
  lemma Safety(maxRetries: int, run: seq<State>, actions: seq<Action>, id: Id)
    requires IsRun(maxRetries, run, actions)
    ensures var s := run[|actions|];
      && InQueue(s.queue, id) + WithWorkers(s.workers, id) + Stored(s.results, id) == (if id in s.known then 1 else 0)
      && Runs(s, id) <= Bound(maxRetries) + 1
      && (forall key :: Result(id, key, Errored) in s.results ==> Runs(s, id) == Bound(maxRetries) + 1)
      && s.starts - CountExecuting(s.workers) == s.processed + s.failed - s.malformed - s.miscounted
      && s.processed - s.miscounted == CountResults(s.results, Completed) + CountStoring(s.workers, Completed)
      && s.failed - s.malformed - s.retried == CountResults(s.results, Errored) + CountStoring(s.workers, Errored)
      && s.pushed == s.popped + Reversed(s.queue)
  {
    hide InQueue, WithWorkers, Stored, CountExecuting;
    EveryRun(maxRetries, run, actions);
    var s := run[|actions|];
    assert Copies(s, id) == if id in s.known then 1 else 0;
    forall key | Result(id, key, Errored) in s.results ensures Runs(s, id) == Bound(maxRetries) + 1 {
      var i :| 0 <= i < |s.results| && s.results[i] == Result(id, key, Errored);
      assert ResultOk(maxRetries, s, s.results[i]);
    }
  }

  // ------------------------------------------------------------------ termination

  function EntryWork(maxRetries: int, e: Entry): int {
    if e.Good? then (CHAIN + 3) * (Bound(maxRetries) - e.job.retry) + CHAIN + 3 else 1
  }

  function TaskWork(maxRetries: int, t: Task): int {
    match t
    case Idle => 0
    case Executing(job, left) => (CHAIN + 3) * (Bound(maxRetries) - job.retry) + left + 2
    case BackingOff(job) => (CHAIN + 3) * (Bound(maxRetries) - job.retry) + 1
    case Storing(_, _) => 1
  }

  function QueueWork(maxRetries: int, q: seq<Entry>): int {
    if q == [] then 0 else QueueWork(maxRetries, q[..|q| - 1]) + EntryWork(maxRetries, q[|q| - 1])
  }

  function WorkersWork(maxRetries: int, ws: seq<Task>): int {
    if ws == [] then 0 else WorkersWork(maxRetries, ws[..|ws| - 1]) + TaskWork(maxRetries, ws[|ws| - 1])
  }

  /** Steps still owed: the retries left of every job, nine steps each, plus what is under way. */
  function Work(maxRetries: int, s: State): int {
    QueueWork(maxRetries, s.queue) + WorkersWork(maxRetries, s.workers)
  }

  lemma {:induction false} QueueWorkPush(maxRetries: int, e: Entry, q: seq<Entry>)
    ensures QueueWork(maxRetries, [e] + q) == EntryWork(maxRetries, e) + QueueWork(maxRetries, q)
  {
    hide EntryWork;
    if q == [] {
      assert [e] + q == [e];
      assert [e][..0] == [];
    } else {
      QueueWorkPush(maxRetries, e, q[..|q| - 1]);
      assert ([e] + q)[..|q|] == [e] + q[..|q| - 1];
    }
  }

  lemma {:induction false} WorkersWorkSet(maxRetries: int, ws: seq<Task>, w: nat, t: Task)
    requires w < |ws|
    ensures WorkersWork(maxRetries, ws[w := t]) ==
      WorkersWork(maxRetries, ws) - TaskWork(maxRetries, ws[w]) + TaskWork(maxRetries, t)
  {
    hide TaskWork;
    var init := ws[..|ws| - 1];
    if w == |ws| - 1 {
      assert ws[w := t][..|ws| - 1] == init;
    } else {
      WorkersWorkSet(maxRetries, init, w, t);
      assert ws[w := t][..|ws| - 1] == init[w := t];
    }
  }

  predicate IsSubmission(a: Action) {
    a.Submit? || a.SubmitMalformed? || a.SubmitStray?
  }

  lemma StepsDoWork(maxRetries: int, s: State, a: Action)
    requires Budgeted(maxRetries, s) && Enabled(s, a) && !IsSubmission(a)
    ensures Work(maxRetries, Step(maxRetries, s, a)) < Work(maxRetries, s)
  {
    hide QueueWork, WorkersWork;
    var s' := Step(maxRetries, s, a);
    assert TaskOk(maxRetries, s, s.workers[a.w]);
    WorkersWorkSet(maxRetries, s.workers, a.w, s'.workers[a.w]);
    assert s.workers[a.w := s'.workers[a.w]] == s'.workers;
    match a
    case Pop(_, _) => QueueWorkPop(maxRetries, s.queue);
    case Requeue(w) => QueueWorkPush(maxRetries, s'.queue[0], s.queue);
    case _ =>
  }

  lemma QueueWorkPop(maxRetries: int, q: seq<Entry>)
    requires q != []
    ensures QueueWork(maxRetries, q) == QueueWork(maxRetries, q[..|q| - 1]) + EntryWork(maxRetries, q[|q| - 1])
  {
  }

  lemma {:induction false} WorkNonNegative(maxRetries: int, q: seq<Entry>, ws: seq<Task>, s: State)
    requires forall i :: 0 <= i < |q| ==> EntryOk(maxRetries, s, q[i])
    requires forall w :: 0 <= w < |ws| ==> TaskOk(maxRetries, s, ws[w])
    ensures QueueWork(maxRetries, q) >= 0 && WorkersWork(maxRetries, ws) >= 0
    decreases |q| + |ws|
  {
    if q != [] {
      WorkNonNegative(maxRetries, q[..|q| - 1], ws, s);
      assert EntryOk(maxRetries, s, q[|q| - 1]);
    } else if ws != [] {
      WorkNonNegative(maxRetries, q, ws[..|ws| - 1], s);
      assert TaskOk(maxRetries, s, ws[|ws| - 1]);
    }
  }

  /** After the last submission every run stops: it has at most Work more steps. */
  lemma {:induction false} RunsTerminate(maxRetries: int, run: seq<State>, actions: seq<Action>, from: nat)
    requires IsRun(maxRetries, run, actions) && from <= |actions|
    requires forall i :: from <= i < |actions| ==> !IsSubmission(actions[i])
    ensures |actions| - from <= Work(maxRetries, run[from]) - Work(maxRetries, run[|actions|])
    ensures Work(maxRetries, run[|actions|]) >= 0
    decreases |actions|
  {
    EveryRun(maxRetries, run, actions);
    var last := run[|actions|];
    WorkNonNegative(maxRetries, last.queue, last.workers, last);
    if from < |actions| {
      var k := |actions| - 1;
      assert IsRun(maxRetries, run[..k + 1], actions[..k]);
      RunsTerminate(maxRetries, run[..k + 1], actions[..k], from);
      EveryRun(maxRetries, run[..k + 1], actions[..k]);
      StepsDoWork(maxRetries, run[k], actions[k]);
    }
  }

  /** Nothing can happen but a submission. */
  ghost predicate Stopped(s: State) {
    |s.workers| > 0 && forall a :: Enabled(s, a) ==> IsSubmission(a)
  }

  /** A pool with a worker only stops when nothing is queued or under way, and then every job
      has written exactly one result. */
  lemma StoppedMeansStored(maxRetries: int, run: seq<State>, actions: seq<Action>)
    requires IsRun(maxRetries, run, actions) && Stopped(run[|actions|])
    ensures forall id :: Stored(run[|actions|].results, id) == if id in run[|actions|].known then 1 else 0
  {
    var s := run[|actions|];
    EveryRun(maxRetries, run, actions);
    forall w | 0 <= w < |s.workers| ensures s.workers[w] == Idle {
      assert !Enabled(s, NextProvider(w, false)) && !Enabled(s, Fail(w)) && !Enabled(s, Requeue(w)) && !Enabled(s, Store(w));
    }
    AllIdle(s.workers);
    assert !Enabled(s, Pop(0, 1));
    assert s.queue == [];
    forall id ensures Stored(s.results, id) == if id in s.known then 1 else 0 {
      assert Copies(s, id) == if id in s.known then 1 else 0;
    }
  }

  lemma {:induction false} StoredIsResult(rs: seq<Result>, id: Id) returns (r: Result)
    requires Stored(rs, id) >= 1
    ensures r in rs && r.id == id
  {
    r := rs[|rs| - 1];
    if r.id != id { r := StoredIsResult(rs[..|rs| - 1], id); }
  }

  /** The job's own result can be fetched under its request id. */
  predicate Fetchable(s: State, id: Id)
    requires id in s.known
  {
    s.known[id] in s.store && s.store[s.known[id]].id == id
  }

  /** Once the pool has stopped, every job's result can be fetched exactly when all jobs had
      different request ids; jobs without one share "unknown" and overwrite each other. */
  lemma FetchableIffDistinct(maxRetries: int, run: seq<State>, actions: seq<Action>)
    requires IsRun(maxRetries, run, actions) && Stopped(run[|actions|])
    ensures var s := run[|actions|];
      (forall id :: id in s.known ==> Fetchable(s, id)) <==>
      (forall id, other :: id in s.known && other in s.known && s.known[id] == s.known[other] ==> id == other)
  {
    hide Enabled, Step, Stored, Copies, Budgeted, Tallied;
    EveryRun(maxRetries, run, actions);
    StoppedMeansStored(maxRetries, run, actions);
    var s := run[|actions|];
    forall id | id in s.known ensures s.known[id] in s.store {
      var r := StoredIsResult(s.results, id);
    }
    if forall id :: id in s.known ==> Fetchable(s, id) {
      forall id, other | id in s.known && other in s.known && s.known[id] == s.known[other] ensures id == other {
        assert Fetchable(s, id) && Fetchable(s, other);
      }
    }
  }

  /** One execution is counted twice as processed when its first response cannot be recorded. */
  lemma CountedTwice(maxRetries: int, key: Key) returns (run: seq<State>, actions: seq<Action>)
    ensures IsRun(maxRetries, run, actions)
    ensures var s := run[|actions|];
      s.starts == 1 && s.processed == 2 && s.failed == 0 && s.results == [Result(0, key, Completed)]
  {
    var s0 := State([], [Idle], [], map[], 0, 0, 0, 0, 0, 0, map[], map[], [], []);
    actions := [Submit(0, key), Pop(0, 2), NextProvider(0, true), Succeed(0), Store(0)];
    var s1 := Step(maxRetries, s0, actions[0]);
    assert s1.queue == [Good(Job(0, key, 0))];
    var s2 := Step(maxRetries, s1, actions[1]);
    assert s2.workers == [Executing(Job(0, key, 0), 2)];
    var s3 := Step(maxRetries, s2, actions[2]);
    assert s3.workers == [Executing(Job(0, key, 0), 1)];
    var s4 := Step(maxRetries, s3, actions[3]);
    assert s4.workers == [Storing(Job(0, key, 0), Completed)];
    var s5 := Step(maxRetries, s4, actions[4]);
    run := [s0, s1, s2, s3, s4, s5];
    assert s5.results == [Result(0, key, Completed)];
  }
}
