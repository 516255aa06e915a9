/** Traffic capture: a capped copy of the response as the client reads it, one record per
    exchange, and a bounded queue to the upload workers. */
module Capture {
  import opened Common

  function Cap(maxBody: int): nat {
    if maxBody < 0 then 0 else maxBody
  }

  /** The longest prefix that fits the cap. */
  function Prefix(text: Bytes, maxBody: int): Bytes {
    if |text| <= Cap(maxBody) then text else text[..Cap(maxBody)]
  }

  /** It is a prefix, and either everything or as long as the cap. */
  lemma PrefixIsLongest(text: Bytes, maxBody: int)
    ensures Prefix(text, maxBody) <= text
    ensures |Prefix(text, maxBody)| == if |text| <= maxBody then |text| else if maxBody > 0 then maxBody else 0
  {
  }

  /** The captured part of a body, and whether there was more. */
  datatype Side = Side(body: Bytes, truncated: bool)

  datatype Outcome = Response(side: Side) | UpstreamError

  datatype Record = Record(request: Side, outcome: Outcome)

  /** A body that answers each read from the next segment; a failing one ends with an error. */
  datatype Source = Source(segments: seq<Bytes>, failing: bool)

  /** What the tee keeps of a response that was read as far as this. */
  function Captured(seen: Bytes, maxBody: int): Side {
    Side(Prefix(seen, maxBody), |seen| > Cap(maxBody))
  }

  /** What the record shows of a request body, if there is one that can be read again. */
  function RequestSide(body: Option<Source>, maxBody: int): Side {
    if body.None? then Side([], false)
    else Side(Prefix(Concat(body.value.segments), maxBody), ExtraByte(body.value.segments, maxBody))
  }

  // ------------------------------------------------------------------ the recorder

  class Recorder {
    const maxBody: int
    const capacity: nat
    var queue: seq<Record>
    var enqueued: nat
    var dropped: nat
    /** Every record handed to Enqueue. */
    ghost var emitted: seq<Record>

    constructor (maxBody: int, capacity: nat)
      ensures this.maxBody == maxBody && this.capacity == capacity && emitted == [] && Valid()
    {
      this.maxBody, this.capacity := maxBody, capacity;
      queue, enqueued, dropped, emitted := [], 0, 0, [];
    }

    ghost predicate Valid()
      reads this
    {
      |queue| <= capacity && enqueued + dropped == |emitted|
    }

    /** Never blocks: queues the record if there is room, counts a drop otherwise. */
    method Enqueue(r: Record)
      requires Valid()
      modifies this`queue, this`enqueued, this`dropped, this`emitted
      ensures Valid() && emitted == old(emitted) + [r]
      ensures if old(|queue|) < capacity then
          queue == old(queue) + [r] && enqueued == old(enqueued) + 1 && dropped == old(dropped)
        else queue == old(queue) && enqueued == old(enqueued) && dropped == old(dropped) + 1
    {
      if |queue| < capacity {
        queue := queue + [r];
        enqueued := enqueued + 1;
      } else {
        dropped := dropped + 1;
      }
      emitted := emitted + [r];
    }
  }

  // ------------------------------------------------------------------ the tee

  class TeeBody {
    const rec: Recorder
    const request: Side
    var buf: Bytes
    var trunc: bool
    var done: bool
    /** Every byte the client has read so far. */
    ghost var seen: Bytes

    ghost predicate Valid()
      reads this
    {
      buf == Prefix(seen, rec.maxBody) && trunc == (|seen| > Cap(rec.maxBody))
    }

    constructor (rec: Recorder, request: Side)
      ensures Valid() && this.rec == rec && this.request == request && seen == [] && !done
    {
      this.rec, this.request := rec, request;
      buf, trunc, done, seen := [], false, false, [];
    }

    /** One read that the source answered with these bytes. */
    method Read(delivered: Bytes)
      requires Valid()
      modifies this`buf, this`trunc, this`seen
      ensures Valid() && seen == old(seen) + delivered
    {
      if |delivered| > 0 && !trunc {
        var remain := rec.maxBody - |buf|;
        if remain > 0 {
          if |delivered| <= remain {
            buf := buf + delivered;
          } else {
            buf := buf + delivered[..remain];
            trunc := true;
          }
        } else {
          trunc := true;
        }
      }
      seen := seen + delivered;
    }

    method Close()
      requires Valid() && rec.Valid()
      modifies this`done, rec
      ensures Valid() && rec.Valid() && done
      ensures rec.emitted == old(rec.emitted) +
        if old(done) then [] else [Record(request, Response(Captured(seen, rec.maxBody)))]
    {
      if done { return; }
      done := true;
      rec.Enqueue(Record(request, Response(Side(buf, trunc))));
    }
  }

  /** The request body is copied up to the cap before the request is sent, if it can be read
      again. An upstream failure is recorded at once; otherwise the response body is wrapped. */
  method RoundTrip(rec: Recorder, body: Option<Source>, upstreamOk: bool) returns (tee: TeeBody?)
    requires rec.Valid()
    modifies rec
    ensures rec.Valid()
    ensures upstreamOk ==> tee != null && fresh(tee) && tee.Valid() && tee.rec == rec && tee.seen == [] && !tee.done
    ensures upstreamOk ==> tee.request == RequestSide(body, rec.maxBody) && rec.emitted == old(rec.emitted)
    ensures !upstreamOk ==>
      tee == null && rec.emitted == old(rec.emitted) + [Record(RequestSide(body, rec.maxBody), UpstreamError)]
  {
    var request := Side([], false);
    if body.Some? {
      var copy, more := ReadCapped(body.value.segments, body.value.failing, rec.maxBody);
      request := Side(copy, more);
    }
    if !upstreamOk {
      rec.Enqueue(Record(request, UpstreamError));
      return null;
    }
    tee := new TeeBody(rec, request);
  }

  /** A whole exchange: any request body, any split of the response into reads, any positive
      number of closes. */
  method Exchange(rec: Recorder, body: Option<Source>, upstreamOk: bool, parts: seq<Bytes>, closes: nat)
    requires rec.Valid() && closes > 0
    modifies rec
    ensures rec.Valid()
    ensures rec.emitted == old(rec.emitted) + [Record(RequestSide(body, rec.maxBody),
      if upstreamOk then Response(Captured(Concat(parts), rec.maxBody)) else UpstreamError)]
  {
    hide Consumed, ExtraByte, RequestSide, Captured;
    var tee := RoundTrip(rec, body, upstreamOk);
    if tee == null { return; }
    for i := 0 to |parts|
      invariant rec.Valid() && rec.emitted == old(rec.emitted)
      invariant tee.Valid() && fresh(tee) && tee.rec == rec && !tee.done && tee.seen == Concat(parts[..i])
      invariant tee.request == RequestSide(body, rec.maxBody)
    {
      ConcatPush(parts[..i], parts[i]);
      assert parts[..i + 1] == parts[..i] + [parts[i]];
      tee.Read(parts[i]);
    }
    assert parts[..|parts|] == parts;
    ghost var record := Record(tee.request, Response(Captured(Concat(parts), rec.maxBody)));
    for k := 0 to closes
      invariant rec.Valid() && tee.Valid() && fresh(tee) && tee.rec == rec && tee.seen == Concat(parts)
      invariant tee.request == record.request && (tee.done <==> k > 0)
      invariant rec.emitted == old(rec.emitted) + if k > 0 then [record] else []
    {
      tee.Close();
    }
  }

  // ------------------------------------------------------------------ readCapped

  /** What is left of the segments after n bytes have been consumed. */
  function Consumed(segments: seq<Bytes>, n: nat): seq<Bytes>
    decreases |segments|
  {
    if n == 0 || segments == [] then segments
    else if |segments[0]| <= n then Consumed(segments[1..], n - |segments[0]|)
    else [segments[0][n..]] + segments[1..]
  }

  lemma {:induction false} ConsumedJoins(segments: seq<Bytes>, n: nat)
    ensures Concat(Consumed(segments, n)) == if n <= |Concat(segments)| then Concat(segments)[n..] else []
    decreases |segments|
  {
    if n > 0 && segments != [] {
      var head, rest := segments[0], segments[1..];
      if |head| <= n {
        ConsumedJoins(rest, n - |head|);
        if n <= |Concat(segments)| {
          assert Concat(segments)[n..] == Concat(rest)[n - |head|..];
        }
      } else {
        assert ([head[n..]] + rest)[1..] == rest;
        assert Concat(segments)[n..] == head[n..] + Concat(rest);
      }
    } else {
      assert Concat(segments)[0..] == Concat(segments);
    }
  }

  /** Whether the read that follows the capped prefix delivers a byte. */
  predicate ExtraByte(segments: seq<Bytes>, max: int) {
    var rest := Consumed(segments, Cap(max));
    rest != [] && rest[0] != []
  }

  lemma TakeWhole(body: Bytes, rest: seq<Bytes>, room: nat)
    requires rest != [] && |rest[0]| <= room && room > 0
    ensures Consumed(rest, room) == Consumed(rest[1..], room - |rest[0]|)
    ensures body + Concat(rest) == body + rest[0] + Concat(rest[1..])
  {
    assert body + (rest[0] + Concat(rest[1..])) == (body + rest[0]) + Concat(rest[1..]);
  }

  lemma TakePart(body: Bytes, rest: seq<Bytes>, room: nat)
    requires rest != [] && |rest[0]| > room > 0
    ensures var cut := [rest[0][room..]] + rest[1..];
      Consumed(rest, room) == cut && Consumed(cut, 0) == cut
      && body + Concat(rest) == body + rest[0][..room] + Concat(cut)
  {
    var cut, tail := [rest[0][room..]] + rest[1..], Concat(rest[1..]);
    assert cut[1..] == rest[1..];
    assert rest[0] == rest[0][..room] + rest[0][room..];
    assert body + (rest[0] + tail) == (body + rest[0][..room]) + (rest[0][room..] + tail);
  }

  lemma ConsumedAll(rest: seq<Bytes>, room: nat)
    requires room == 0 || rest == []
    ensures Consumed(rest, room) == rest && (rest == [] ==> Concat(rest) == [])
  {
  }

  /** Reads at most max bytes from a source that answers each read from the next segment, then
      one byte more to see whether the source was longer. A failing source reports its error
      after the last segment. */
  method ReadCapped(segments: seq<Bytes>, failing: bool, max: int) returns (body: Bytes, more: bool)
    ensures body == Prefix(Concat(segments), max)
    ensures more == ExtraByte(segments, max)
  {
    hide Consumed, Concat;
    body := [];
    var rest := segments;
    while |body| < Cap(max) && rest != []
      invariant |body| <= Cap(max)
      invariant body + Concat(rest) == Concat(segments)
      invariant Consumed(rest, Cap(max) - |body|) == Consumed(segments, Cap(max))
      decreases |rest|, Cap(max) - |body|
    {
      var room := Cap(max) - |body|;
      if |rest[0]| <= room {
        TakeWhole(body, rest, room);
        body := body + rest[0];
        rest := rest[1..];
      } else {
        TakePart(body, rest, room);
        body, rest := body + rest[0][..room], [rest[0][room..]] + rest[1..];
      }
    }
    ConsumedAll(rest, Cap(max) - |body|);
    assert body == Concat(segments)[..|body|];
    if |body| < Cap(max) && failing {
      // the error cut the copy short; nothing more can come
      more := false;
    } else {
      more := rest != [] && rest[0] != [];
    }
  }

  /** The request-side reader and the response-side tee agree on the body always, and on the
      truncation flag exactly when the source does not answer the probing read with zero bytes
      while it still has bytes to give. */
  lemma ReadCappedAgreesWithTee(segments: seq<Bytes>, max: int)
    ensures ExtraByte(segments, max) == (|Concat(segments)| > Cap(max))
      <==> !(Consumed(segments, Cap(max)) != [] && Consumed(segments, Cap(max))[0] == [] && |Concat(segments)| > Cap(max))
    ensures [] !in segments ==> ExtraByte(segments, max) == (|Concat(segments)| > Cap(max))
  {
    var rest := Consumed(segments, Cap(max));
    ConsumedJoins(segments, Cap(max));
    assert rest != [] ==> |Concat(rest)| >= |rest[0]|;
    if [] !in segments { ConsumedHasNoEmpty(segments, Cap(max)); }
  }

  lemma {:induction false} ConsumedHasNoEmpty(segments: seq<Bytes>, n: nat)
    requires [] !in segments
    ensures [] !in Consumed(segments, n)
    decreases |segments|
  {
    if n > 0 && segments != [] && |segments[0]| <= n {
      ConsumedHasNoEmpty(segments[1..], n - |segments[0]|);
    }
  }

  // ------------------------------------------------------------------ the upload pipeline

  type Worker = nat

  /** Emitters and workers interleave: sending and counting are separate atomic steps. sent and
      taken log what went into and came out of the channel. */
  datatype Pipe = Pipe(
    capacity: nat, queue: seq<Record>, sent: seq<Record>, taken: seq<Record>,
    calls: nat, counting: nat, dropping: nat, uploading: set<Worker>,
    enqueued: nat, dropped: nat, uploaded: nat, failed: nat)

  datatype Action =
    | Send(r: Record)                // an emitter found room
    | HandOff(r: Record, w: Worker)  // an emitter met a waiting worker
    | Refuse                         // an emitter found the channel full
    | CountSent | CountDropped       // the emitter's counter increment
    | Take(w: Worker)                // a worker received
    | Finish(w: Worker, ok: bool)    // its upload ended

  predicate Enabled(p: Pipe, a: Action) {
    match a
    case Send(_) => |p.queue| < p.capacity
    case HandOff(_, w) => p.queue == [] && w !in p.uploading
    case Refuse => |p.queue| >= p.capacity
    case CountSent => p.counting > 0
    case CountDropped => p.dropping > 0
    case Take(w) => p.queue != [] && w !in p.uploading
    case Finish(w, _) => w in p.uploading
  }

  function Step(p: Pipe, a: Action): Pipe
    requires Enabled(p, a)
  {
    match a
    case Send(r) => p.(calls := p.calls + 1, queue := p.queue + [r], sent := p.sent + [r], counting := p.counting + 1)
    case HandOff(r, w) =>
      p.(calls := p.calls + 1, sent := p.sent + [r], taken := p.taken + [r], counting := p.counting + 1,
         uploading := p.uploading + {w})
    case Refuse => p.(calls := p.calls + 1, dropping := p.dropping + 1)
    case CountSent => p.(counting := p.counting - 1, enqueued := p.enqueued + 1)
    case CountDropped => p.(dropping := p.dropping - 1, dropped := p.dropped + 1)
    case Take(w) => p.(queue := p.queue[1..], taken := p.taken + [p.queue[0]], uploading := p.uploading + {w})
    case Finish(w, ok) =>
      if ok then p.(uploading := p.uploading - {w}, uploaded := p.uploaded + 1)
      else p.(uploading := p.uploading - {w}, failed := p.failed + 1)
  }

  /** Nothing is lost, duplicated or reordered in the channel, and the counters account for
      every record up to the increments still under way. */
  ghost predicate Accounted(p: Pipe) {
    && |p.queue| <= p.capacity
    && p.sent == p.taken + p.queue
    && |p.sent| == p.enqueued + p.counting
    && |p.taken| == p.uploaded + p.failed + |p.uploading|
    && p.calls == |p.sent| + p.dropped + p.dropping
  }

  lemma StepAccounts(p: Pipe, a: Action)
    requires Accounted(p) && Enabled(p, a)
    ensures Accounted(Step(p, a))
  {
    var p' := Step(p, a);
    match a
    case Send(r) => assert p'.taken + p'.queue == (p.taken + p.queue) + [r];
    case HandOff(r, w) => assert p.taken + p.queue == p.taken;
    case Take(w) => assert p'.taken + p'.queue == p.taken + p.queue;
    case _ =>
  }

  ghost predicate IsRun(run: seq<Pipe>, actions: seq<Action>) {
    && |run| == |actions| + 1
    && run[0] == Pipe(run[0].capacity, [], [], [], 0, 0, 0, {}, 0, 0, 0, 0)
    && forall i :: 0 <= i < |actions| ==> Enabled(run[i], actions[i]) && run[i + 1] == Step(run[i], actions[i])
  }

  lemma {:induction false} EveryRun(run: seq<Pipe>, actions: seq<Action>)
    requires IsRun(run, actions)
    ensures Accounted(run[|actions|])
    decreases |actions|
  {
    if actions != [] {
      var k := |actions| - 1;
      EveryRun(run[..k + 1], actions[..k]);
      StepAccounts(run[k], actions[k]);
    }
  }

  /** How many uploads have ended well, or badly, in the run. */
  function Finished(actions: seq<Action>, ok: bool): nat {
    if actions == [] then 0
    else
      var a := actions[|actions| - 1];
      Finished(actions[..|actions| - 1], ok) + if a.Finish? && a.ok == ok then 1 else 0
  }

  /** How many records an emitter has handed over, or had to give up. */
  function Emitted(actions: seq<Action>, accepted: bool): nat {
    if actions == [] then 0
    else
      var a := actions[|actions| - 1];
      Emitted(actions[..|actions| - 1], accepted) +
        if (if accepted then a.Send? || a.HandOff? else a.Refuse?) then 1 else 0
  }

  /** Each counter counts what its name says: uploads that ended well and badly, records that
      were accepted and refused, the last two up to increments under way. */
  lemma {:induction false} CountersAreTrue(run: seq<Pipe>, actions: seq<Action>)
    requires IsRun(run, actions)
    ensures var p := run[|actions|];
      && p.uploaded == Finished(actions, true) && p.failed == Finished(actions, false)
      && p.enqueued + p.counting == Emitted(actions, true) && p.dropped + p.dropping == Emitted(actions, false)
    decreases |actions|
  {
    if actions != [] {
      var k := |actions| - 1;
      CountersAreTrue(run[..k + 1], actions[..k]);
      assert run[k + 1] == Step(run[k], actions[k]);
    }
  }

  /** Between calls: enqueued plus dropped is the number of calls, and enqueued is uploaded plus
      failed plus pending, a record being pending while queued or being uploaded. */
  lemma CountersBalance(run: seq<Pipe>, actions: seq<Action>)
    requires IsRun(run, actions)
    ensures var p := run[|actions|];
      && p.enqueued + p.counting == p.uploaded + p.failed + |p.queue| + |p.uploading|
      && p.calls == p.enqueued + p.dropped + p.counting + p.dropping
  {
    EveryRun(run, actions);
  }
}
