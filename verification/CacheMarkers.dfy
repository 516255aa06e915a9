/** The prompt-cache marker budget: at most four cache_control markers over system blocks,
    message blocks and tools.

    A field that is absent or not an array is modelled as an empty list, which every pass
    treats the same way. Block objects are not shared between positions. */
module CacheMarkers {
  import opened Common

  /** An array element: an object with its type, text (empty when absent), marker and other
      fields, or something that is not an object. */
  datatype Block = Object(kind: string, text: Bytes, marker: Option<string>, rest: string) | NotObject(raw: string)

  datatype Content = Blocks(blocks: seq<Block>) | Text(text: string) | OtherContent(raw: string)

  datatype Message = Message(content: Content, rest: string) | NotMessage(raw: string)

  datatype Payload = Payload(system: seq<Block>, messages: seq<Message>, tools: seq<Block>)

  const LIMIT := 4
  const THRESHOLD := 18
  const TINY := 200

  predicate Marked(b: Block) {
    b.Object? && b.marker.Some?
  }

  function Mark(b: Block): Block
    requires b.Object?
  {
    b.(marker := Some("ephemeral"))
  }

  function Unmark(b: Block): Block
    requires b.Object?
  {
    b.(marker := None)
  }

  // ------------------------------------------------------------------ counting

  datatype Selection = All | Short | Long

  predicate Selected(b: Block, sel: Selection) {
    Marked(b) && (sel == All || (sel == Short <==> |b.text| < TINY))
  }

  function Count(bs: seq<Block>, sel: Selection): nat {
    if bs == [] then 0 else Count(bs[..|bs| - 1], sel) + if Selected(bs[|bs| - 1], sel) then 1 else 0
  }

  function BlocksOf(m: Message): seq<Block> {
    if m.Message? && m.content.Blocks? then m.content.blocks else []
  }

  function CountMessages(ms: seq<Message>): nat {
    if ms == [] then 0 else CountMessages(ms[..|ms| - 1]) + Count(BlocksOf(ms[|ms| - 1]), All)
  }

  function Total(p: Payload): nat {
    Count(p.system, All) + CountMessages(p.messages) + Count(p.tools, All)
  }

  lemma CountNone(bs: seq<Block>, sel: Selection)
    requires bs == []
    ensures Count(bs, sel) == 0
  {
  }

  lemma CountPush(bs: seq<Block>, i: nat, sel: Selection)
    requires i < |bs|
    ensures Count(bs[..i + 1], sel) == Count(bs[..i], sel) + if Selected(bs[i], sel) then 1 else 0
  {
    assert bs[..i + 1][..i] == bs[..i];
  }

  lemma {:induction false} CountPrefix(bs: seq<Block>, i: nat, j: nat, sel: Selection)
    requires i <= j <= |bs|
    ensures Count(bs[..i], sel) <= Count(bs[..j], sel)
    ensures i < j && Selected(bs[i], sel) ==> Count(bs[..i], sel) < Count(bs[..j], sel)
    decreases j
  {
    if i < j {
      CountPrefix(bs, i, j - 1, sel);
      CountPush(bs, j - 1, sel);
    }
  }

  lemma {:induction false} CountSplits(bs: seq<Block>)
    ensures Count(bs, All) == Count(bs, Short) + Count(bs, Long)
  {
    if bs != [] { CountSplits(bs[..|bs| - 1]); }
  }

  /** Counting is taking the size of the set of selected positions. */
  lemma {:induction false} CountIsSize(bs: seq<Block>, sel: Selection)
    ensures Count(bs, sel) == |set i | 0 <= i < |bs| && Selected(bs[i], sel)|
  {
    hide Selected;
    var all := set i | 0 <= i < |bs| && Selected(bs[i], sel);
    if bs == [] {
      assert all == {};
    } else {
      var init, k := bs[..|bs| - 1], |bs| - 1;
      CountIsSize(init, sel);
      var before := set i | 0 <= i < |init| && Selected(init[i], sel);
      assert all == before + if Selected(bs[k], sel) then {k} else {};
    }
  }

  lemma CountNoMessages(ms: seq<Message>)
    requires ms == []
    ensures CountMessages(ms) == 0
  {
  }

  lemma CountMessagesLast(ms: seq<Message>)
    requires ms != []
    ensures CountMessages(ms) == CountMessages(ms[..|ms| - 1]) + Count(BlocksOf(ms[|ms| - 1]), All)
  {
  }

  lemma {:induction false} CountMessagesPrefix(ms: seq<Message>, i: nat, j: nat)
    requires i <= j <= |ms|
    ensures CountMessages(ms[..i]) <= CountMessages(ms[..j])
    ensures i < j ==> CountMessages(ms[..i]) + Count(BlocksOf(ms[i]), All) <= CountMessages(ms[..j])
    decreases j
  {
    if i < j {
      CountMessagesPrefix(ms, i, j - 1);
      assert ms[..j][..j - 1] == ms[..j - 1];
    }
  }

  // ------------------------------------------------------------------ priority order

  datatype Place = InSystem(i: nat) | InMessage(m: nat, i: nat) | InTools(i: nat)

  predicate Exists(p: Payload, at: Place) {
    match at
    case InSystem(i) => i < |p.system|
    case InMessage(m, i) => m < |p.messages| && i < |BlocksOf(p.messages[m])|
    case InTools(i) => i < |p.tools|
  }

  function BlockAt(p: Payload, at: Place): Block
    requires Exists(p, at)
  {
    match at
    case InSystem(i) => p.system[i]
    case InMessage(m, i) => BlocksOf(p.messages[m])[i]
    case InTools(i) => p.tools[i]
  }

  /** The stripping order: short system blocks, then messages oldest first, then the remaining
      system blocks front to back, then tools front to back. */
  function Group(p: Payload, at: Place): nat
    requires Exists(p, at)
  {
    match at
    case InSystem(i) => if p.system[i].Object? && |p.system[i].text| < 200 then 0 else 2
    case InMessage(_, _) => 1
    case InTools(_) => 3
  }

  predicate StripsBefore(p: Payload, a: Place, b: Place)
    requires Exists(p, a) && Exists(p, b)
  {
    || Group(p, a) < Group(p, b)
    || (Group(p, a) == Group(p, b) &&
        match (a, b)
        case (InMessage(m, i), InMessage(n, j)) => m < n || (m == n && i < j)
        case (InSystem(i), InSystem(j)) => i < j
        case (InTools(i), InTools(j)) => i < j
        case _ => false)
  }

  /** How many markers strip before the one at this place. */
  function Rank(p: Payload, at: Place): nat
    requires Exists(p, at)
  {
    match at
    case InSystem(i) =>
      if Selected(p.system[i], Short) then Count(p.system[..i], Short)
      else Count(p.system, Short) + CountMessages(p.messages) + Count(p.system[..i], Long)
    case InMessage(m, i) =>
      Count(p.system, Short) + CountMessages(p.messages[..m]) + Count(BlocksOf(p.messages[m])[..i], All)
    case InTools(i) => Count(p.system, All) + CountMessages(p.messages) + Count(p.tools[..i], All)
  }

  /** Ranks of markers follow the order strictly and lie below the total, so "rank below k"
      selects exactly the first k markers of the order. */
  lemma RankFollowsOrder(p: Payload, a: Place, b: Place)
    requires Exists(p, a) && Exists(p, b) && Marked(BlockAt(p, a)) && Marked(BlockAt(p, b)) && StripsBefore(p, a, b)
    ensures Rank(p, a) < Rank(p, b) < Total(p)
  {
    RankRange(p, a);
    RankRange(p, b);
    CountSplits(p.system);
    if Group(p, a) == Group(p, b) { RankWithinGroup(p, a, b); }
    hide Rank, Count, CountMessages;
  }

  lemma RankWithinGroup(p: Payload, a: Place, b: Place)
    requires Exists(p, a) && Exists(p, b) && Marked(BlockAt(p, a)) && Marked(BlockAt(p, b))
    requires StripsBefore(p, a, b) && Group(p, a) == Group(p, b)
    ensures Rank(p, a) < Rank(p, b)
  {
    hide Count, CountMessages;
    match (a, b)
    case (InMessage(m, i), InMessage(n, j)) =>
      var bs := BlocksOf(p.messages[m]);
      if m == n {
        CountPrefix(bs, i, j, All);
      } else {
        CountPrefix(bs, i, |bs|, All);
        assert bs[..|bs|] == bs;
        CountMessagesPrefix(p.messages, m, n);
      }
    case (InSystem(i), InSystem(j)) =>
      CountPrefix(p.system, i, j, Short);
      CountPrefix(p.system, i, j, Long);
    case (InTools(i), InTools(j)) => CountPrefix(p.tools, i, j, All);
    case _ =>
  }

  /** The ranks that each group occupies. */
  lemma RankRange(p: Payload, at: Place)
    requires Exists(p, at) && Marked(BlockAt(p, at))
    ensures Group(p, at) == 0 ==> Rank(p, at) < Count(p.system, Short)
    ensures Group(p, at) == 1 ==>
      Count(p.system, Short) <= Rank(p, at) < Count(p.system, Short) + CountMessages(p.messages)
    ensures Group(p, at) == 2 ==>
      Count(p.system, Short) + CountMessages(p.messages) <= Rank(p, at) < Count(p.system, All) + CountMessages(p.messages)
    ensures Group(p, at) == 3 ==>
      Count(p.system, All) + CountMessages(p.messages) <= Rank(p, at) < Total(p)
  {
    hide Count, CountMessages;
    CountSplits(p.system);
    match at
    case InSystem(i) =>
      CountPrefix(p.system, i, |p.system|, Short);
      CountPrefix(p.system, i, |p.system|, Long);
      assert p.system[..|p.system|] == p.system;
    case InMessage(m, i) =>
      var bs := BlocksOf(p.messages[m]);
      CountPrefix(bs, i, |bs|, All);
      assert bs[..|bs|] == bs;
      CountMessagesPrefix(p.messages, m, |p.messages|);
      assert p.messages[..|p.messages|] == p.messages;
    case InTools(i) =>
      CountPrefix(p.tools, i, |p.tools|, All);
      assert p.tools[..|p.tools|] == p.tools;
  }

  // ------------------------------------------------------------------ clamp

  function StripIf(b: Block, strip: bool): Block {
    if Marked(b) && strip then Unmark(b) else b
  }

  function WithBlocks(m: Message, bs: seq<Block>): Message {
    if m.Message? && m.content.Blocks? then m.(content := Blocks(bs)) else m
  }

  function StripBlocks(p: Payload, m: nat, excess: int): seq<Block>
    requires m < |p.messages|
  {
    var bs := BlocksOf(p.messages[m]);
    seq(|bs|, i requires 0 <= i < |bs| => StripIf(bs[i], Rank(p, InMessage(m, i)) < excess))
  }

  /** The payload with exactly the first `excess` markers of the order removed. */
  function StripFirst(p: Payload, excess: int): Payload {
    Payload(
      seq(|p.system|, i requires 0 <= i < |p.system| => StripIf(p.system[i], Rank(p, InSystem(i)) < excess)),
      seq(|p.messages|, m requires 0 <= m < |p.messages| => WithBlocks(p.messages[m], StripBlocks(p, m, excess))),
      seq(|p.tools|, i requires 0 <= i < |p.tools| => StripIf(p.tools[i], Rank(p, InTools(i)) < excess)))
  }

  function Clamped(p: Payload): Payload {
    if Total(p) <= LIMIT then p else StripFirst(p, Total(p) - LIMIT)
  }

  /** One pass: strips selected markers from the front until `excess` have gone, `start`
      having gone before. */
  function Pass(bs: seq<Block>, sel: Selection, start: nat, excess: int): (r: seq<Block>)
    ensures |r| == |bs|
  {
    seq(|bs|, i requires 0 <= i < |bs| =>
      StripIf(bs[i], Selected(bs[i], sel) && start + Count(bs[..i], sel) < excess))
  }

  function Min(a: int, b: int): int {
    if a < b then a else b
  }

  lemma PassAt(bs: seq<Block>, sel: Selection, start: nat, excess: int, i: nat)
    requires i < |bs|
    ensures Pass(bs, sel, start, excess)[i] ==
      StripIf(bs[i], Selected(bs[i], sel) && start + Count(bs[..i], sel) < excess)
  {
    hide Count;
  }

  lemma PassPrefix(bs: seq<Block>, sel: Selection, start: nat, excess: int, k: nat)
    requires k <= |bs|
    ensures Pass(bs, sel, start, excess)[..k] == Pass(bs[..k], sel, start, excess)
  {
    forall i | 0 <= i < k ensures bs[..k][..i] == bs[..i] {
    }
  }

  /** A pass removes as many markers as it may and as there are. */
  lemma {:induction false} PassCount(bs: seq<Block>, sel: Selection, start: nat, excess: int)
    requires start <= excess
    ensures Count(Pass(bs, sel, start, excess), All) + Min(excess, start + Count(bs, sel)) == Count(bs, All) + start
  {
    if bs != [] {
      var k := |bs| - 1;
      PassCount(bs[..k], sel, start, excess);
      PassPrefix(bs, sel, start, excess, k);
      assert Pass(bs, sel, start, excess)[k] ==
        StripIf(bs[k], Selected(bs[k], sel) && start + Count(bs[..k], sel) < excess);
    }
  }

  /** When the first pass leaves excess, it has removed every short marker, so the third pass
      sees exactly the long ones. */
  lemma {:induction false} LongRemain(sys: seq<Block>, excess: int, i: nat)
    requires i <= |sys| && Count(sys, Short) < excess
    ensures Count(Pass(sys, Short, 0, excess)[..i], All) == Count(sys[..i], Long)
  {
    if i > 0 {
      LongRemain(sys, excess, i - 1);
      var r := Pass(sys, Short, 0, excess);
      CountPush(r, i - 1, All);
      CountPush(sys, i - 1, Long);
      CountPrefix(sys, i - 1, |sys|, Short);
      assert sys[..|sys|] == sys;
    }
  }

  function MessagesPass(ms: seq<Message>, start: nat, excess: int): (r: seq<Message>)
    ensures |r| == |ms|
  {
    seq(|ms|, m requires 0 <= m < |ms| =>
      WithBlocks(ms[m], Pass(BlocksOf(ms[m]), All, start + CountMessages(ms[..m]), excess)))
  }

  /** The state after the four passes, each running only while something is left to strip. */
  function FourPasses(p: Payload, excess: nat): Payload {
    var s, m := Count(p.system, Short), CountMessages(p.messages);
    var first := Pass(p.system, Short, 0, excess);
    var messages := if s < excess then MessagesPass(p.messages, s, excess) else p.messages;
    var system := if s + m < excess then Pass(first, All, s + m, excess) else first;
    var before := Count(p.system, All) + m;
    Payload(system, messages, if before < excess then Pass(p.tools, All, before, excess) else p.tools)
  }

  lemma NothingToStrip(bs: seq<Block>, start: nat, excess: int)
    requires start >= excess
    ensures Pass(bs, All, start, excess) == bs
  {
  }

  lemma PassesStripSystem(p: Payload, excess: nat)
    ensures FourPasses(p, excess).system == StripFirst(p, excess).system
  {
    var sys := p.system;
    var s, m := Count(sys, Short), CountMessages(p.messages);
    var first := Pass(sys, Short, 0, excess);
    forall i | 0 <= i < |sys| ensures FourPasses(p, excess).system[i] == StripFirst(p, excess).system[i] {
      CountPrefix(sys, i, |sys|, Short);
      assert sys[..|sys|] == sys;
      if s + m < excess {
        LongRemain(sys, excess, i);
        assert FourPasses(p, excess).system[i] ==
          StripIf(first[i], Selected(first[i], All) && s + m + Count(first[..i], All) < excess);
      }
    }
  }

  lemma PassesStripMessage(p: Payload, excess: nat, m: nat)
    requires m < |p.messages|
    ensures StripBlocks(p, m, excess) ==
      Pass(BlocksOf(p.messages[m]), All, Count(p.system, Short) + CountMessages(p.messages[..m]), excess)
  {
    hide Count, CountMessages;
  }

  lemma PassesStripMessages(p: Payload, excess: nat)
    ensures FourPasses(p, excess).messages == StripFirst(p, excess).messages
  {
    hide Count, CountMessages, StripBlocks, Pass;
    var s := Count(p.system, Short);
    forall m | 0 <= m < |p.messages|
      ensures FourPasses(p, excess).messages[m] == StripFirst(p, excess).messages[m]
    {
      PassesStripMessage(p, excess, m);
      if s >= excess {
        NothingToStrip(BlocksOf(p.messages[m]), s + CountMessages(p.messages[..m]), excess);
      }
    }
  }

  lemma PassesStripTools(p: Payload, excess: nat)
    ensures FourPasses(p, excess).tools == StripFirst(p, excess).tools
  {
    var before := Count(p.system, All) + CountMessages(p.messages);
    assert StripFirst(p, excess).tools == Pass(p.tools, All, before, excess);
    if before >= excess { NothingToStrip(p.tools, before, excess); }
  }

  lemma MessagesPassAt(ms: seq<Message>, start: nat, excess: int, m: nat)
    requires m < |ms|
    ensures MessagesPass(ms, start, excess)[m] ==
      WithBlocks(ms[m], Pass(BlocksOf(ms[m]), All, start + CountMessages(ms[..m]), excess))
  {
    hide Pass, CountMessages, BlocksOf, WithBlocks;
  }

  lemma MessagesPassPrefix(ms: seq<Message>, start: nat, excess: int, k: nat)
    requires k <= |ms|
    ensures MessagesPass(ms, start, excess)[..k] == MessagesPass(ms[..k], start, excess)
  {
    hide MessagesPass, Pass, CountMessages, BlocksOf, WithBlocks;
    forall m | 0 <= m < k
      ensures MessagesPass(ms, start, excess)[..k][m] == MessagesPass(ms[..k], start, excess)[m]
    {
      MessagesPassAt(ms, start, excess, m);
      MessagesPassAt(ms[..k], start, excess, m);
      assert ms[..k][..m] == ms[..m];
    }
  }

  lemma MessagePassCount(m: Message, from: nat, excess: int)
    ensures Count(BlocksOf(WithBlocks(m, Pass(BlocksOf(m), All, from, excess))), All)
      + Min(excess, from + Count(BlocksOf(m), All)) == Count(BlocksOf(m), All) + Min(excess, from)
  {
    hide Pass, Count;
    if from <= excess {
      PassCount(BlocksOf(m), All, from, excess);
    } else {
      NothingToStrip(BlocksOf(m), from, excess);
    }
  }

  lemma {:induction false} MessagesPassCount(ms: seq<Message>, start: nat, excess: int)
    requires start <= excess
    ensures CountMessages(MessagesPass(ms, start, excess)) + Min(excess, start + CountMessages(ms))
      == CountMessages(ms) + start
  {
    hide MessagesPass, Pass, Count, CountMessages, BlocksOf, WithBlocks;
    if ms == [] {
      CountNoMessages(ms);
      CountNoMessages(MessagesPass(ms, start, excess));
    } else {
      var k := |ms| - 1;
      MessagesPassCount(ms[..k], start, excess);
      MessagesPassPrefix(ms, start, excess, k);
      MessagesPassAt(ms, start, excess, k);
      MessagePassCount(ms[k], start + CountMessages(ms[..k]), excess);
      CountMessagesLast(ms);
      CountMessagesLast(MessagesPass(ms, start, excess));
    }
  }

  /** What the first and third passes together take from the system blocks. */
  lemma SystemPassesCount(sys: seq<Block>, m: nat, excess: nat)
    ensures var s := Count(sys, Short);
      var first := Pass(sys, Short, 0, excess);
      && Count(first, All) == Count(sys, All) - Min(excess, s)
      && (s + m < excess ==>
            Count(Pass(first, All, s + m, excess), All) == s + m + Count(sys, Long) - Min(excess, m + Count(sys, All)))
  {
    hide Pass, Count;
    CountSplits(sys);
    var first := Pass(sys, Short, 0, excess);
    PassCount(sys, Short, 0, excess);
    if Count(sys, Short) + m < excess {
      PassCount(first, All, Count(sys, Short) + m, excess);
      LongRemain(sys, excess, |sys|);
      assert first[..|first|] == first && sys[..|sys|] == sys;
    }
  }

  /** The four passes remove exactly `excess` markers when there are that many. */
  lemma FourPassesCount(p: Payload, excess: nat)
    requires excess <= Total(p)
    ensures Total(FourPasses(p, excess)) == Total(p) - excess
  {
    hide Pass, Count, CountMessages, MessagesPass;
    var s, m := Count(p.system, Short), CountMessages(p.messages);
    CountSplits(p.system);
    SystemPassesCount(p.system, m, excess);
    if s < excess { MessagesPassCount(p.messages, s, excess); }
    if Count(p.system, All) + m < excess { PassCount(p.tools, All, Count(p.system, All) + m, excess); }
  }

  lemma PassesStripFirst(p: Payload, excess: nat)
    ensures FourPasses(p, excess) == StripFirst(p, excess)
  {
    PassesStripSystem(p, excess);
    PassesStripMessages(p, excess);
    PassesStripTools(p, excess);
    hide FourPasses, StripFirst;
  }

  /** Clamping leaves min(4, total) markers. */
  lemma ClampedTotal(p: Payload)
    ensures Total(Clamped(p)) == Min(LIMIT, Total(p))
  {
    hide FourPasses, StripFirst, Total;
    if Total(p) > LIMIT {
      PassesStripFirst(p, Total(p) - LIMIT);
      FourPassesCount(p, Total(p) - LIMIT);
    }
  }

  // ------------------------------------------------------------------ ensure

  /** Marks the last element if it is an unmarked object and the budget allows. */
  function LastMarked(bs: seq<Block>, total: nat): seq<Block> {
    if bs != [] && total < LIMIT && bs[|bs| - 1].Object? && !Marked(bs[|bs| - 1])
    then bs[|bs| - 1 := Mark(bs[|bs| - 1])] else bs
  }

  lemma LastMarkedCount(bs: seq<Block>, total: nat)
    ensures Count(LastMarked(bs, total), All) ==
      Count(bs, All) + if LastMarked(bs, total) != bs then 1 else 0
    ensures LastMarked(bs, total) != bs ==> total < LIMIT
  {
    if bs != [] {
      var r := LastMarked(bs, total);
      assert r[..|r| - 1] == bs[..|bs| - 1];
    }
  }

  /** Below the limit, a last element that is an object ends up marked; nothing else changes. */
  lemma LastIsMarked(bs: seq<Block>, total: nat)
    ensures |LastMarked(bs, total)| == |bs|
    ensures bs != [] && bs[|bs| - 1].Object? && total < 4 ==> Marked(LastMarked(bs, total)[|bs| - 1])
    ensures forall i :: 0 <= i < |bs| - 1 ==> LastMarked(bs, total)[i] == bs[i]
  {
  }

  function ToolsEnsured(p: Payload): Payload {
    p.(tools := LastMarked(p.tools, Total(p)))
  }

  function SystemEnsured(p: Payload): Payload {
    p.(system := LastMarked(p.system, Total(p)))
  }

  // ------------------------------------------------------------------ inject

  /** The result of walking a list from its end: the new list, the number of blocks since the
      last marker, and the markers still allowed. */
  datatype Walk<T> = Walk(out: seq<T>, since: int, remaining: int)

  function WalkBlocks(bs: seq<Block>, since: int, remaining: int): (w: Walk<Block>)
    ensures |w.out| == |bs|
  {
    if bs == [] || remaining <= 0 then Walk(bs, since, remaining)
    else
      var b, init := bs[|bs| - 1], bs[..|bs| - 1];
      var (b', since', remaining') := WalkBlock(b, since, remaining);
      var w := WalkBlocks(init, since', remaining');
      w.(out := w.out + [b'])
  }

  function WalkBlock(b: Block, since: int, remaining: int): (Block, int, int) {
    if !b.Object? then (b, since, remaining)
    else if Marked(b) then (b, 0, remaining)
    else if since + 1 >= THRESHOLD && b.kind == "text" then (Mark(b), 0, remaining - 1)
    else (b, since + 1, remaining)
  }

  function WalkMessages(ms: seq<Message>, since: int, remaining: int): (w: Walk<Message>)
    ensures |w.out| == |ms|
  {
    if ms == [] || remaining <= 0 then Walk(ms, since, remaining)
    else
      var m, init := ms[|ms| - 1], ms[..|ms| - 1];
      var (m', since', remaining') := WalkMessage(m, since, remaining);
      var w := WalkMessages(init, since', remaining');
      w.(out := w.out + [m'])
  }

  function WalkMessage(m: Message, since: int, remaining: int): (Message, int, int) {
    if !m.Message? then (m, since, remaining)
    else match m.content
      case Blocks(bs) =>
        var w := WalkBlocks(bs, since, remaining);
        (WithBlocks(m, w.out), w.since, w.remaining)
      case Text(_) => (m, since + 1, remaining)
      case OtherContent(_) => (m, since, remaining)
  }

  /** Unmarked system objects since the last marked one. */
  function SinceInSystem(sys: seq<Block>): nat {
    if sys == [] then 0
    else
      var b, before := sys[|sys| - 1], SinceInSystem(sys[..|sys| - 1]);
      if !b.Object? then before else if Marked(b) then 0 else before + 1
  }

  function Injected(p: Payload): Payload {
    if |p.messages| < THRESHOLD || Total(p) >= LIMIT then p
    else p.(messages := WalkMessages(p.messages, SinceInSystem(p.system), LIMIT - Total(p)).out)
  }

  /** Every marker added is paid from the budget, and only unmarked text objects change. */
  lemma {:induction false} WalkBlocksSpends(bs: seq<Block>, since: int, remaining: int)
    requires remaining >= 0
    ensures 0 <= WalkBlocks(bs, since, remaining).remaining <= remaining
    ensures Count(WalkBlocks(bs, since, remaining).out, All) ==
      Count(bs, All) + remaining - WalkBlocks(bs, since, remaining).remaining
    ensures OnlyAdds(bs, WalkBlocks(bs, since, remaining).out)
    decreases |bs|
  {
    hide WalkBlocks, Count, OnlyAdds;
    if bs == [] || remaining <= 0 {
      WalkBlocksEnd(bs, since, remaining);
      AddsNothing(bs);
    } else {
      var b, init := bs[|bs| - 1], bs[..|bs| - 1];
      WalkBlocksStep(bs, since, remaining);
      var (b', since', remaining') := WalkBlock(b, since, remaining);
      WalkBlocksSpends(init, since', remaining');
      var inner := WalkBlocks(init, since', remaining').out;
      assert bs == init + [b];
      AddsPush(init, inner, b, b');
    }
  }

  lemma AddsNothing(bs: seq<Block>)
    ensures OnlyAdds(bs, bs)
  {
  }

  lemma AddsPush(before: seq<Block>, after: seq<Block>, b: Block, b': Block)
    requires OnlyAdds(before, after)
    requires b' == b || (b.Object? && b.kind == "text" && !Marked(b) && b' == Mark(b))
    ensures OnlyAdds(before + [b], after + [b'])
    ensures Count(before + [b], All) == Count(before, All) + if Marked(b) then 1 else 0
    ensures Count(after + [b'], All) == Count(after, All) + if Marked(b') then 1 else 0
  {
    assert (before + [b])[..|before|] == before && (after + [b'])[..|after|] == after;
  }

  /** after is before with markers added to some unmarked text objects, and nothing else. */
  ghost predicate OnlyAdds(before: seq<Block>, after: seq<Block>) {
    |after| == |before| && forall i :: 0 <= i < |before| ==>
      || after[i] == before[i]
      || (before[i].Object? && before[i].kind == "text" && !Marked(before[i]) && after[i] == Mark(before[i]))
  }

  ghost predicate OnlyAddsToMessages(before: seq<Message>, after: seq<Message>) {
    |after| == |before| && forall i :: 0 <= i < |before| ==>
      after[i] == WithBlocks(before[i], BlocksOf(after[i])) && OnlyAdds(BlocksOf(before[i]), BlocksOf(after[i]))
  }

  lemma {:induction false} WalkMessagesSpends(ms: seq<Message>, since: int, remaining: int)
    requires remaining >= 0
    ensures 0 <= WalkMessages(ms, since, remaining).remaining <= remaining
    ensures CountMessages(WalkMessages(ms, since, remaining).out) ==
      CountMessages(ms) + remaining - WalkMessages(ms, since, remaining).remaining
    ensures OnlyAddsToMessages(ms, WalkMessages(ms, since, remaining).out)
    decreases |ms|
  {
    hide WalkMessage, WalkMessages, Count, CountMessages, BlocksOf, OnlyAdds, OnlyAddsToMessages;
    if ms == [] || remaining <= 0 {
      WalkMessagesEnd(ms, since, remaining);
      WalkNothing(ms);
    } else {
      var m, init := ms[|ms| - 1], ms[..|ms| - 1];
      WalkMessagesStep(ms, since, remaining);
      WalkMessageSpends(m, since, remaining);
      var (m', since', remaining') := WalkMessage(m, since, remaining);
      WalkMessagesSpends(init, since', remaining');
      var inner := WalkMessages(init, since', remaining').out;
      assert ms == init + [m];
      OnlyAddsPush(init, inner, m, m');
      CountMessagesLast(ms);
      CountMessagesLast(inner + [m']);
      assert (inner + [m'])[..|inner|] == inner;
    }
  }

  lemma OnlyAddsPush(before: seq<Message>, after: seq<Message>, m: Message, m': Message)
    requires OnlyAddsToMessages(before, after)
    requires m' == WithBlocks(m, BlocksOf(m')) && OnlyAdds(BlocksOf(m), BlocksOf(m'))
    ensures OnlyAddsToMessages(before + [m], after + [m'])
  {
    hide OnlyAdds, BlocksOf, WithBlocks;
  }

  lemma WalkNothing(ms: seq<Message>)
    ensures OnlyAddsToMessages(ms, ms)
  {
  }

  lemma WalkMessageSpends(m: Message, since: int, remaining: int)
    requires remaining >= 0
    ensures var (m', since', remaining') := WalkMessage(m, since, remaining);
      && 0 <= remaining' <= remaining
      && Count(BlocksOf(m'), All) == Count(BlocksOf(m), All) + remaining - remaining'
      && m' == WithBlocks(m, BlocksOf(m')) && OnlyAdds(BlocksOf(m), BlocksOf(m'))
  {
    WalkBlocksSpends(BlocksOf(m), since, remaining);
  }

  lemma InjectedTotal(p: Payload)
    ensures Total(p) <= LIMIT ==> Total(Injected(p)) <= LIMIT
    ensures |p.messages| >= THRESHOLD && Total(p) < LIMIT ==>
      Total(Injected(p)) == LIMIT - WalkMessages(p.messages, SinceInSystem(p.system), LIMIT - Total(p)).remaining
  {
    if |p.messages| >= THRESHOLD && Total(p) < LIMIT {
      WalkMessagesSpends(p.messages, SinceInSystem(p.system), LIMIT - Total(p));
    }
  }

  // ------------------------------------------------------------------ the lookback window

  function Objects(bs: seq<Block>): seq<Block> {
    if bs == [] then []
    else Objects(bs[..|bs| - 1]) + if bs[|bs| - 1].Object? then [bs[|bs| - 1]] else []
  }

  /** All block objects of all messages, oldest first. */
  function Flat(ms: seq<Message>): seq<Block> {
    if ms == [] then [] else Flat(ms[..|ms| - 1]) + Objects(BlocksOf(ms[|ms| - 1]))
  }

  /** Length of the leading run of unmarked blocks. */
  function Lead(bs: seq<Block>): nat {
    if bs == [] || Marked(bs[0]) then 0 else 1 + Lead(bs[1..])
  }

  /** Every text block that starts 18 consecutive blocks has a marker among them. */
  ghost predicate Covered(bs: seq<Block>) {
    forall i :: 0 <= i <= |bs| - THRESHOLD && bs[i].Object? && bs[i].kind == "text" ==> Lead(bs[i..]) < THRESHOLD
  }

  lemma {:induction false} LeadFindsMarker(bs: seq<Block>)
    ensures Lead(bs) <= |bs|
    ensures Lead(bs) < |bs| ==> Marked(bs[Lead(bs)])
    ensures forall i :: 0 <= i < Lead(bs) ==> !Marked(bs[i])
  {
    if bs != [] && !Marked(bs[0]) {
      LeadFindsMarker(bs[1..]);
      forall i | 0 <= i < Lead(bs) ensures !Marked(bs[i]) {
        if i > 0 { assert bs[i] == bs[1..][i - 1]; }
      }
    }
  }

  lemma CoveredCons(b: Block, tail: seq<Block>)
    requires Covered(tail)
    requires Marked(b) || Lead(tail) + 1 < THRESHOLD || !(b.Object? && b.kind == "text")
    ensures Covered([b] + tail)
    ensures Lead([b] + tail) == if Marked(b) then 0 else Lead(tail) + 1
  {
    var all := [b] + tail;
    assert all[1..] == tail;
    forall i | 0 <= i <= |all| - THRESHOLD && all[i].Object? && all[i].kind == "text"
      ensures Lead(all[i..]) < THRESHOLD
    {
      if i == 0 {
        assert all[0..] == all;
      } else {
        assert all[i..] == tail[i - 1..] && all[i] == tail[i - 1];
      }
    }
  }

  /** The counter is at least the unmarked run at the front, and everything seen is covered. */
  ghost predicate Good(since: int, seen: seq<Block>) {
    Covered(seen) && since >= Lead(seen)
  }

  lemma WalkBlockCovers(b: Block, since: int, remaining: int, seen: seq<Block>)
    requires Good(since, seen)
    ensures var (b', since', remaining') := WalkBlock(b, since, remaining);
      Good(since', if b'.Object? then [b'] + seen else seen)
  {
    var (b', since', remaining') := WalkBlock(b, since, remaining);
    if b.Object? { CoveredCons(b', seen); }
    hide Covered, Lead;
  }

  lemma ObjectsPush(bs: seq<Block>, b: Block)
    ensures Objects(bs + [b]) == Objects(bs) + if b.Object? then [b] else []
  {
    assert (bs + [b])[..|bs|] == bs;
  }

  lemma WalkBlocksStep(bs: seq<Block>, since: int, remaining: int)
    requires remaining > 0
    ensures bs == [] ==> WalkBlocks(bs, since, remaining) == Walk(bs, since, remaining)
    ensures bs != [] ==>
      var (b', since', remaining') := WalkBlock(bs[|bs| - 1], since, remaining);
      var inner := WalkBlocks(bs[..|bs| - 1], since', remaining');
      WalkBlocks(bs, since, remaining) == inner.(out := inner.out + [b'])
  {
    hide WalkBlock;
  }

  lemma WalkBlocksNeedsBudget(bs: seq<Block>, since: int, remaining: int)
    ensures WalkBlocks(bs, since, remaining).remaining > 0 ==> remaining > 0
  {
    hide WalkBlock;
  }

  /** While budget remains, walking keeps every block seen so far covered. */
  lemma {:induction false} WalkBlocksCovers(bs: seq<Block>, since: int, remaining: int, seen: seq<Block>)
    requires Good(since, seen) && remaining > 0
    requires WalkBlocks(bs, since, remaining).remaining > 0
    ensures Good(WalkBlocks(bs, since, remaining).since, Objects(WalkBlocks(bs, since, remaining).out) + seen)
    decreases |bs|
  {
    hide Good, WalkBlock, WalkBlocks, Objects;
    WalkBlocksStep(bs, since, remaining);
    if bs == [] {
      ObjectsOfNone(bs);
      assert Objects(bs) + seen == seen;
    } else {
      var (b', since', remaining') := WalkBlock(bs[|bs| - 1], since, remaining);
      var inner := WalkBlocks(bs[..|bs| - 1], since', remaining');
      WalkBlocksNeedsBudget(bs[..|bs| - 1], since', remaining');
      WalkBlockCovers(bs[|bs| - 1], since, remaining, seen);
      var seen' := if b'.Object? then [b'] + seen else seen;
      WalkBlocksCovers(bs[..|bs| - 1], since', remaining', seen');
      ObjectsPush(inner.out, b');
      assert Objects(inner.out + [b']) + seen == Objects(inner.out) + seen';
    }
  }

  lemma ObjectsOfNone(bs: seq<Block>)
    requires bs == []
    ensures Objects(bs) == []
  {
  }

  lemma WalkMessageCovers(m: Message, since: int, remaining: int, seen: seq<Block>)
    requires Good(since, seen) && remaining > 0 && WalkMessage(m, since, remaining).2 > 0
    ensures var (m', since', remaining') := WalkMessage(m, since, remaining);
      Good(since', Objects(BlocksOf(m')) + seen)
  {
    if m.Message? && m.content.Blocks? {
      WalkBlocksCovers(m.content.blocks, since, remaining, seen);
    } else {
      assert Objects(BlocksOf(m)) + seen == seen;
    }
    hide WalkBlocks, Covered, Lead, Objects;
  }

  lemma WalkMessagesStep(ms: seq<Message>, since: int, remaining: int)
    requires remaining > 0
    ensures ms == [] ==> WalkMessages(ms, since, remaining) == Walk(ms, since, remaining)
    ensures ms != [] ==>
      var (m', since', remaining') := WalkMessage(ms[|ms| - 1], since, remaining);
      var inner := WalkMessages(ms[..|ms| - 1], since', remaining');
      WalkMessages(ms, since, remaining) == inner.(out := inner.out + [m'])
  {
    hide WalkMessage;
  }

  lemma WalkMessagesNeedsBudget(ms: seq<Message>, since: int, remaining: int)
    ensures WalkMessages(ms, since, remaining).remaining > 0 ==> remaining > 0
  {
    hide WalkMessage;
  }

  lemma FlatPush(ms: seq<Message>, m: Message)
    ensures Flat(ms + [m]) == Flat(ms) + Objects(BlocksOf(m))
  {
    assert (ms + [m])[..|ms|] == ms;
  }

  lemma {:induction false} WalkMessagesCovers(ms: seq<Message>, since: int, remaining: int, seen: seq<Block>)
    requires Good(since, seen) && remaining > 0
    requires WalkMessages(ms, since, remaining).remaining > 0
    ensures Covered(Flat(WalkMessages(ms, since, remaining).out) + seen)
    decreases |ms|
  {
    hide Lead, Covered, WalkMessage, WalkMessages, Flat, Objects;
    WalkMessagesStep(ms, since, remaining);
    if ms == [] {
      FlatOfNone(ms);
      assert Flat(ms) + seen == seen;
    } else {
      var (m', since', remaining') := WalkMessage(ms[|ms| - 1], since, remaining);
      var inner := WalkMessages(ms[..|ms| - 1], since', remaining');
      WalkMessagesNeedsBudget(ms[..|ms| - 1], since', remaining');
      WalkMessageCovers(ms[|ms| - 1], since, remaining, seen);
      var seen' := Objects(BlocksOf(m')) + seen;
      WalkMessagesCovers(ms[..|ms| - 1], since', remaining', seen');
      FlatPush(inner.out, m');
      assert Flat(inner.out + [m']) + seen == Flat(inner.out) + seen';
    }
  }

  lemma FlatOfNone(ms: seq<Message>)
    requires ms == []
    ensures Flat(ms) == []
  {
  }

  /** With budget left after injection, no 18 consecutive message blocks that start with a text
      block are unmarked. */
  lemma InjectedCovers(p: Payload)
    requires |p.messages| >= THRESHOLD && Total(Injected(p)) < LIMIT
    ensures Covered(Flat(Injected(p).messages))
  {
    var since, remaining := SinceInSystem(p.system), LIMIT - Total(p);
    InjectedTotal(p);
    var none: seq<Block> := [];
    WalkMessagesCovers(p.messages, since, remaining, none);
    var flat := Flat(Injected(p).messages);
    assert flat + none == flat;
  }

  // ------------------------------------------------------------------ no marker comes early

  /** What the walk counts: a block object, or None for a message whose content is a string. */
  type Unit = Option<Block>

  predicate MarkedUnit(u: Unit) {
    u.Some? && Marked(u.value)
  }

  function UnitsIn(bs: seq<Block>): seq<Unit> {
    if bs == [] then [] else UnitsIn(bs[..|bs| - 1]) + if bs[|bs| - 1].Object? then [Some(bs[|bs| - 1])] else []
  }

  function UnitsOf(m: Message): seq<Unit> {
    if m.Message? && m.content.Text? then [None] else UnitsIn(BlocksOf(m))
  }

  /** Everything the walk counts, oldest first. */
  function Units(ms: seq<Message>): seq<Unit> {
    if ms == [] then [] else Units(ms[..|ms| - 1]) + UnitsOf(ms[|ms| - 1])
  }

  /** How many of the units stand before the first marker; all of them and `beyond` more if
      there is none. */
  function UntilMarker(us: seq<Unit>, beyond: int): int {
    if us == [] then beyond else if MarkedUnit(us[0]) then 0 else 1 + UntilMarker(us[1..], beyond)
  }

  /** Some units get a marker, and each that does has at least 17 unmarked ones on its newer
      side before the next marker. */
  ghost predicate Late(before: seq<Unit>, after: seq<Unit>, beyond: int) {
    |after| == |before| && forall i :: 0 <= i < |before| ==>
      || after[i] == before[i]
      || (!MarkedUnit(before[i]) && MarkedUnit(after[i]) && UntilMarker(after[i + 1..], beyond) >= 17)
  }

  lemma LateCons(u: Unit, u': Unit, before: seq<Unit>, after: seq<Unit>, beyond: int)
    requires Late(before, after, beyond)
    requires u' == u || (!MarkedUnit(u) && MarkedUnit(u') && UntilMarker(after, beyond) >= 17)
    ensures Late([u] + before, [u'] + after, beyond)
    ensures UntilMarker([u'] + after, beyond) == if MarkedUnit(u') then 0 else 1 + UntilMarker(after, beyond)
  {
    var b, a := [u] + before, [u'] + after;
    assert a[1..] == after;
    forall i | 0 <= i < |b|
      ensures a[i] == b[i] || (!MarkedUnit(b[i]) && MarkedUnit(a[i]) && UntilMarker(a[i + 1..], beyond) >= 17)
    {
      if i > 0 { assert a[i] == after[i - 1] && b[i] == before[i - 1] && a[i + 1..] == after[i..]; }
    }
  }

  lemma LatePrefix(us: seq<Unit>, before: seq<Unit>, after: seq<Unit>, beyond: int)
    requires Late(before, after, beyond)
    ensures Late(us + before, us + after, beyond)
  {
    var b, a := us + before, us + after;
    forall i | 0 <= i < |b|
      ensures a[i] == b[i] || (!MarkedUnit(b[i]) && MarkedUnit(a[i]) && UntilMarker(a[i + 1..], beyond) >= 17)
    {
      if i >= |us| {
        var k := i - |us|;
        assert a[i] == after[k] && b[i] == before[k] && a[i + 1..] == after[k + 1..];
      }
    }
  }

  /** The walk has kept `before` and `after` apart as it should, and its counter is exact. */
  ghost predicate OnTime(before: seq<Unit>, after: seq<Unit>, beyond: int, since: int, remaining: int) {
    Late(before, after, beyond) && (remaining > 0 ==> since == UntilMarker(after, beyond))
  }

  lemma WalkBlockOnTime(b: Block, since: int, remaining: int, before: seq<Unit>, after: seq<Unit>, beyond: int)
    requires OnTime(before, after, beyond, since, remaining) && remaining > 0
    ensures var (b', since', remaining') := WalkBlock(b, since, remaining);
      && b'.Object? == b.Object?
      && OnTime((if b.Object? then [Some(b)] else []) + before, (if b.Object? then [Some(b')] else []) + after,
           beyond, since', remaining')
  {
    var (b', since', remaining') := WalkBlock(b, since, remaining);
    if b.Object? {
      LateCons(Some(b), Some(b'), before, after, beyond);
    } else {
      assert [] + before == before && [] + after == after;
    }
    hide Late, UntilMarker;
  }

  lemma UnitsInPush(bs: seq<Block>, b: Block)
    ensures UnitsIn(bs + [b]) == UnitsIn(bs) + if b.Object? then [Some(b)] else []
  {
    assert (bs + [b])[..|bs|] == bs;
  }

  lemma {:induction false} WalkBlocksOnTime(
    bs: seq<Block>, since: int, remaining: int, before: seq<Unit>, after: seq<Unit>, beyond: int)
    requires OnTime(before, after, beyond, since, remaining)
    ensures var w := WalkBlocks(bs, since, remaining);
      OnTime(UnitsIn(bs) + before, UnitsIn(w.out) + after, beyond, w.since, w.remaining)
    decreases |bs|
  {
    hide OnTime, WalkBlock, WalkBlocks, UnitsIn;
    if bs == [] || remaining <= 0 {
      WalkBlocksEnd(bs, since, remaining);
      OnTimePrefix(UnitsIn(bs), before, after, beyond, since, remaining);
      UnitsInNone(bs);
    } else {
      var b, init := bs[|bs| - 1], bs[..|bs| - 1];
      WalkBlocksStep(bs, since, remaining);
      var (b', since', remaining') := WalkBlock(b, since, remaining);
      var inner := WalkBlocks(init, since', remaining').out;
      WalkBlockOnTime(b, since, remaining, before, after, beyond);
      var u, u' := if b.Object? then [Some(b)] else [], if b.Object? then [Some(b')] else [];
      WalkBlocksOnTime(init, since', remaining', u + before, u' + after, beyond);
      assert bs == init + [b];
      UnitsInPush(init, b);
      UnitsInPush(inner, b');
      assert UnitsIn(bs) + before == UnitsIn(init) + (u + before);
      assert UnitsIn(inner + [b']) + after == UnitsIn(inner) + (u' + after);
    }
  }

  lemma UnitsInNone(bs: seq<Block>)
    ensures bs == [] ==> UnitsIn(bs) == []
  {
  }

  lemma OnTimePrefix(us: seq<Unit>, before: seq<Unit>, after: seq<Unit>, beyond: int, since: int, remaining: int)
    requires OnTime(before, after, beyond, since, remaining)
    ensures us == [] || remaining <= 0 ==> OnTime(us + before, us + after, beyond, since, remaining)
  {
    hide Late;
    if us == [] {
      assert us + before == before && us + after == after;
    } else {
      LatePrefix(us, before, after, beyond);
    }
  }

  lemma WalkMessageOnTime(m: Message, since: int, remaining: int, before: seq<Unit>, after: seq<Unit>, beyond: int)
    requires OnTime(before, after, beyond, since, remaining) && remaining > 0
    ensures var (m', since', remaining') := WalkMessage(m, since, remaining);
      OnTime(UnitsOf(m) + before, UnitsOf(m') + after, beyond, since', remaining')
  {
    hide WalkBlocks, Late;
    if m.Message? && m.content.Text? {
      LateCons(None, None, before, after, beyond);
    } else {
      WalkBlocksOnTime(BlocksOf(m), since, remaining, before, after, beyond);
      UnitsInNone(BlocksOf(m));
      assert UnitsIn([]) == [] && [] + before == before && [] + after == after;
    }
  }

  lemma UnitsPush(ms: seq<Message>, m: Message)
    ensures Units(ms + [m]) == Units(ms) + UnitsOf(m)
  {
    assert (ms + [m])[..|ms|] == ms;
  }

  lemma {:induction false} WalkMessagesOnTime(
    ms: seq<Message>, since: int, remaining: int, before: seq<Unit>, after: seq<Unit>, beyond: int)
    requires OnTime(before, after, beyond, since, remaining)
    ensures Late(Units(ms) + before, Units(WalkMessages(ms, since, remaining).out) + after, beyond)
    decreases |ms|
  {
    hide Late, WalkMessage, WalkMessages, UnitsOf, Units;
    if ms == [] || remaining <= 0 {
      WalkMessagesEnd(ms, since, remaining);
      LatePrefix(Units(ms), before, after, beyond);
    } else {
      var m, init := ms[|ms| - 1], ms[..|ms| - 1];
      WalkMessagesStep(ms, since, remaining);
      var (m', since', remaining') := WalkMessage(m, since, remaining);
      var inner := WalkMessages(init, since', remaining').out;
      WalkMessageOnTime(m, since, remaining, before, after, beyond);
      WalkMessagesOnTime(init, since', remaining', UnitsOf(m) + before, UnitsOf(m') + after, beyond);
      assert ms == init + [m];
      UnitsPush(init, m);
      UnitsPush(inner, m');
      assert Units(ms) + before == Units(init) + (UnitsOf(m) + before);
      assert Units(inner + [m']) + after == Units(inner) + (UnitsOf(m') + after);
    }
  }

  /** The system blocks that count on: the objects after the last marked one. */
  lemma {:induction false} SinceIsTail(sys: seq<Block>) returns (k: nat)
    ensures k <= |sys| && (k > 0 ==> Marked(sys[k - 1])) && forall i :: k <= i < |sys| ==> !Marked(sys[i])
    ensures SinceInSystem(sys) == |Objects(sys[k..])|
  {
    if sys == [] { return 0; }
    var n := |sys| - 1;
    k := SinceIsTail(sys[..n]);
    if Marked(sys[n]) {
      k := |sys|;
    } else {
      assert sys[k..] == sys[..n][k..] + [sys[n]];
      ObjectsPush(sys[..n][k..], sys[n]);
    }
  }

  /** For every payload, each marker that injection adds has at least 17 counted units on its
      newer side before the next marker, unmarked system blocks counting beyond the newest. */
  lemma InjectedIsLate(p: Payload)
    ensures Late(Units(p.messages), Units(Injected(p).messages), SinceInSystem(p.system))
  {
    hide Units, WalkMessages, SinceInSystem, Total;
    var us, since, none: seq<Unit> := Units(p.messages), SinceInSystem(p.system), [];
    if |p.messages| < THRESHOLD || Total(p) >= LIMIT {
      LatePrefix(us, none, none, since);
      assert us + none == us;
    } else {
      WalkMessagesOnTime(p.messages, since, LIMIT - Total(p), none, none, since);
      var us' := Units(Injected(p).messages);
      assert us + none == us && us' + none == us';
    }
  }

  function CountUnits(us: seq<Unit>): nat {
    if us == [] then 0 else CountUnits(us[1..]) + if MarkedUnit(us[0]) then 1 else 0
  }

  lemma {:induction false} CountUnitsAppend(a: seq<Unit>, b: seq<Unit>)
    ensures CountUnits(a + b) == CountUnits(a) + CountUnits(b)
  {
    if a == [] {
      assert a + b == b;
    } else {
      CountUnitsAppend(a[1..], b);
      assert (a + b)[1..] == a[1..] + b;
    }
  }

  lemma {:induction false} CountUnitsIn(bs: seq<Block>)
    ensures CountUnits(UnitsIn(bs)) == Count(bs, All)
  {
    if bs != [] {
      var init, b := bs[..|bs| - 1], bs[|bs| - 1];
      CountUnitsIn(init);
      var tail: seq<Unit> := if b.Object? then [Some(b)] else [];
      assert b.Object? ==> tail[1..] == [];
      CountUnitsAppend(UnitsIn(init), tail);
    }
  }

  lemma {:induction false} CountUnitsOf(ms: seq<Message>)
    ensures CountUnits(Units(ms)) == CountMessages(ms)
  {
    if ms != [] {
      var m := ms[|ms| - 1];
      CountUnitsOf(ms[..|ms| - 1]);
      CountUnitsAppend(Units(ms[..|ms| - 1]), UnitsOf(m));
      CountUnitsIn(BlocksOf(m));
      var one: seq<Unit> := [None];
      assert one[1..] == [] && CountUnits(one) == 0;
    }
  }

  lemma {:induction false} LateIsFew(before: seq<Unit>, after: seq<Unit>, beyond: nat)
    requires Late(before, after, beyond)
    ensures 18 * (CountUnits(after) - CountUnits(before)) + UntilMarker(after, beyond)
      <= beyond + |before| - CountUnits(before)
    ensures UntilMarker(after, beyond) >= 0
  {
    if before != [] {
      var b, a := before[1..], after[1..];
      assert forall i :: 0 <= i < |b| ==> b[i] == before[i + 1] && a[i] == after[i + 1] && a[i + 1..] == after[i + 2..];
      LateIsFew(b, a, beyond);
    }
  }

  /** Injection adds at most one marker per 18 counted units; fewer than 18 get none. */
  lemma InjectedIsFew(p: Payload)
    ensures 18 * (Total(Injected(p)) - Total(p)) <=
      SinceInSystem(p.system) + |Units(p.messages)| - CountMessages(p.messages)
  {
    hide Late, Units, UntilMarker, CountUnits, Count, CountMessages, WalkMessages;
    InjectedIsLate(p);
    LateIsFew(Units(p.messages), Units(Injected(p).messages), SinceInSystem(p.system));
    CountUnitsOf(p.messages);
    CountUnitsOf(Injected(p).messages);
  }

  // ------------------------------------------------------------------ the whole sequence

  function Pipeline(p: Payload): Payload {
    Injected(Clamped(SystemEnsured(ToolsEnsured(p))))
  }

  /** Any 18 consecutive blocks that are all text objects include a marked one. */
  ghost predicate NoUnmarkedRun(flat: seq<Block>) {
    forall i :: 0 <= i <= |flat| - 18 && TextFrom(flat, i) ==> MarkerFrom(flat, i)
  }

  ghost predicate TextFrom(flat: seq<Block>, i: nat)
    requires i + 18 <= |flat|
  {
    forall k :: i <= k < i + 18 ==> flat[k].Object? && flat[k].kind == "text"
  }

  ghost predicate MarkerFrom(flat: seq<Block>, i: nat)
    requires i + 18 <= |flat|
  {
    exists k :: i <= k < i + 18 && Marked(flat[k])
  }

  lemma CoveredHasMarkers(flat: seq<Block>)
    requires Covered(flat)
    ensures NoUnmarkedRun(flat)
  {
    hide Lead;
    forall i | 0 <= i <= |flat| - 18 && TextFrom(flat, i) ensures MarkerFrom(flat, i) {
      assert flat[i].Object? && flat[i].kind == "text";
      LeadFindsMarker(flat[i..]);
      var k := i + Lead(flat[i..]);
      assert flat[i..][k - i] == flat[k];
    }
  }

  /** Whatever the payload, the sequence ends with at most four markers; and if it ends with
      fewer and there are at least 18 messages, then any 18 consecutive message blocks that
      are all text objects include a marked one. */
  lemma PipelineRespectsBudget(p: Payload)
    ensures Total(Pipeline(p)) <= 4
    ensures |p.messages| >= 18 && Total(Pipeline(p)) < 4 ==> NoUnmarkedRun(Flat(Pipeline(p).messages))
  {
    hide Total, Injected, StripFirst, Flat, LastMarked, NoUnmarkedRun, Covered;
    var q := Clamped(SystemEnsured(ToolsEnsured(p)));
    ClampedTotal(SystemEnsured(ToolsEnsured(p)));
    InjectedTotal(q);
    ClampedLength(SystemEnsured(ToolsEnsured(p)));
    if |p.messages| >= THRESHOLD && Total(Injected(q)) < LIMIT {
      InjectedCovers(q);
      CoveredHasMarkers(Flat(Injected(q).messages));
    }
  }

  lemma ClampedLength(p: Payload)
    ensures |Clamped(p).messages| == |p.messages|
  {
  }

  /** Markers that are there already come first, then the tool tail, then the system tail, then
      injection: with fewer than four markers the last tool ends up marked if it is an object,
      and so does the last system block if the tool has left room. */
  lemma PipelineMarksTails(p: Payload)
    requires Total(p) < 4
    ensures var q := Pipeline(p);
      var tool := p.tools != [] && p.tools[|p.tools| - 1].Object?;
      var needed := if tool && !Marked(p.tools[|p.tools| - 1]) then 1 else 0;
      && |q.tools| == |p.tools| && |q.system| == |p.system|
      && (tool ==> Marked(q.tools[|p.tools| - 1]))
      && (p.system != [] && p.system[|p.system| - 1].Object? && Total(p) + needed < 4 ==> Marked(q.system[|p.system| - 1]))
  {
    hide StripFirst, WalkMessages, Count, CountMessages;
    LastMarkedCount(p.tools, Total(p));
    var t := ToolsEnsured(p);
    LastMarkedCount(t.system, Total(t));
    LastIsMarked(p.tools, Total(p));
    LastIsMarked(t.system, Total(t));
  }

  /** With four markers or more nothing is added: the sequence only clamps. */
  lemma PipelineWhenFull(p: Payload)
    requires Total(p) >= 4
    ensures Pipeline(p) == StripFirst(p, Total(p) - 4)
  {
    hide StripFirst, WalkMessages, Total;
    ClampedTotal(p);
    if Total(p) == 4 { StripNothing(p); }
  }

  lemma StripNothing(p: Payload)
    ensures StripFirst(p, 0) == p
  {
    hide Rank;
    forall m | 0 <= m < |p.messages| ensures WithBlocks(p.messages[m], StripBlocks(p, m, 0)) == p.messages[m] {
      assert StripBlocks(p, m, 0) == BlocksOf(p.messages[m]);
    }
  }

  // ------------------------------------------------------------------ nothing else changes

  /** The same element but for its marker, which is kept, gone or of the ephemeral type. */
  predicate Alike(b: Block, b': Block) {
    || b' == b
    || (&& b.Object? && b'.Object? && b'.kind == b.kind && b'.text == b.text && b'.rest == b.rest
        && (b'.marker == b.marker || b'.marker == None || b'.marker == Some("ephemeral")))
  }

  ghost predicate AlikeBlocks(bs: seq<Block>, bs': seq<Block>) {
    |bs'| == |bs| && forall i :: 0 <= i < |bs| ==> Alike(bs[i], bs'[i])
  }

  ghost predicate AlikeMessage(m: Message, m': Message) {
    || m' == m
    || (&& m.Message? && m'.Message? && m'.rest == m.rest
        && m.content.Blocks? && m'.content.Blocks? && AlikeBlocks(m.content.blocks, m'.content.blocks))
  }

  ghost predicate AlikePayload(p: Payload, q: Payload) {
    && AlikeBlocks(p.system, q.system) && AlikeBlocks(p.tools, q.tools)
    && |q.messages| == |p.messages|
    && forall i :: 0 <= i < |p.messages| ==> AlikeMessage(p.messages[i], q.messages[i])
  }

  lemma AlikeChain(p: Payload, q: Payload, r: Payload)
    requires AlikePayload(p, q) && AlikePayload(q, r)
    ensures AlikePayload(p, r)
  {
    forall i | 0 <= i < |p.messages| ensures AlikeMessage(p.messages[i], r.messages[i]) {
      assert AlikeMessage(p.messages[i], q.messages[i]) && AlikeMessage(q.messages[i], r.messages[i]);
    }
  }

  lemma ClampedIsAlike(p: Payload)
    ensures AlikePayload(p, Clamped(p))
  {
    hide Rank;
    forall m | 0 <= m < |p.messages| ensures AlikeMessage(p.messages[m], Clamped(p).messages[m]) {
    }
  }

  lemma InjectedIsAlike(p: Payload)
    ensures AlikePayload(p, Injected(p))
  {
    hide WalkMessages, Total, SinceInSystem, CountMessages, OnlyAddsToMessages, AlikeMessage;
    if |p.messages| >= THRESHOLD && Total(p) < LIMIT {
      WalkMessagesSpends(p.messages, SinceInSystem(p.system), LIMIT - Total(p));
      AddedIsAlike(p.messages, WalkMessages(p.messages, SinceInSystem(p.system), LIMIT - Total(p)).out);
    } else {
      assert forall i :: 0 <= i < |p.messages| ==> Injected(p).messages[i] == p.messages[i];
      SameIsAlike(p.messages);
    }
  }

  lemma SameIsAlike(ms: seq<Message>)
    ensures forall i :: 0 <= i < |ms| ==> AlikeMessage(ms[i], ms[i])
  {
  }

  lemma AddedIsAlike(before: seq<Message>, after: seq<Message>)
    requires OnlyAddsToMessages(before, after)
    ensures |after| == |before| && forall i :: 0 <= i < |before| ==> AlikeMessage(before[i], after[i])
  {
    forall i | 0 <= i < |before| ensures AlikeMessage(before[i], after[i]) {
      assert OnlyAdds(BlocksOf(before[i]), BlocksOf(after[i]));
    }
  }

  /** The sequence changes markers and nothing else in the payload. */
  lemma PipelineTouchesOnlyMarkers(p: Payload)
    ensures AlikePayload(p, Pipeline(p))
  {
    hide AlikePayload, Clamped, Injected;
    var t := ToolsEnsured(p);
    var q := SystemEnsured(t);
    EnsuredIsAlike(p);
    EnsuredIsAlike(t);
    ClampedIsAlike(q);
    InjectedIsAlike(Clamped(q));
    AlikeChain(p, t, q);
    AlikeChain(p, q, Clamped(q));
    AlikeChain(p, Clamped(q), Injected(Clamped(q)));
  }

  lemma EnsuredIsAlike(p: Payload)
    ensures AlikePayload(p, ToolsEnsured(p)) && AlikePayload(p, SystemEnsured(p))
  {
    hide Total;
  }

  // ------------------------------------------------------------------ the in-place passes

  method CountLoop(bs: seq<Block>) returns (count: nat)
    ensures count == Count(bs, All)
  {
    count := 0;
    for i := 0 to |bs|
      invariant count == Count(bs[..i], All)
    {
      CountPush(bs, i, All);
      if bs[i].Object? && bs[i].marker.Some? { count := count + 1; }
    }
    assert bs[..|bs|] == bs;
  }

  method CountMessagesLoop(ms: seq<Message>) returns (count: nat)
    ensures count == CountMessages(ms)
  {
    count := 0;
    for i := 0 to |ms|
      invariant count == CountMessages(ms[..i])
    {
      assert ms[..i + 1][..i] == ms[..i];
      var n := CountLoop(BlocksOf(ms[i]));
      count := count + n;
    }
    assert ms[..|ms|] == ms;
  }

  /** Walks forward, deleting markers while fewer than `excess` have been deleted. */
  method StripLoop(bs: seq<Block>, tinyOnly: bool, start: nat, excess: nat)
    returns (out: seq<Block>, stripped: nat)
    requires start <= excess
    ensures var sel := if tinyOnly then Short else All;
      out == Pass(bs, sel, start, excess) && stripped == Min(excess, start + Count(bs, sel))
  {
    hide Pass, Count;
    ghost var sel := if tinyOnly then Short else All;
    ghost var done := Pass(bs, sel, start, excess);
    out, stripped := bs, start;
    var i := 0;
    CountNone(bs[..0], sel);
    while i < |bs| && stripped < excess
      invariant 0 <= i <= |bs| && |out| == |bs|
      invariant stripped == start + Count(bs[..i], sel) <= excess
      invariant forall k :: 0 <= k < i ==> out[k] == done[k]
      invariant forall k :: i <= k < |bs| ==> out[k] == bs[k]
    {
      CountPush(bs, i, sel);
      PassAt(bs, sel, start, excess, i);
      if bs[i].Object? && bs[i].marker.Some? && (!tinyOnly || |bs[i].text| < TINY) {
        out := out[i := Unmark(bs[i])];
        stripped := stripped + 1;
      }
      i := i + 1;
    }
    CountPrefix(bs, i, |bs|, sel);
    assert bs[..|bs|] == bs;
    forall k | i <= k < |bs| ensures done[k] == bs[k] {
      CountPrefix(bs, i, k, sel);
      PassAt(bs, sel, start, excess, k);
    }
    assert out == done;
  }

  method StripMessagesLoop(ms: seq<Message>, start: nat, excess: nat)
    returns (out: seq<Message>, stripped: nat)
    requires start <= excess
    ensures out == MessagesPass(ms, start, excess) && stripped == Min(excess, start + CountMessages(ms))
  {
    hide Pass, Count, CountMessages, MessagesPass;
    ghost var done := MessagesPass(ms, start, excess);
    out, stripped := ms, start;
    var i := 0;
    CountNoMessages(ms[..0]);
    while i < |ms| && stripped < excess
      invariant 0 <= i <= |ms| && |out| == |ms|
      invariant stripped == Min(excess, start + CountMessages(ms[..i]))
      invariant forall k :: 0 <= k < i ==> out[k] == done[k]
      invariant forall k :: i <= k < |ms| ==> out[k] == ms[k]
    {
      CountMessagesLast(ms[..i + 1]);
      assert ms[..i + 1][..i] == ms[..i];
      MessagesPassAt(ms, start, excess, i);
      var m := ms[i];
      if m.Message? && m.content.Blocks? {
        var bs;
        bs, stripped := StripLoop(m.content.blocks, false, stripped, excess);
        out := out[i := m.(content := Blocks(bs))];
      } else {
        NoBlocks(m);
      }
      i := i + 1;
    }
    CountMessagesPrefix(ms, i, |ms|);
    assert ms[..|ms|] == ms;
    forall k | i <= k < |ms| ensures done[k] == ms[k] {
      CountMessagesPrefix(ms, i, k);
      MessagesPassAt(ms, start, excess, k);
      NothingToStrip(BlocksOf(ms[k]), start + CountMessages(ms[..k]), excess);
    }
    assert out == done;
  }

  lemma NoBlocks(m: Message)
    requires !(m.Message? && m.content.Blocks?)
    ensures Count(BlocksOf(m), All) == 0
  {
  }

  method SinceLoop(sys: seq<Block>) returns (since: nat)
    ensures since == SinceInSystem(sys)
  {
    since := 0;
    for i := 0 to |sys|
      invariant since == SinceInSystem(sys[..i])
    {
      assert sys[..i + 1][..i] == sys[..i];
      if sys[i].Object? {
        since := if sys[i].marker.Some? then 0 else since + 1;
      }
    }
    assert sys[..|sys|] == sys;
  }

  method WalkBlocksLoop(bs: seq<Block>, since0: int, remaining0: int)
    returns (out: seq<Block>, since: int, remaining: int)
    ensures Walk(out, since, remaining) == WalkBlocks(bs, since0, remaining0)
  {
    hide WalkBlocks;
    out, since, remaining := bs, since0, remaining0;
    var j := |bs|;
    assert bs[..|bs|] == bs;
    while j > 0 && remaining > 0
      invariant 0 <= j <= |bs| && |out| == |bs| && out[..j] == bs[..j]
      invariant var w := WalkBlocks(bs[..j], since, remaining);
        w.(out := w.out + out[j..]) == WalkBlocks(bs, since0, remaining0)
    {
      WalkBlocksStep(bs[..j], since, remaining);
      assert bs[..j][..j - 1] == bs[..j - 1];
      var block := bs[j - 1];
      ghost var rest := out[j..];
      if block.Object? {
        if block.marker.Some? {
          since := 0;
        } else {
          since := since + 1;
          if since >= THRESHOLD && block.kind == "text" {
            out := out[j - 1 := Mark(block)];
            remaining := remaining - 1;
            since := 0;
          }
        }
      }
      j := j - 1;
      assert out[j..] == [out[j]] + rest;
      SlideLast(WalkBlocks(bs[..j], since, remaining).out, out[j], rest);
    }
    WalkBlocksEnd(bs[..j], since, remaining);
    assert bs[..j] + out[j..] == out;
  }

  lemma SlideLast<T>(a: seq<T>, x: T, b: seq<T>)
    ensures a + [x] + b == a + ([x] + b)
  {
  }

  lemma WalkBlocksEnd(bs: seq<Block>, since: int, remaining: int)
    requires bs == [] || remaining <= 0
    ensures WalkBlocks(bs, since, remaining) == Walk(bs, since, remaining)
  {
  }

  lemma WalkMessagesEnd(ms: seq<Message>, since: int, remaining: int)
    requires ms == [] || remaining <= 0
    ensures WalkMessages(ms, since, remaining) == Walk(ms, since, remaining)
  {
  }

  method WalkMessagesLoop(ms: seq<Message>, since0: int, remaining0: int)
    returns (out: seq<Message>, since: int, remaining: int)
    ensures Walk(out, since, remaining) == WalkMessages(ms, since0, remaining0)
  {
    hide WalkMessages, WalkBlocks;
    out, since, remaining := ms, since0, remaining0;
    var i := |ms|;
    assert ms[..|ms|] == ms;
    while i > 0 && remaining > 0
      invariant 0 <= i <= |ms| && |out| == |ms| && out[..i] == ms[..i]
      invariant var w := WalkMessages(ms[..i], since, remaining);
        w.(out := w.out + out[i..]) == WalkMessages(ms, since0, remaining0)
    {
      WalkMessagesStep(ms[..i], since, remaining);
      assert ms[..i][..i - 1] == ms[..i - 1];
      var m := ms[i - 1];
      ghost var rest := out[i..];
      if m.Message? {
        if m.content.Blocks? {
          var bs;
          bs, since, remaining := WalkBlocksLoop(m.content.blocks, since, remaining);
          out := out[i - 1 := m.(content := Blocks(bs))];
        } else if m.content.Text? {
          since := since + 1;
        }
      }
      i := i - 1;
      assert out[i..] == [out[i]] + rest;
      SlideLast(WalkMessages(ms[..i], since, remaining).out, out[i], rest);
    }
    WalkMessagesEnd(ms[..i], since, remaining);
    assert ms[..i] + out[i..] == out;
  }

  class Request {
    var system: seq<Block>
    var messages: seq<Message>
    var tools: seq<Block>

    constructor (p: Payload)
      ensures Value() == p
    {
      system, messages, tools := p.system, p.messages, p.tools;
    }

    function Value(): Payload
      reads this
    {
      Payload(system, messages, tools)
    }

    method CountMarkers() returns (count: nat)
      ensures count == Total(Value())
    {
      var s := CountLoop(system);
      var m := CountMessagesLoop(messages);
      var t := CountLoop(tools);
      count := s + m + t;
    }

    method EnsureTools() returns (added: nat)
      modifies this`tools
      ensures Value() == ToolsEnsured(old(Value()))
      ensures tools != [] && tools[|tools| - 1].Object? && old(Total(Value())) < 4 ==> Marked(tools[|tools| - 1])
      ensures Total(Value()) == old(Total(Value())) + added
      ensures added > 0 ==> old(Total(Value())) < LIMIT
    {
      LastMarkedCount(tools, Total(Value()));
      if |tools| == 0 { return 0; }
      var total := CountMarkers();
      if total >= LIMIT { return 0; }
      var last := tools[|tools| - 1];
      if !last.Object? || last.marker.Some? { return 0; }
      tools := tools[|tools| - 1 := Mark(last)];
      added := 1;
    }

    method EnsureSystemTail() returns (added: nat)
      modifies this`system
      ensures Value() == SystemEnsured(old(Value()))
      ensures system != [] && system[|system| - 1].Object? && old(Total(Value())) < 4 ==> Marked(system[|system| - 1])
      ensures Total(Value()) == old(Total(Value())) + added
      ensures added > 0 ==> old(Total(Value())) < LIMIT
    {
      LastMarkedCount(system, Total(Value()));
      if |system| == 0 { return 0; }
      var total := CountMarkers();
      if total >= LIMIT { return 0; }
      var last := system[|system| - 1];
      if !last.Object? || last.marker.Some? { return 0; }
      system := system[|system| - 1 := Mark(last)];
      added := 1;
    }

    /** Strips exactly the excess, in the priority order, and nothing else. */
    method Clamp() returns (stripped: nat)
      modifies this
      ensures Value() == Clamped(old(Value()))
      ensures stripped == old(Total(Value())) - Min(LIMIT, old(Total(Value())))
      ensures Total(Value()) == old(Total(Value())) - stripped <= LIMIT
    {
      hide Pass, Count, CountMessages, MessagesPass, StripFirst;
      ghost var p := Value();
      ClampedTotal(p);
      var total := CountMarkers();
      if total <= LIMIT { return 0; }
      var excess := total - LIMIT;
      PassesStripFirst(p, excess);
      CountSplits(system);
      LongRemainAll(system, excess);
      system, stripped := StripLoop(system, true, 0, excess);
      if stripped < excess {
        messages, stripped := StripMessagesLoop(messages, stripped, excess);
      }
      if stripped < excess {
        system, stripped := StripLoop(system, false, stripped, excess);
      }
      if stripped < excess {
        tools, stripped := StripLoop(tools, false, stripped, excess);
      }
    }

    /** Marks text blocks so that the lookback window is never exceeded while budget lasts. */
    method Inject() returns (injected: nat)
      modifies this`messages
      ensures Value() == Injected(old(Value()))
      ensures Total(Value()) == old(Total(Value())) + injected
      ensures Late(old(Units(messages)), Units(messages), SinceInSystem(system))
      ensures old(Total(Value())) <= LIMIT ==> Total(Value()) <= LIMIT
    {
      hide WalkMessages, Count, CountMessages, SinceInSystem, Late, Units;
      InjectedTotal(Value());
      InjectedIsLate(Value());
      if |messages| < THRESHOLD { return 0; }
      var existing := CountMarkers();
      if existing >= LIMIT { return 0; }
      var since := SinceLoop(system);
      WalkMessagesSpends(messages, since, LIMIT - existing);
      var remaining;
      messages, since, remaining := WalkMessagesLoop(messages, since, LIMIT - existing);
      injected := LIMIT - existing - remaining;
    }

    /** The sequence run on every request before it is sent. */
    method Prepare()
      modifies this
      ensures Value() == Pipeline(old(Value()))
      ensures Total(Value()) <= LIMIT && AlikePayload(old(Value()), Value())
    {
      PipelineTouchesOnlyMarkers(Value());
      hide Late, AlikePayload, LastMarked, Injected, Clamped;
      var added := EnsureTools();
      added := EnsureSystemTail();
      var stripped := Clamp();
      var injected := Inject();
    }
  }

  lemma LongRemainAll(sys: seq<Block>, excess: nat)
    ensures Count(sys, Short) < excess ==> Count(Pass(sys, Short, 0, excess), All) == Count(sys, Long)
  {
    if Count(sys, Short) < excess {
      LongRemain(sys, excess, |sys|);
      var r := Pass(sys, Short, 0, excess);
      assert r[..|sys|] == r && sys[..|sys|] == sys;
    }
  }
}
