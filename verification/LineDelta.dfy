/** The line delta: splitting, the LCS table, backtracking, reversal and compaction, and the
    decision that the encoder takes on the result. */
module LineDelta {
  import opened Common

  const NEWLINE: byte := 10
  const MAX_BYTES := 50000
  const MAX_LINES := 200

  datatype Kind = Keep | Delete | Insert

  datatype Op = Op(kind: Kind, data: Bytes)

  // ------------------------------------------------------------------ lines

  /** Splitting at newlines; the empty text has one empty line. */
  function Split(text: Bytes): (lines: seq<Bytes>)
    ensures |lines| >= 1
    ensures |lines| <= |text| + 1
  {
    if text == [] then [[]]
    else
      var init, last := Split(text[..|text| - 1]), text[|text| - 1];
      if last == NEWLINE then init + [[]]
      else init[..|init| - 1] + [init[|init| - 1] + [last]]
  }

  /** Every line followed by a newline. */
  function Unsplit(lines: seq<Bytes>): Bytes {
    if lines == [] then [] else Unsplit(lines[..|lines| - 1]) + lines[|lines| - 1] + [NEWLINE]
  }

  lemma UnsplitPush(lines: seq<Bytes>, line: Bytes)
    ensures Unsplit(lines + [line]) == Unsplit(lines) + line + [NEWLINE]
  {
    assert (lines + [line])[..|lines|] == lines;
  }

  lemma {:induction false} SplitRoundTrip(text: Bytes)
    ensures Unsplit(Split(text)) == text + [NEWLINE]
  {
    if text == [] {
      UnsplitPush([], []);
      assert [] + [[]] == Split(text);
    } else {
      var prior, last := text[..|text| - 1], text[|text| - 1];
      var init := Split(prior);
      SplitRoundTrip(prior);
      SplitStep(init, prior, last);
      assert text == prior + [last];
    }
  }

  /** No line contains a newline, so with the round trip the split is the only one. */
  lemma {:induction false} SplitLinesAreClean(text: Bytes)
    ensures forall line :: line in Split(text) ==> NEWLINE !in line
  {
    if text != [] {
      SplitLinesAreClean(text[..|text| - 1]);
      var init := Split(text[..|text| - 1]);
      assert init[|init| - 1] in init;
    }
  }

  lemma SplitStep(init: seq<Bytes>, prior: Bytes, last: byte)
    requires init != [] && Unsplit(init) == prior + [NEWLINE]
    ensures Unsplit(init + [[]]) == prior + [NEWLINE] + [NEWLINE]
    ensures Unsplit(init[..|init| - 1] + [init[|init| - 1] + [last]]) == prior + [last] + [NEWLINE]
  {
    hide Unsplit;
    var head, tail := init[..|init| - 1], init[|init| - 1];
    assert init == head + [tail];
    UnsplitPush(init, []);
    UnsplitPush(head, tail);
    UnsplitPush(head, tail + [last]);
    DropLast(Unsplit(head) + tail, prior, NEWLINE);
    assert Unsplit(head) + (tail + [last]) == prior + [last];
  }

  lemma DropLast(a: Bytes, b: Bytes, x: byte)
    requires a + [x] == b + [x]
    ensures a == b
  {
    assert (a + [x])[..|a|] == a && (b + [x])[..|b|] == b;
  }

  // ------------------------------------------------------------------ longest common subsequence

  /** The recurrence that fills the table. */
  function Lcs(a: seq<Bytes>, b: seq<Bytes>, i: nat, j: nat): nat
    requires i <= |a| && j <= |b|
  {
    if i == 0 || j == 0 then 0
    else if a[i - 1] == b[j - 1] then Lcs(a, b, i - 1, j - 1) + 1
    else if Lcs(a, b, i - 1, j) > Lcs(a, b, i, j - 1) then Lcs(a, b, i - 1, j)
    else Lcs(a, b, i, j - 1)
  }

  /** One row of the recurrence, to be used with the definition hidden. */
  lemma LcsStep(a: seq<Bytes>, b: seq<Bytes>, i: nat, j: nat)
    requires 0 < i <= |a| && 0 < j <= |b|
    ensures Lcs(a, b, i, j) ==
      if a[i - 1] == b[j - 1] then Lcs(a, b, i - 1, j - 1) + 1
      else if Lcs(a, b, i - 1, j) > Lcs(a, b, i, j - 1) then Lcs(a, b, i - 1, j) else Lcs(a, b, i, j - 1)
  {
  }

  lemma LcsEdge(a: seq<Bytes>, b: seq<Bytes>)
    ensures forall i :: 0 <= i <= |a| ==> Lcs(a, b, i, 0) == 0
    ensures forall j :: 0 <= j <= |b| ==> Lcs(a, b, 0, j) == 0
  {
  }

  /** c can be obtained from s by dropping elements. */
  ghost predicate Subsequence(c: seq<Bytes>, s: seq<Bytes>) {
    if c == [] then true
    else if s == [] then false
    else
      || (c[|c| - 1] == s[|s| - 1] && Subsequence(c[..|c| - 1], s[..|s| - 1]))
      || Subsequence(c, s[..|s| - 1])
  }

  lemma {:induction false} SubsequenceShrinks(c: seq<Bytes>, s: seq<Bytes>)
    requires c != [] && Subsequence(c, s)
    ensures s != [] && Subsequence(c[..|c| - 1], s[..|s| - 1])
  {
    if Subsequence(c, s[..|s| - 1]) {
      SubsequenceShrinks(c, s[..|s| - 1]);
      SubsequenceExtends(c[..|c| - 1], s[..|s| - 1]);
    }
  }

  lemma SubsequenceExtends(c: seq<Bytes>, s: seq<Bytes>)
    requires s != [] && Subsequence(c, s[..|s| - 1])
    ensures Subsequence(c, s)
  {
  }

  /** No common subsequence of the two prefixes is longer than the table entry. */
  lemma {:induction false} LcsIsUpperBound(a: seq<Bytes>, b: seq<Bytes>, i: nat, j: nat, c: seq<Bytes>)
    requires i <= |a| && j <= |b| && Subsequence(c, a[..i]) && Subsequence(c, b[..j])
    ensures |c| <= Lcs(a, b, i, j)
    decreases i + j
  {
    if c != [] && i > 0 && j > 0 {
      assert a[..i][..i - 1] == a[..i - 1] && b[..j][..j - 1] == b[..j - 1];
      if a[i - 1] == b[j - 1] {
        SubsequenceShrinks(c, a[..i]);
        SubsequenceShrinks(c, b[..j]);
        LcsIsUpperBound(a, b, i - 1, j - 1, c[..|c| - 1]);
      } else if Subsequence(c, a[..i - 1]) {
        LcsIsUpperBound(a, b, i - 1, j, c);
      } else {
        LcsIsUpperBound(a, b, i, j - 1, c);
      }
    }
  }

  lemma SubsequencePush(c: seq<Bytes>, s: seq<Bytes>, x: Bytes)
    requires Subsequence(c, s)
    ensures Subsequence(c, s + [x]) && Subsequence(c + [x], s + [x])
  {
    assert (s + [x])[..|s|] == s && (c + [x])[..|c|] == c;
  }

  /** Some common subsequence has exactly the length in the table entry. */
  lemma {:induction false} LcsIsAttained(a: seq<Bytes>, b: seq<Bytes>, i: nat, j: nat) returns (c: seq<Bytes>)
    requires i <= |a| && j <= |b|
    ensures Subsequence(c, a[..i]) && Subsequence(c, b[..j]) && |c| == Lcs(a, b, i, j)
    decreases i + j
  {
    hide Subsequence;
    if i == 0 || j == 0 {
      EmptySubsequence(a[..i]);
      EmptySubsequence(b[..j]);
      return [];
    }
    var x, y := a[i - 1], b[j - 1];
    assert a[..i] == a[..i - 1] + [x] && b[..j] == b[..j - 1] + [y];
    if x == y {
      c := LcsIsAttained(a, b, i - 1, j - 1);
      SubsequencePush(c, a[..i - 1], x);
      SubsequencePush(c, b[..j - 1], x);
      c := c + [x];
    } else if Lcs(a, b, i - 1, j) > Lcs(a, b, i, j - 1) {
      c := LcsIsAttained(a, b, i - 1, j);
      SubsequencePush(c, a[..i - 1], x);
    } else {
      c := LcsIsAttained(a, b, i, j - 1);
      SubsequencePush(c, b[..j - 1], y);
    }
  }

  lemma EmptySubsequence(s: seq<Bytes>)
    ensures Subsequence([], s)
  {
  }

  // ------------------------------------------------------------------ edit scripts

  function Line(line: Bytes): Bytes {
    line + [NEWLINE]
  }

  /** The script that backtracking finds for the first i old and j new lines, in forward order. */
  function Script(a: seq<Bytes>, b: seq<Bytes>, i: nat, j: nat): seq<Op>
    requires i <= |a| && j <= |b|
    decreases i + j
  {
    if i > 0 && j > 0 then
      if a[i - 1] == b[j - 1] then Script(a, b, i - 1, j - 1) + [Op(Keep, Line(a[i - 1]))]
      else if Lcs(a, b, i - 1, j) > Lcs(a, b, i, j - 1) then Script(a, b, i - 1, j) + [Op(Delete, Line(a[i - 1]))]
      else Script(a, b, i, j - 1) + [Op(Insert, Line(b[j - 1]))]
    else if i > 0 then Script(a, b, i - 1, j) + [Op(Delete, Line(a[i - 1]))]
    else if j > 0 then Script(a, b, i, j - 1) + [Op(Insert, Line(b[j - 1]))]
    else []
  }

  /** The data of all ops but those of one kind. */
  function DataWithout(ops: seq<Op>, skip: Kind): seq<Bytes> {
    if ops == [] then []
    else
      var init, op := DataWithout(ops[..|ops| - 1], skip), ops[|ops| - 1];
      if op.kind == skip then init else init + [op.data]
  }

  function OldData(ops: seq<Op>): seq<Bytes> { DataWithout(ops, Insert) }
  function NewData(ops: seq<Op>): seq<Bytes> { DataWithout(ops, Delete) }

  function Count(ops: seq<Op>, kind: Kind): nat {
    if ops == [] then 0 else Count(ops[..|ops| - 1], kind) + if ops[|ops| - 1].kind == kind then 1 else 0
  }

  function KeptData(ops: seq<Op>): seq<Bytes> {
    if ops == [] then []
    else
      var init, op := KeptData(ops[..|ops| - 1]), ops[|ops| - 1];
      if op.kind == Keep then init + [op.data] else init
  }

  function AsLines(lines: seq<Bytes>): (r: seq<Bytes>)
    ensures |r| == |lines|
    ensures forall k :: 0 <= k < |lines| ==> r[k] == Line(lines[k])
  {
    seq(|lines|, k requires 0 <= k < |lines| => Line(lines[k]))
  }

  /** ops rewrites the old lines into the new ones. */
  ghost predicate IsEditScript(ops: seq<Op>, a: seq<Bytes>, b: seq<Bytes>) {
    OldData(ops) == AsLines(a) && NewData(ops) == AsLines(b)
  }

  lemma DataPush(ops: seq<Op>, op: Op, skip: Kind)
    ensures DataWithout(ops + [op], skip) ==
      if op.kind == skip then DataWithout(ops, skip) else DataWithout(ops, skip) + [op.data]
  {
    assert (ops + [op])[..|ops|] == ops;
  }

  lemma CountPush(ops: seq<Op>, op: Op, kind: Kind)
    ensures Count(ops + [op], kind) == Count(ops, kind) + if op.kind == kind then 1 else 0
  {
    assert (ops + [op])[..|ops|] == ops;
  }

  lemma AsLinesPush(lines: seq<Bytes>, i: nat)
    requires 0 < i <= |lines|
    ensures AsLines(lines[..i]) == AsLines(lines[..i - 1]) + [Line(lines[i - 1])]
  {
  }

  /** ops turns the first i old lines into the first j new ones and keeps k lines. */
  ghost predicate Edits(ops: seq<Op>, a: seq<Bytes>, i: nat, b: seq<Bytes>, j: nat, k: nat)
    requires i <= |a| && j <= |b|
  {
    OldData(ops) == AsLines(a[..i]) && NewData(ops) == AsLines(b[..j]) && Count(ops, Keep) == k
  }

  lemma EditsNothing(a: seq<Bytes>, b: seq<Bytes>)
    ensures Edits([], a, 0, b, 0, 0)
  {
  }

  lemma EditsPush(ops: seq<Op>, a: seq<Bytes>, i: nat, b: seq<Bytes>, j: nat, k: nat)
    requires i <= |a| && j <= |b| && Edits(ops, a, i, b, j, k)
    ensures i < |a| ==> Edits(ops + [Op(Delete, Line(a[i]))], a, i + 1, b, j, k)
    ensures j < |b| ==> Edits(ops + [Op(Insert, Line(b[j]))], a, i, b, j + 1, k)
    ensures i < |a| && j < |b| && a[i] == b[j] ==> Edits(ops + [Op(Keep, Line(a[i]))], a, i + 1, b, j + 1, k + 1)
  {
    if i < |a| {
      AsLinesPush(a, i + 1);
      Pushes(ops, Op(Delete, Line(a[i])));
      Pushes(ops, Op(Keep, Line(a[i])));
    }
    if j < |b| {
      AsLinesPush(b, j + 1);
      Pushes(ops, Op(Insert, Line(b[j])));
    }
    hide DataWithout, Count, AsLines, Line;
  }

  lemma Pushes(ops: seq<Op>, op: Op)
    ensures OldData(ops + [op]) == if op.kind == Insert then OldData(ops) else OldData(ops) + [op.data]
    ensures NewData(ops + [op]) == if op.kind == Delete then NewData(ops) else NewData(ops) + [op.data]
    ensures Count(ops + [op], Keep) == Count(ops, Keep) + if op.kind == Keep then 1 else 0
  {
    DataPush(ops, op, Insert);
    DataPush(ops, op, Delete);
    CountPush(ops, op, Keep);
  }

  lemma {:induction false} ScriptEdits(a: seq<Bytes>, b: seq<Bytes>, i: nat, j: nat)
    requires i <= |a| && j <= |b|
    ensures Edits(Script(a, b, i, j), a, i, b, j, Lcs(a, b, i, j))
    decreases i + j
  {
    hide Edits, Lcs, Line;
    LcsEdge(a, b);
    if i > 0 && j > 0 { LcsStep(a, b, i, j); }
    if i == 0 && j == 0 {
      EditsNothing(a, b);
    } else if i > 0 && j > 0 && a[i - 1] == b[j - 1] {
      ScriptEdits(a, b, i - 1, j - 1);
      EditsPush(Script(a, b, i - 1, j - 1), a, i - 1, b, j - 1, Lcs(a, b, i - 1, j - 1));
    } else if i > 0 && (j == 0 || Lcs(a, b, i - 1, j) > Lcs(a, b, i, j - 1)) {
      ScriptEdits(a, b, i - 1, j);
      EditsPush(Script(a, b, i - 1, j), a, i - 1, b, j, Lcs(a, b, i - 1, j));
    } else {
      ScriptEdits(a, b, i, j - 1);
      EditsPush(Script(a, b, i, j - 1), a, i, b, j - 1, Lcs(a, b, i, j - 1));
    }
  }

  /** What any script keeps is a common subsequence of what it reads and writes. */
  lemma {:induction false} KeptIsCommon(ops: seq<Op>)
    ensures Subsequence(KeptData(ops), OldData(ops)) && Subsequence(KeptData(ops), NewData(ops))
    ensures |KeptData(ops)| == Count(ops, Keep)
    ensures |OldData(ops)| == Count(ops, Keep) + Count(ops, Delete)
    ensures |NewData(ops)| == Count(ops, Keep) + Count(ops, Insert)
  {
    if ops != [] {
      var init, op := ops[..|ops| - 1], ops[|ops| - 1];
      KeptIsCommon(init);
      SubsequencePush(KeptData(init), OldData(init), op.data);
      SubsequencePush(KeptData(init), NewData(init), op.data);
      hide Subsequence;
    }
  }

  /** Adding the newline to every line changes no common subsequence length. */
  lemma {:induction false} LcsOfLines(a: seq<Bytes>, b: seq<Bytes>, i: nat, j: nat)
    requires i <= |a| && j <= |b|
    ensures Lcs(AsLines(a), AsLines(b), i, j) == Lcs(a, b, i, j)
    decreases i + j
  {
    hide Lcs, AsLines;
    LcsEdge(a, b);
    LcsEdge(AsLines(a), AsLines(b));
    if i > 0 && j > 0 {
      LcsOfLines(a, b, i - 1, j - 1);
      LcsOfLines(a, b, i - 1, j);
      LcsOfLines(a, b, i, j - 1);
      LineInjective(a[i - 1], b[j - 1]);
      LcsStep(a, b, i, j);
      LcsStep(AsLines(a), AsLines(b), i, j);
    }
  }

  lemma LineInjective(x: Bytes, y: Bytes)
    ensures Line(x) == Line(y) <==> x == y
  {
    assert Line(x)[..|Line(x)| - 1] == x && Line(y)[..|Line(y)| - 1] == y;
  }

  /** The backtracked script is an edit script, and no edit script for the same lines uses
      fewer deletions plus insertions. */
  lemma ScriptIsMinimal(a: seq<Bytes>, b: seq<Bytes>, other: seq<Op>)
    requires IsEditScript(other, a, b)
    ensures IsEditScript(Script(a, b, |a|, |b|), a, b)
    ensures var ops := Script(a, b, |a|, |b|);
      Count(ops, Delete) + Count(ops, Insert) <= Count(other, Delete) + Count(other, Insert)
  {
    var ops := Script(a, b, |a|, |b|);
    ScriptEdits(a, b, |a|, |b|);
    assert a[..|a|] == a && b[..|b|] == b;
    KeptIsCommon(ops);
    KeptIsCommon(other);
    var x, y := AsLines(a), AsLines(b);
    assert x[..|x|] == x && y[..|y|] == y;
    LcsIsUpperBound(x, y, |x|, |y|, KeptData(other));
    LcsOfLines(a, b, |a|, |b|);
  }

  // ------------------------------------------------------------------ deletions come first

  /** No insertion is directly followed by a deletion. */
  ghost predicate DeletesFirst(ops: seq<Op>) {
    forall k :: 0 < k < |ops| ==> !(ops[k - 1].kind == Insert && ops[k].kind == Delete)
  }

  lemma DeletesFirstPush(ops: seq<Op>, op: Op)
    requires DeletesFirst(ops) && (op.kind == Delete && ops != [] ==> ops[|ops| - 1].kind != Insert)
    ensures DeletesFirst(ops + [op])
  {
  }

  /** Where backtracking deletes although lines remain on both sides, it does not insert next. */
  lemma DeleteThenNoInsert(a: seq<Bytes>, b: seq<Bytes>, i: nat, j: nat)
    requires 0 < i <= |a| && 0 < j <= |b| && Lcs(a, b, i - 1, j) > Lcs(a, b, i, j - 1)
    ensures Script(a, b, i - 1, j) != [] && Script(a, b, i - 1, j)[|Script(a, b, i - 1, j)| - 1].kind != Insert
  {
    LcsEdge(a, b);
    LcsMonotone(a, b, i, j - 1);
  }

  lemma LcsMonotone(a: seq<Bytes>, b: seq<Bytes>, i: nat, j: nat)
    requires 0 < i <= |a| && j <= |b|
    ensures Lcs(a, b, i - 1, j) <= Lcs(a, b, i, j)
  {
    var c := LcsIsAttained(a, b, i - 1, j);
    assert a[..i][..i - 1] == a[..i - 1];
    SubsequenceExtends(c, a[..i]);
    LcsIsUpperBound(a, b, i, j, c);
  }

  /** Within each changed stretch the script deletes before it inserts. */
  lemma {:induction false} ScriptDeletesFirst(a: seq<Bytes>, b: seq<Bytes>, i: nat, j: nat)
    requires i <= |a| && j <= |b|
    ensures DeletesFirst(Script(a, b, i, j))
    ensures j == 0 ==> forall k :: 0 <= k < |Script(a, b, i, j)| ==> Script(a, b, i, j)[k].kind == Delete
    decreases i + j
  {
    hide Lcs, DeletesFirst, Line;
    if i > 0 && j > 0 && a[i - 1] == b[j - 1] {
      ScriptDeletesFirst(a, b, i - 1, j - 1);
      DeletesFirstPush(Script(a, b, i - 1, j - 1), Op(Keep, Line(a[i - 1])));
    } else if i > 0 && (j == 0 || Lcs(a, b, i - 1, j) > Lcs(a, b, i, j - 1)) {
      ScriptDeletesFirst(a, b, i - 1, j);
      if j > 0 { DeleteThenNoInsert(a, b, i, j); }
      DeletesFirstPush(Script(a, b, i - 1, j), Op(Delete, Line(a[i - 1])));
    } else if j > 0 {
      ScriptDeletesFirst(a, b, i, j - 1);
      DeletesFirstPush(Script(a, b, i, j - 1), Op(Insert, Line(b[j - 1])));
    } else {
      DeletesFirstNone();
    }
  }

  lemma DeletesFirstNone()
    ensures DeletesFirst([])
  {
  }

  // ------------------------------------------------------------------ compaction

  function Compact(ops: seq<Op>): seq<Op> {
    if ops == [] then []
    else Pushed(Compact(ops[..|ops| - 1]), ops[|ops| - 1])
  }

  function Pushed(done: seq<Op>, op: Op): seq<Op> {
    if done != [] && done[|done| - 1].kind == op.kind && op.kind != Keep then
      done[|done| - 1 := Op(op.kind, done[|done| - 1].data + op.data)]
    else done + [op]
  }

  /** No two adjacent deletes and no two adjacent inserts. */
  ghost predicate IsCompact(ops: seq<Op>) {
    forall k :: 0 < k < |ops| ==> ops[k - 1].kind != ops[k].kind || ops[k].kind == Keep
  }

  lemma PushedKeeps(done: seq<Op>, op: Op, skip: Kind)
    ensures Concat(DataWithout(Pushed(done, op), skip)) ==
      if op.kind == skip then Concat(DataWithout(done, skip)) else Concat(DataWithout(done, skip)) + op.data
    ensures IsCompact(done) ==> IsCompact(Pushed(done, op))
    ensures Count(Pushed(done, op), Keep) == Count(done, Keep) + if op.kind == Keep then 1 else 0
    ensures Pushed(done, op) != []
  {
    hide DataWithout, Concat, Count;
    if done != [] && done[|done| - 1].kind == op.kind && op.kind != Keep {
      var head, last := done[..|done| - 1], done[|done| - 1];
      var merged := Op(op.kind, last.data + op.data);
      assert done == head + [last] && Pushed(done, op) == head + [merged];
      DataPush(head, last, skip);
      DataPush(head, merged, skip);
      ConcatPush(DataWithout(head, skip), last.data);
      ConcatPush(DataWithout(head, skip), merged.data);
      CountPush(head, last, Keep);
      CountPush(head, merged, Keep);
    } else {
      DataPush(done, op, skip);
      ConcatPush(DataWithout(done, skip), op.data);
      CountPush(done, op, Keep);
    }
  }

  lemma CompactEmpty()
    ensures Compact([]) == [] && IsCompact([])
  {
  }

  lemma CompactPush(ops: seq<Op>, op: Op)
    ensures Compact(ops + [op]) == Pushed(Compact(ops), op)
  {
    hide Pushed;
    assert (ops + [op])[..|ops|] == ops;
  }

  /** Compaction keeps deletions first, so that each stretch between kept lines is at most one
      deletion followed by at most one insertion. */
  lemma {:induction false} CompactDeletesFirst(ops: seq<Op>)
    requires DeletesFirst(ops)
    ensures DeletesFirst(Compact(ops))
    ensures ops != [] ==> Compact(ops) != [] && Compact(ops)[|Compact(ops)| - 1].kind == ops[|ops| - 1].kind
  {
    if ops != [] {
      CompactDeletesFirst(ops[..|ops| - 1]);
    }
  }

  lemma {:induction false} CompactKeeps(ops: seq<Op>, skip: Kind)
    ensures Concat(DataWithout(Compact(ops), skip)) == Concat(DataWithout(ops, skip))
    ensures IsCompact(Compact(ops))
    ensures Count(Compact(ops), Keep) == Count(ops, Keep)
    ensures ops != [] ==> Compact(ops) != []
  {
    hide DataWithout, Concat, Count, Pushed, IsCompact, Compact;
    if ops == [] {
      CompactEmpty();
    } else {
      var init, op := ops[..|ops| - 1], ops[|ops| - 1];
      assert ops == init + [op];
      CompactKeeps(init, skip);
      CompactPush(init, op);
      PushedKeeps(Compact(init), op, skip);
      DataPush(init, op, skip);
      ConcatPush(DataWithout(init, skip), op.data);
      CountPush(init, op, Keep);
    }
  }

  lemma {:induction false} ConcatLines(lines: seq<Bytes>)
    ensures Concat(AsLines(lines)) == Unsplit(lines)
  {
    if lines != [] {
      ConcatLines(lines[..|lines| - 1]);
      ConcatLast(AsLines(lines));
      assert AsLines(lines)[..|lines| - 1] == AsLines(lines[..|lines| - 1]);
    }
  }

  // ------------------------------------------------------------------ size and decision

  function SerializedSize(ops: seq<Op>): nat {
    if ops == [] then 0 else SerializedSize(ops[..|ops| - 1]) + 1 + |ops[|ops| - 1].data|
  }

  function Data(ops: seq<Op>): seq<Bytes> {
    seq(|ops|, k requires 0 <= k < |ops| => ops[k].data)
  }

  /** One byte per op, and its data. */
  lemma {:induction false} SizeIsExact(ops: seq<Op>)
    ensures SerializedSize(ops) == |ops| + |Concat(Data(ops))|
  {
    if ops != [] {
      SizeIsExact(ops[..|ops| - 1]);
      ConcatLast(Data(ops));
      assert Data(ops)[..|ops| - 1] == Data(ops[..|ops| - 1]);
    }
  }

  lemma {:induction false} SizeBound(ops: seq<Op>)
    ensures SerializedSize(ops) >= |Concat(NewData(ops))| + |ops|
  {
    if ops != [] {
      var init, op := ops[..|ops| - 1], ops[|ops| - 1];
      SizeBound(init);
      if op.kind != Delete { ConcatPush(NewData(init), op.data); }
    }
  }

  /** What the whole computation promises about its ops. */
  ghost predicate Describes(ops: seq<Op>, before: Bytes, after: Bytes) {
    && Concat(OldData(ops)) == before + [NEWLINE]
    && Concat(NewData(ops)) == after + [NEWLINE]
    && IsCompact(ops) && ops != []
    && Count(ops, Keep) == Lcs(Split(before), Split(after), |Split(before)|, |Split(after)|)
    && SerializedSize(ops) > |after|
  }

  lemma CompactDescribes(before: Bytes, after: Bytes)
    ensures var a, b := Split(before), Split(after);
      Describes(Compact(Script(a, b, |a|, |b|)), before, after)
  {
    var a, b := Split(before), Split(after);
    var ops := Script(a, b, |a|, |b|);
    ScriptEdits(a, b, |a|, |b|);
    assert a[..|a|] == a && b[..|b|] == b;
    CompactKeeps(ops, Insert);
    CompactKeeps(ops, Delete);
    ConcatLines(a);
    ConcatLines(b);
    SplitRoundTrip(before);
    SplitRoundTrip(after);
    SizeBound(Compact(ops));
  }

  // ------------------------------------------------------------------ the loops

  method FillTable(a: seq<Bytes>, b: seq<Bytes>) returns (lcs: array2<int>)
    ensures fresh(lcs) && lcs.Length0 == |a| + 1 && lcs.Length1 == |b| + 1
    ensures forall i, j :: 0 <= i <= |a| && 0 <= j <= |b| ==> lcs[i, j] == Lcs(a, b, i, j)
  {
    hide Lcs;
    LcsEdge(a, b);
    var m, n := |a|, |b|;
    lcs := new int[m + 1, n + 1]((_, _) => 0);
    for i := 1 to m + 1
      invariant forall r, c :: 0 <= r < i && 0 <= c <= n ==> lcs[r, c] == Lcs(a, b, r, c)
      invariant forall r, c :: i <= r <= m && 0 <= c <= n ==> lcs[r, c] == 0
    {
      for j := 1 to n + 1
        invariant forall r, c :: 0 <= r < i && 0 <= c <= n ==> lcs[r, c] == Lcs(a, b, r, c)
        invariant forall c :: 0 <= c < j ==> lcs[i, c] == Lcs(a, b, i, c)
        invariant forall r, c :: i < r <= m && 0 <= c <= n ==> lcs[r, c] == 0
      {
        LcsStep(a, b, i, j);
        if a[i - 1] == b[j - 1] {
          lcs[i, j] := lcs[i - 1, j - 1] + 1;
        } else if lcs[i - 1, j] > lcs[i, j - 1] {
          lcs[i, j] := lcs[i - 1, j];
        } else {
          lcs[i, j] := lcs[i, j - 1];
        }
      }
    }
  }

  function Reversed(ops: seq<Op>): (r: seq<Op>)
    ensures |r| == |ops|
    ensures forall k :: 0 <= k < |ops| ==> r[k] == ops[|ops| - 1 - k]
  {
    seq(|ops|, k requires 0 <= k < |ops| => ops[|ops| - 1 - k])
  }

  method Backtrack(a: seq<Bytes>, b: seq<Bytes>, lcs: array2<int>) returns (ops: seq<Op>)
    requires lcs.Length0 == |a| + 1 && lcs.Length1 == |b| + 1
    requires forall i, j :: 0 <= i <= |a| && 0 <= j <= |b| ==> lcs[i, j] == Lcs(a, b, i, j)
    ensures Reversed(ops) == Script(a, b, |a|, |b|)
  {
    var i, j := |a|, |b|;
    ops := [];
    while i > 0 && j > 0
      invariant 0 <= i <= |a| && 0 <= j <= |b|
      invariant Script(a, b, i, j) + Reversed(ops) == Script(a, b, |a|, |b|)
    {
      if a[i - 1] == b[j - 1] {
        PushReversed(ops, Op(Keep, Line(a[i - 1])), Script(a, b, i - 1, j - 1));
        ops := ops + [Op(Keep, Line(a[i - 1]))];
        i, j := i - 1, j - 1;
      } else if lcs[i - 1, j] > lcs[i, j - 1] {
        PushReversed(ops, Op(Delete, Line(a[i - 1])), Script(a, b, i - 1, j));
        ops := ops + [Op(Delete, Line(a[i - 1]))];
        i := i - 1;
      } else {
        PushReversed(ops, Op(Insert, Line(b[j - 1])), Script(a, b, i, j - 1));
        ops := ops + [Op(Insert, Line(b[j - 1]))];
        j := j - 1;
      }
    }
    while i > 0
      invariant 0 <= i <= |a| && 0 <= j <= |b| && (i == 0 || j == 0)
      invariant Script(a, b, i, j) + Reversed(ops) == Script(a, b, |a|, |b|)
    {
      PushReversed(ops, Op(Delete, Line(a[i - 1])), Script(a, b, i - 1, j));
      ops := ops + [Op(Delete, Line(a[i - 1]))];
      i := i - 1;
    }
    while j > 0
      invariant i == 0 && 0 <= j <= |b|
      invariant Script(a, b, i, j) + Reversed(ops) == Script(a, b, |a|, |b|)
    {
      PushReversed(ops, Op(Insert, Line(b[j - 1])), Script(a, b, i, j - 1));
      ops := ops + [Op(Insert, Line(b[j - 1]))];
      j := j - 1;
    }
  }

  lemma PushReversed(ops: seq<Op>, op: Op, head: seq<Op>)
    ensures head + [op] + Reversed(ops) == head + Reversed(ops + [op])
  {
    assert Reversed(ops + [op]) == [op] + Reversed(ops);
  }

  method ReverseOps(ops: seq<Op>) returns (r: seq<Op>)
    ensures r == Reversed(ops)
  {
    r := ops;
    var left, right := 0, |ops| - 1;
    while left < right
      invariant 0 <= left && left + right == |ops| - 1 && |r| == |ops| && left <= right + 1
      invariant forall k :: 0 <= k < left ==> r[k] == ops[|ops| - 1 - k]
      invariant forall k :: right < k < |ops| ==> r[k] == ops[|ops| - 1 - k]
      invariant forall k :: left <= k <= right ==> r[k] == ops[k]
    {
      r := r[left := r[right]][right := r[left]];
      left, right := left + 1, right - 1;
    }
  }

  method CompactOps(ops: seq<Op>) returns (compacted: seq<Op>)
    ensures compacted == Compact(ops)
  {
    compacted := [];
    for k := 0 to |ops|
      invariant compacted == Compact(ops[..k])
    {
      assert ops[..k + 1][..k] == ops[..k];
      var op := ops[k];
      if |compacted| > 0 && compacted[|compacted| - 1].kind == op.kind && op.kind != Keep {
        compacted := compacted[|compacted| - 1 := Op(op.kind, compacted[|compacted| - 1].data + op.data)];
      } else {
        compacted := compacted + [op];
      }
    }
    assert ops[..|ops|] == ops;
  }

  method MeasureSize(ops: seq<Op>) returns (total: int)
    ensures total == SerializedSize(ops)
  {
    total := 0;
    for k := 0 to |ops|
      invariant total == SerializedSize(ops[..k])
    {
      assert ops[..k + 1][..k] == ops[..k];
      total := total + 1 + |ops[k].data|;
    }
    assert ops[..|ops|] == ops;
  }

  datatype Delta = TooLarge | Delta(ops: seq<Op>, savedBytes: int)

  method ComputeDelta(before: Bytes, after: Bytes) returns (d: Delta)
    ensures d.TooLarge? <==> |Split(before)| > 200 || |Split(after)| > 200
    ensures d.Delta? ==> Describes(d.ops, before, after) && d.savedBytes == 0 && d.ops != []
    ensures d.Delta? ==> DeletesFirst(d.ops)
    ensures d.Delta? ==> d.ops == Compact(Script(Split(before), Split(after), |Split(before)|, |Split(after)|))
  {
    var a, b := Split(before), Split(after);
    if |a| > MAX_LINES || |b| > MAX_LINES { return TooLarge; }
    var lcs := FillTable(a, b);
    var reversed := Backtrack(a, b, lcs);
    var ops := ReverseOps(reversed);
    var compacted := CompactOps(ops);
    CompactDescribes(before, after);
    ScriptDeletesFirst(a, b, |a|, |b|);
    CompactDeletesFirst(ops);
    var size := MeasureSize(compacted);
    var saved := |after| - size;
    if saved < 0 { saved := 0; }
    d := Delta(compacted, saved);
  }

  /** The encoder's decision. The content is never changed and the reported saving is always 0;
      a delta is reported only for empty content (0/0 compares as not below any threshold)
      or a threshold that is not positive. */
  method Encode(connected: bool, baseline: Option<Bytes>, content: Bytes, minSavingsPct: real)
    returns (out: Bytes, saved: int, reported: bool, newBaseline: Option<Bytes>)
    ensures out == content && saved == 0
    ensures reported <==>
      && connected && baseline.Some?
      && |content| <= 50000 && |baseline.value| <= 50000
      && |Split(baseline.value)| <= 200 && |Split(content)| <= 200
      && (content == [] || minSavingsPct <= 0.0)
    ensures newBaseline == if connected && (baseline.None? || reported) then Some(content) else baseline
  {
    hide Split, Compact, Script, Describes;
    out, saved, reported, newBaseline := content, 0, false, baseline;
    if !connected { return; }
    if baseline.None? {
      newBaseline := Some(content);
      return;
    }
    if |content| > MAX_BYTES || |baseline.value| > MAX_BYTES { return; }
    var d := ComputeDelta(baseline.value, content);
    if d.TooLarge? || |d.ops| == 0 { return; }
    if |content| > 0 && d.savedBytes as real / |content| as real * 100.0 < minSavingsPct { return; }
    newBaseline := Some(content);
    saved, reported := d.savedBytes, true;
  }
}
