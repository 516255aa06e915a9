/** The content-defined chunker and its stable-first reordering. */
module Chunker {
  import opened Common

  const WORD := 0x1_0000_0000_0000_0000
  const BOUNDARY_MOD := 256

  datatype Config = Config(minChunk: int, maxChunk: int, window: int, stableThreshold: int)
  {
    /** The ordering of parameters that the chunk boundaries rely on. */
    predicate Ordered() {
      1 <= window <= minChunk <= maxChunk
    }
  }

  /** The 64-bit wrapping hash of a window. */
  function Hash(w: Bytes): (h: int)
    ensures 0 <= h < WORD
  {
    if w == [] then 0 else (Hash(w[..|w| - 1]) * 31 + w[|w| - 1] as int) % WORD
  }

  function Pow31(k: nat): int {
    if k == 0 then 1 else 31 * Pow31(k - 1)
  }

  /** The sum of w[k] * 31^(n - 1 - k), without wrap-around. */
  function Polynomial(w: Bytes): int {
    if w == [] then 0 else w[0] as int * Pow31(|w| - 1) + Polynomial(w[1..])
  }

  lemma {:induction false} PolynomialPush(w: Bytes, b: byte)
    ensures Polynomial(w + [b]) == Polynomial(w) * 31 + b as int
  {
    var all := w + [b];
    if w == [] {
      assert all[1..] == [] && Pow31(0) == 1;
    } else {
      assert all[1..] == w[1..] + [b];
      PolynomialPush(w[1..], b);
      var x, p := w[0] as int, Pow31(|w| - 1);
      assert x * (31 * p) == x * p * 31;
    }
  }

  /** The wrapping hash is the polynomial modulo 2^64; for the boundary test, which only looks
      at it modulo 256, the wrap-around makes no difference. */
  lemma {:induction false} HashIsPolynomial(w: Bytes)
    ensures Polynomial(w) >= 0 && Hash(w) == Polynomial(w) % WORD
    ensures Hash(w) % 256 == Polynomial(w) % 256
  {
    hide Polynomial;
    if w == [] {
      PolynomialOfNone(w);
    } else {
      var init, last := w[..|w| - 1], w[|w| - 1];
      HashIsPolynomial(init);
      assert w == init + [last];
      PolynomialPush(init, last);
      WrapStep(Polynomial(init), Hash(init), last as int);
    }
    WrapKeepsLowByte(Polynomial(w));
  }

  lemma PolynomialOfNone(w: Bytes)
    requires w == []
    ensures Polynomial(w) == 0
  {
  }

  lemma WrapStep(p: int, h: int, b: int)
    requires h == p % WORD
    ensures (h * 31 + b) % WORD == (p * 31 + b) % WORD
  {
    MultipleOfWord(h * 31 + b, 31 * (p / WORD));
    assert p * 31 + b == h * 31 + b + 31 * (p / WORD) * WORD;
  }

  lemma MultipleOfWord(a: int, q: int)
    ensures (a + q * WORD) % WORD == a % WORD
  {
  }

  lemma WrapKeepsLowByte(p: int)
    ensures p % WORD % 256 == p % 256
  {
    LowByte(p % WORD, p / WORD * 0x100_0000_0000_0000);
  }

  lemma LowByte(a: int, q: int)
    ensures (a + q * 256) % 256 == a % 256
  {
  }

  /** The hash rolls: sliding the window drops the oldest byte's term and shifts the rest. */
  lemma PolynomialRolls(w: Bytes, b: byte)
    requires w != []
    ensures Polynomial(w[1..] + [b]) == (Polynomial(w) - w[0] as int * Pow31(|w| - 1)) * 31 + b as int
  {
    PolynomialPush(w[1..], b);
  }

  // ------------------------------------------------------------------ boundaries

  /** Whether a chunk that starts at 0 is cut before position i. */
  predicate CutsAt(c: Config, text: Bytes, i: nat)
    requires c.Ordered() && i < |text|
  {
    i >= c.minChunk && (i >= c.maxChunk || Hash(text[i - c.window..i]) % BOUNDARY_MOD == 0)
  }

  /** The first cut at or after i, or the length of the text. */
  function FirstCut(c: Config, text: Bytes, i: nat): (r: nat)
    requires c.Ordered() && i <= |text|
    ensures i <= r <= |text|
    ensures r < |text| ==> CutsAt(c, text, r)
    ensures forall k :: i <= k < r ==> !CutsAt(c, text, k)
    decreases |text| - i
  {
    if i == |text| || CutsAt(c, text, i) then i else FirstCut(c, text, i + 1)
  }

  /** The suffix-recursive specification: first chunk, then the chunks of the rest. */
  function Chunks(c: Config, text: Bytes): (r: seq<Bytes>)
    requires c.Ordered()
    ensures r != []
    decreases |text|
  {
    var cut := FirstCut(c, text, 0);
    if cut == |text| then [text] else [text[..cut]] + Chunks(c, text[cut..])
  }

  /** The chunks put together are the text, and every chunk but the last has an admissible size. */
  lemma {:induction false} ChunksPartition(c: Config, text: Bytes)
    requires c.Ordered()
    ensures Concat(Chunks(c, text)) == text
    ensures forall k :: 0 <= k < |Chunks(c, text)| - 1 ==> c.minChunk <= |Chunks(c, text)[k]| <= c.maxChunk
    ensures |Chunks(c, text)[|Chunks(c, text)| - 1]| <= c.maxChunk
    ensures text != [] ==> |Chunks(c, text)[|Chunks(c, text)| - 1]| > 0
    decreases |text|
  {
    var cut := FirstCut(c, text, 0);
    CutIsEarly(c, text);
    if cut == |text| {
      assert [text][1..] == [];
    } else {
      var rest := Chunks(c, text[cut..]);
      ChunksPartition(c, text[cut..]);
      var all := [text[..cut]] + rest;
      assert all[1..] == rest;
      assert text[..cut] + text[cut..] == text;
      assert forall k :: 0 < k < |all| ==> all[k] == rest[k - 1];
    }
  }

  lemma CutIsEarly(c: Config, text: Bytes)
    requires c.Ordered()
    ensures FirstCut(c, text, 0) <= c.maxChunk
  {
    assert c.maxChunk < |text| ==> CutsAt(c, text, c.maxChunk);
  }

  // ------------------------------------------------------------------ what a chunking is

  /** A chunk that has come this far is to be cut here: it is long enough, and it has reached
      the maximum or its last `window` bytes have a polynomial divisible by 256. */
  predicate Complete(c: Config, chunk: Bytes)
    requires c.Ordered()
  {
    |chunk| >= c.minChunk && (|chunk| >= c.maxChunk || Polynomial(chunk[|chunk| - c.window..]) % 256 == 0)
  }

  /** No shorter beginning of the chunk is complete. */
  ghost predicate Uncut(c: Config, chunk: Bytes)
    requires c.Ordered()
  {
    forall i :: 0 <= i < |chunk| ==> !Complete(c, chunk[..i])
  }

  /** The parts make up the text, every part but the last is complete, no part could have been
      cut earlier, and no empty part is left at the end. */
  ghost predicate IsChunking(c: Config, text: Bytes, parts: seq<Bytes>)
    requires c.Ordered()
  {
    && parts != [] && Concat(parts) == text
    && (forall k :: 0 <= k < |parts| ==> Uncut(c, parts[k]))
    && (forall k :: 0 <= k < |parts| - 1 ==> Complete(c, parts[k]))
    && (|parts| > 1 ==> parts[|parts| - 1] != [])
  }

  lemma CutsWhenComplete(c: Config, text: Bytes, i: nat)
    requires c.Ordered() && i < |text|
    ensures CutsAt(c, text, i) <==> Complete(c, text[..i])
  {
    if i >= c.minChunk {
      assert text[..i][i - c.window..] == text[i - c.window..i];
      HashIsPolynomial(text[i - c.window..i]);
    }
  }

  lemma FirstCutIsUncut(c: Config, text: Bytes, n: nat)
    requires c.Ordered() && n <= |text|
    ensures FirstCut(c, text, 0) == n <==> Uncut(c, text[..n]) && (n < |text| ==> Complete(c, text[..n]))
  {
    hide CutsAt, Complete;
    forall i | 0 <= i < |text| ensures CutsAt(c, text, i) <==> Complete(c, text[..i]) {
      CutsWhenComplete(c, text, i);
    }
    forall i | 0 <= i < n ensures text[..n][..i] == text[..i] {
    }
    if FirstCut(c, text, 0) == n {
      forall i | 0 <= i < n ensures !Complete(c, text[..n][..i]) {
        assert !CutsAt(c, text, i);
      }
    }
    if Uncut(c, text[..n]) && (n < |text| ==> Complete(c, text[..n])) {
      forall i | 0 <= i < n ensures !CutsAt(c, text, i) {
        assert !Complete(c, text[..n][..i]);
      }
      FirstCutIs(c, text, n);
    }
  }

  /** The specification is a chunking ... */
  lemma {:induction false} ChunksAreChunking(c: Config, text: Bytes)
    requires c.Ordered()
    ensures IsChunking(c, text, Chunks(c, text))
    decreases |text|
  {
    hide CutsAt, Complete, Uncut;
    var cut := FirstCut(c, text, 0);
    ChunksPartition(c, text);
    FirstCutIsUncut(c, text, cut);
    assert cut == |text| ==> text[..cut] == text;
    if cut < |text| {
      var rest := Chunks(c, text[cut..]);
      ChunksAreChunking(c, text[cut..]);
      var all := [text[..cut]] + rest;
      assert forall k :: 0 < k < |all| ==> all[k] == rest[k - 1];
    }
  }

  /** ... and the only one. */
  lemma {:induction false} ChunkingIsUnique(c: Config, text: Bytes, parts: seq<Bytes>)
    requires c.Ordered() && IsChunking(c, text, parts)
    ensures parts == Chunks(c, text)
    decreases |parts|
  {
    hide CutsAt, Complete, Uncut, FirstCut;
    var n, rest := |parts[0]|, parts[1..];
    assert text == parts[0] + Concat(rest);
    assert text[..n] == parts[0] && text[n..] == Concat(rest);
    FirstCutIsUncut(c, text, n);
    if |parts| == 1 {
      assert rest == [] && parts[0] + [] == parts[0] && parts == [parts[0]];
    } else {
      LastIsPart(rest);
      CompleteIsLong(c, parts[0]);
      ChunkingIsUnique(c, text[n..], rest);
      assert parts == [parts[0]] + rest;
    }
  }

  lemma CompleteIsLong(c: Config, chunk: Bytes)
    requires c.Ordered() && Complete(c, chunk)
    ensures chunk != []
  {
  }

  lemma LastIsPart(parts: seq<Bytes>)
    requires parts != [] && parts[|parts| - 1] != []
    ensures Concat(parts) != []
  {
    ConcatLast(parts);
  }

  // ------------------------------------------------------------------ locality of boundaries

  /** b is an interior chunk boundary of the text. */
  predicate IsBoundary(c: Config, text: Bytes, b: nat)
    requires c.Ordered()
    decreases |text|
  {
    var cut := FirstCut(c, text, 0);
    cut < |text| && (b == cut || (b > cut && IsBoundary(c, text[cut..], b - cut)))
  }

  /** After any boundary the remaining chunks are the chunks of the remaining text. */
  lemma {:induction false} ChunksAfterBoundary(c: Config, text: Bytes, b: nat) returns (k: nat)
    requires c.Ordered() && IsBoundary(c, text, b)
    ensures b < |text| && k < |Chunks(c, text)|
    ensures Concat(Chunks(c, text)[..k]) == text[..b]
    ensures Chunks(c, text)[k..] == Chunks(c, text[b..])
    decreases |text|
  {
    var cut := FirstCut(c, text, 0);
    var rest := Chunks(c, text[cut..]);
    if b == cut {
      k := 1;
      assert ([text[..cut]] + rest)[..1] == [text[..cut]];
      assert [text[..cut]][1..] == [];
    } else {
      k := ChunksAfterBoundary(c, text[cut..], b - cut);
      assert ([text[..cut]] + rest)[..k + 1] == [text[..cut]] + rest[..k];
      assert ([text[..cut]] + rest[..k])[1..] == rest[..k];
      assert text[..cut] + text[cut..][..b - cut] == text[..b];
      assert text[cut..][b - cut..] == text[b..];
      k := k + 1;
    }
  }

  /** Two texts that agree after a boundary of each have identical remaining chunks. */
  lemma SameSuffixSameChunks(c: Config, s: Bytes, b: nat, t: Bytes, d: nat) returns (i: nat, j: nat)
    requires c.Ordered() && IsBoundary(c, s, b) && IsBoundary(c, t, d)
    requires b <= |s| && d <= |t| && s[b..] == t[d..]
    ensures i < |Chunks(c, s)| && j < |Chunks(c, t)|
    ensures Concat(Chunks(c, s)[..i]) == s[..b] && Concat(Chunks(c, t)[..j]) == t[..d]
    ensures Chunks(c, s)[i..] == Chunks(c, t)[j..]
  {
    i := ChunksAfterBoundary(c, s, b);
    j := ChunksAfterBoundary(c, t, d);
  }

  lemma SamePrefixSameCut(c: Config, s: Bytes, t: Bytes, n: nat)
    requires c.Ordered() && n < |s| && n < |t| && s[..n] == t[..n]
    ensures FirstCut(c, s, 0) <= n || FirstCut(c, t, 0) <= n ==> FirstCut(c, s, 0) == FirstCut(c, t, 0)
  {
    forall i | 0 <= i <= n ensures CutsAt(c, s, i) == CutsAt(c, t, i) {
      if i >= c.minChunk {
        assert s[i - c.window..i] == s[..n][i - c.window..i];
        assert t[i - c.window..i] == t[..n][i - c.window..i];
      }
    }
    var a, b := FirstCut(c, s, 0), FirstCut(c, t, 0);
    assert a <= n ==> CutsAt(c, s, a);
    assert b <= n ==> CutsAt(c, t, b);
  }

  /** Texts with a common prefix have the same boundaries inside it. */
  lemma {:induction false} SamePrefixSameBoundaries(c: Config, s: Bytes, t: Bytes, n: nat, b: nat)
    requires c.Ordered() && n < |s| && n < |t| && s[..n] == t[..n] && b <= n
    ensures IsBoundary(c, s, b) == IsBoundary(c, t, b)
    decreases |s|
  {
    SamePrefixSameCut(c, s, t, n);
    var cut := FirstCut(c, s, 0);
    if cut <= n && b > cut {
      CutIsPositive(c, s);
      assert s[cut..][..n - cut] == s[..n][cut..];
      assert t[cut..][..n - cut] == t[..n][cut..];
      SamePrefixSameBoundaries(c, s[cut..], t[cut..], n - cut, b - cut);
    }
  }

  lemma CutIsPositive(c: Config, text: Bytes)
    requires c.Ordered() && text != []
    ensures FirstCut(c, text, 0) > 0
  {
    assert !CutsAt(c, text, 0);
  }

  // ------------------------------------------------------------------ the loop

  method WindowHash(content: Bytes, from: nat, to: nat) returns (hash: int)
    requires from <= to <= |content|
    ensures hash == Hash(content[from..to])
  {
    hash := 0;
    for j := from to to
      invariant hash == Hash(content[from..j])
    {
      assert content[from..j + 1][..j - from] == content[from..j];
      hash := (hash * 31 + content[j] as int) % WORD;
    }
  }

  /** The index loop. Whatever the parameters, the chunks make up the content; with ordered
      parameters they are those of the suffix-recursive specification. */
  method ChunkLoop(c: Config, content: Bytes) returns (chunks: seq<Bytes>)
    requires c.window >= 0
    ensures Concat(chunks) == content
    ensures c.Ordered() ==> chunks == Chunks(c, content) && IsChunking(c, content, chunks)
  {
    hide Chunks, IsChunking;
    chunks := IndexLoop(c, content);
    if c.Ordered() { ChunksAreChunking(c, content); }
  }

  method IndexLoop(c: Config, content: Bytes) returns (chunks: seq<Bytes>)
    requires c.window >= 0
    ensures Concat(chunks) == content
    ensures c.Ordered() ==> chunks == Chunks(c, content)
  {
    hide Hash, FirstCut, Chunks, Concat;
    ConcatEmpty();
    if |content| < c.minChunk {
      if c.Ordered() { ChunksStep(c, content, |content|); }
      ConcatPush([], content);
      assert [] + [content] == [content];
      return [content];
    }
    chunks := [];
    var start := 0;
    var i := c.window;
    assert content[0..] == content;
    while i < |content|
      invariant 0 <= start <= i && start <= |content| && c.window <= i
      invariant start == |content| ==> content == []
      invariant i <= |content| || start == 0
      invariant Concat(chunks) == content[..start]
      invariant c.Ordered() ==>
        && chunks + Chunks(c, content[start..]) == Chunks(c, content)
        && forall k :: 0 <= k < i - start && k < |content| - start ==> !CutsAt(c, content[start..], k)
    {
      var cut := false;
      if i - start >= c.maxChunk {
        cut := true;
      } else if i - start >= c.minChunk {
        var hash := WindowHash(content, i - c.window, i);
        if c.Ordered() { SliceOfSuffix(content, start, i - c.window, i); }
        cut := hash % BOUNDARY_MOD == 0;
      }
      assert c.Ordered() ==> cut == CutsAt(c, content[start..], i - start);
      if cut {
        if c.Ordered() {
          ghost var text := content[start..];
          ChunksStep(c, text, i - start);
          SliceOfSuffix(content, start, start, i);
        }
        ConcatPush(chunks, content[start..i]);
        assert content[..start] + content[start..i] == content[..i];
        chunks := chunks + [content[start..i]];
        start := i;
      }
      i := i + 1;
    }
    if c.Ordered() { ChunksStep(c, content[start..], |content| - start); }
    assert content[..start] + content[start..] == content;
    if start < |content| {
      ConcatPush(chunks, content[start..]);
      chunks := chunks + [content[start..]];
    }
  }

  lemma SliceOfSuffix(s: Bytes, start: nat, a: nat, b: nat)
    requires start <= a <= b <= |s|
    ensures s[start..][a - start..b - start] == s[a..b]
    ensures s[start..][..b - start] == s[start..b] && s[start..][b - start..] == s[b..]
  {
  }

  lemma ConcatEmpty()
    ensures Concat([]) == []
  {
  }

  /** Unfolding the specification at its first cut. */
  lemma ChunksStep(c: Config, text: Bytes, i: nat)
    requires c.Ordered() && i <= |text|
    requires forall k :: 0 <= k < i ==> !CutsAt(c, text, k)
    requires i < |text| ==> CutsAt(c, text, i)
    ensures Chunks(c, text) == if i == |text| then [text] else [text[..i]] + Chunks(c, text[i..])
  {
    hide CutsAt;
    FirstCutIs(c, text, i);
  }

  lemma FirstCutIs(c: Config, text: Bytes, i: nat)
    requires c.Ordered() && i <= |text|
    requires forall k :: 0 <= k < i ==> !CutsAt(c, text, k)
    requires i < |text| ==> CutsAt(c, text, i)
    ensures FirstCut(c, text, 0) == i
  {
    hide CutsAt;
  }

  // ------------------------------------------------------------------ reordering

  type Digest = string

  datatype Chunk = Chunk(content: Bytes, isStable: bool)

  /** How often the digest of chunk i occurs among the chunks before it. */
  function Earlier(parts: seq<Bytes>, digest: Bytes -> Digest, d: Digest, i: nat): nat
    requires i <= |parts|
  {
    if i == 0 then 0 else Earlier(parts, digest, d, i - 1) + if digest(parts[i - 1]) == d then 1 else 0
  }

  function Seen(counts: map<Digest, int>, d: Digest): int {
    if d in counts then counts[d] else 0
  }

  /** A chunk is stable when its digest has been recorded, in the store or earlier in this very
      text, and the recorded count has reached the threshold. */
  predicate Stable(c: Config, counts: map<Digest, int>, parts: seq<Bytes>, digest: Bytes -> Digest, i: nat)
    requires i < |parts|
  {
    var d := digest(parts[i]);
    var before := Earlier(parts, digest, d, i);
    (d in counts || before > 0) && Seen(counts, d) + before >= c.stableThreshold
  }

  function Flagged(c: Config, counts: map<Digest, int>, parts: seq<Bytes>, digest: Bytes -> Digest): (r: seq<Chunk>)
    ensures |r| == |parts|
  {
    seq(|parts|, i requires 0 <= i < |parts| => Chunk(parts[i], Stable(c, counts, parts, digest, i)))
  }

  function Select(chunks: seq<Chunk>, stable: bool): seq<Bytes> {
    if chunks == [] then []
    else
      var init := Select(chunks[..|chunks| - 1], stable);
      if chunks[|chunks| - 1].isStable == stable then init + [chunks[|chunks| - 1].content] else init
  }

  function Contents(chunks: seq<Chunk>): seq<Bytes> {
    seq(|chunks|, i requires 0 <= i < |chunks| => chunks[i].content)
  }

  function Size(parts: seq<Bytes>): nat {
    if parts == [] then 0 else Size(parts[..|parts| - 1]) + |parts[|parts| - 1]|
  }

  lemma {:induction false} ConcatSize(parts: seq<Bytes>)
    ensures |Concat(parts)| == Size(parts)
  {
    if parts != [] {
      ConcatSize(parts[..|parts| - 1]);
      ConcatLast(parts);
    }
  }

  lemma {:induction false} SizeAppend(a: seq<Bytes>, b: seq<Bytes>)
    ensures Size(a + b) == Size(a) + Size(b)
    decreases |b|
  {
    if b == [] {
      assert a + b == a;
    } else {
      SizeAppend(a, b[..|b| - 1]);
      assert (a + b)[..|a + b| - 1] == a + b[..|b| - 1];
    }
  }

  lemma SelectPush(chunks: seq<Chunk>, last: Chunk, stable: bool)
    ensures Select(chunks + [last], stable) ==
      Select(chunks, stable) + if last.isStable == stable then [last.content] else []
  {
    assert (chunks + [last])[..|chunks|] == chunks;
  }

  /** Selecting stable and novel chunks loses nothing. */
  lemma {:induction false} SelectPartitions(chunks: seq<Chunk>)
    ensures multiset(Select(chunks, true)) + multiset(Select(chunks, false)) == multiset(Contents(chunks))
  {
    if chunks != [] {
      var init, last := chunks[..|chunks| - 1], chunks[|chunks| - 1];
      SelectPartitions(init);
      assert chunks == init + [last];
      assert Contents(chunks) == Contents(init) + [last.content];
    }
  }

  /** Selecting is filtering in order: position k of the result is the k-th chunk with that
      flag. */
  lemma {:induction false} SelectIsFilter(chunks: seq<Chunk>, stable: bool) returns (at: seq<nat>)
    ensures |at| == |Select(chunks, stable)|
    ensures forall j, k :: 0 <= j < k < |at| ==> at[j] < at[k]
    ensures forall k :: 0 <= k < |at| ==>
      at[k] < |chunks| && chunks[at[k]].isStable == stable && Select(chunks, stable)[k] == chunks[at[k]].content
    ensures forall i :: 0 <= i < |chunks| && chunks[i].isStable == stable ==> i in at
  {
    if chunks == [] { return []; }
    var n := |chunks| - 1;
    at := SelectIsFilter(chunks[..n], stable);
    if chunks[n].isStable == stable { at := at + [n]; }
  }

  lemma {:induction false} SelectSizes(chunks: seq<Chunk>)
    ensures Size(Select(chunks, true)) + Size(Select(chunks, false)) == Size(Contents(chunks))
  {
    if chunks != [] {
      var init, last := chunks[..|chunks| - 1], chunks[|chunks| - 1];
      SelectSizes(init);
      assert chunks == init + [last];
      assert Contents(chunks) == Contents(init) + [last.content];
      SelectPush(init, last, true);
      SelectPush(init, last, false);
      SizeAppend(Select(init, last.isStable), [last.content]);
      SizeAppend(Contents(init), [last.content]);
    }
  }

  /** Reordering never changes the length. */
  lemma ReorderKeepsLength(text: Bytes, chunks: seq<Chunk>)
    requires Concat(Contents(chunks)) == text
    ensures |Concat(Select(chunks, true) + Select(chunks, false))| == |text|
  {
    SelectSizes(chunks);
    SizeAppend(Select(chunks, true), Select(chunks, false));
    ConcatSize(Select(chunks, true) + Select(chunks, false));
    ConcatSize(Contents(chunks));
  }

  // ------------------------------------------------------------------ what becomes stable

  lemma {:induction false} EarlierIsSize(parts: seq<Bytes>, digest: Bytes -> Digest, d: Digest, i: nat)
    requires i <= |parts|
    ensures Earlier(parts, digest, d, i) == |set j | 0 <= j < i && digest(parts[j]) == d|
  {
    var all := set j | 0 <= j < i && digest(parts[j]) == d;
    if i == 0 {
      assert all == {};
    } else {
      EarlierIsSize(parts, digest, d, i - 1);
      var before := set j | 0 <= j < i - 1 && digest(parts[j]) == d;
      assert all == before + if digest(parts[i - 1]) == d then {i - 1} else {};
    }
  }

  /** A digest that was never recorded makes a novel chunk, and recording more never turns a
      stable chunk novel. */
  lemma StableGrows(c: Config, counts: map<Digest, int>, more: map<Digest, int>, parts: seq<Bytes>, digest: Bytes -> Digest, i: nat)
    requires i < |parts|
    requires forall d :: d in counts ==> d in more && more[d] >= counts[d]
    requires forall d :: d in more ==> more[d] >= 0
    ensures Stable(c, counts, parts, digest, i) ==> Stable(c, more, parts, digest, i)
    ensures digest(parts[i]) !in counts && (forall j :: 0 <= j < i ==> digest(parts[j]) != digest(parts[i])) ==>
      !Stable(c, counts, parts, digest, i)
  {
    hide Earlier;
    var d := digest(parts[i]);
    EarlierIsSize(parts, digest, d, i);
    if forall j :: 0 <= j < i ==> digest(parts[j]) != d {
      var none := set j | 0 <= j < i && digest(parts[j]) == d;
      assert none == {};
    }
  }

  lemma {:induction false} EarlierGrows(parts: seq<Bytes>, digest: Bytes -> Digest, i: nat, n: nat)
    requires i < n <= |parts|
    ensures Earlier(parts, digest, digest(parts[i]), n) >= 1
  {
    if i < n - 1 { EarlierGrows(parts, digest, i, n - 1); }
  }

  /** Once the same text has been recorded as often as the threshold asks, and at least once,
      all its chunks are stable, so reordering gives the text back as it was. */
  lemma RepeatedTextIsStable(c: Config, stores: seq<map<Digest, int>>, parts: seq<Bytes>, digest: Bytes -> Digest)
    requires |stores| > 1 && |stores| - 1 >= c.stableThreshold && stores[0] == map[]
    requires forall k :: 0 <= k < |stores| - 1 ==> Recorded(stores[k], stores[k + 1], parts, digest, |parts|)
    ensures var chunks := Flagged(c, stores[|stores| - 1], parts, digest);
      Select(chunks, true) == parts && Select(chunks, false) == []
  {
    hide Earlier;
    var counts := stores[|stores| - 1];
    forall i | 0 <= i < |parts| ensures Stable(c, counts, parts, digest, i) {
      CountsGrow(stores, parts, digest, i);
    }
    AllStable(Flagged(c, counts, parts, digest));
    assert Contents(Flagged(c, counts, parts, digest)) == parts;
  }

  lemma {:induction false} CountsGrow(stores: seq<map<Digest, int>>, parts: seq<Bytes>, digest: Bytes -> Digest, i: nat)
    requires |stores| > 0 && stores[0] == map[] && i < |parts|
    requires forall k :: 0 <= k < |stores| - 1 ==> Recorded(stores[k], stores[k + 1], parts, digest, |parts|)
    ensures Seen(stores[|stores| - 1], digest(parts[i])) >= |stores| - 1
    ensures |stores| > 1 ==> digest(parts[i]) in stores[|stores| - 1]
    decreases |stores|
  {
    hide Earlier;
    if |stores| > 1 {
      var n := |stores| - 1;
      CountsGrow(stores[..n], parts, digest, i);
      EarlierGrows(parts, digest, i, |parts|);
      assert Recorded(stores[n - 1], stores[n], parts, digest, |parts|);
    }
  }

  lemma {:induction false} AllStable(chunks: seq<Chunk>)
    requires forall i :: 0 <= i < |chunks| ==> chunks[i].isStable
    ensures Select(chunks, true) == Contents(chunks) && Select(chunks, false) == []
  {
    if chunks != [] {
      var init := chunks[..|chunks| - 1];
      AllStable(init);
      assert Contents(chunks) == Contents(init) + [chunks[|chunks| - 1].content];
    }
  }

  class Chunker {
    const cfg: Config
    /** How often each digest has been recorded. */
    var counts: map<Digest, int>

    constructor (cfg: Config)
      ensures this.cfg == cfg && counts == map[]
    {
      this.cfg := cfg;
      counts := map[];
    }

    /** Stable chunks first, novel chunks last, each group in text order. The length never
        changes, so the reported saving is always zero. */
    method ChunkAndReorder(content: Bytes, digest: Bytes -> Digest) returns (result: Bytes, saved: int)
      requires cfg.window >= 0
      modifies this
      ensures |result| == |content| && saved == 0
      ensures cfg.Ordered() ==>
        var chunks := Flagged(cfg, old(counts), Chunks(cfg, content), digest);
        result == Concat(Select(chunks, true) + Select(chunks, false))
      ensures cfg.Ordered() ==>
        Recorded(old(counts), counts, Chunks(cfg, content), digest, |Chunks(cfg, content)|)
    {
      var parts := ChunkLoop(cfg, content);
      var chunks := FlagAndRecord(parts, digest);
      var reordered := PickLoop(chunks, true);
      var novel := PickLoop(chunks, false);
      reordered := reordered + novel;
      result := JoinLoop(reordered);
      assert Contents(chunks) == parts;
      ReorderKeepsLength(content, chunks);
      saved := |content| - |result|;
      if saved < 0 { saved := 0; }
    }

    /** The optimizer stage built on it replaces the text only for a positive saving, which
        never comes, so the text always passes through. */
    method OptimizeStage(text: Bytes, digest: Bytes -> Digest) returns (out: Bytes, saved: int)
      requires cfg.window >= 0
      modifies this
      ensures out == text && saved == 0
    {
      var opt, n := ChunkAndReorder(text, digest);
      out, saved := text, 0;
      if n > 0 {
        out, saved := opt, n;
      }
    }

    method FlagAndRecord(parts: seq<Bytes>, digest: Bytes -> Digest) returns (chunks: seq<Chunk>)
      modifies this
      ensures chunks == Flagged(cfg, old(counts), parts, digest)
      ensures Recorded(old(counts), counts, parts, digest, |parts|)
    {
      hide Earlier;
      chunks := [];
      EarlierNone(parts, digest);
      for i := 0 to |parts|
        invariant |chunks| == i
        invariant forall k :: 0 <= k < i ==> chunks[k] == Flagged(cfg, old(counts), parts, digest)[k]
        invariant Recorded(old(counts), counts, parts, digest, i)
      {
        var d := digest(parts[i]);
        var stable := d in counts && counts[d] >= cfg.stableThreshold;
        chunks := chunks + [Chunk(parts[i], stable)];
        RecordOne(old(counts), counts, parts, digest, i);
        counts := counts[d := Seen(counts, d) + 1];
      }
    }
  }

  /** The store after the first i chunks have been recorded. */
  ghost predicate Recorded(before: map<Digest, int>, now: map<Digest, int>, parts: seq<Bytes>, digest: Bytes -> Digest, i: nat)
    requires i <= |parts|
  {
    && (forall d :: Seen(now, d) == Seen(before, d) + Earlier(parts, digest, d, i))
    && (forall d :: d in now <==> d in before || Earlier(parts, digest, d, i) > 0)
  }

  lemma EarlierNone(parts: seq<Bytes>, digest: Bytes -> Digest)
    ensures forall d :: Earlier(parts, digest, d, 0) == 0
  {
  }

  lemma EarlierStep(parts: seq<Bytes>, digest: Bytes -> Digest, d: Digest, i: nat)
    requires i < |parts|
    ensures Earlier(parts, digest, d, i + 1) ==
      Earlier(parts, digest, d, i) + if digest(parts[i]) == d then 1 else 0
  {
  }

  lemma RecordOne(before: map<Digest, int>, now: map<Digest, int>, parts: seq<Bytes>, digest: Bytes -> Digest, i: nat)
    requires i < |parts| && Recorded(before, now, parts, digest, i)
    ensures var d := digest(parts[i]);
      Recorded(before, now[d := Seen(now, d) + 1], parts, digest, i + 1)
  {
    hide Earlier;
    var d := digest(parts[i]);
    var next := now[d := Seen(now, d) + 1];
    forall e
      ensures Seen(next, e) == Seen(before, e) + Earlier(parts, digest, e, i + 1)
      ensures e in next <==> e in before || Earlier(parts, digest, e, i + 1) > 0
    {
      EarlierStep(parts, digest, e, i);
      assert Seen(now, e) == Seen(before, e) + Earlier(parts, digest, e, i);
    }
  }

  method PickLoop(chunks: seq<Chunk>, stable: bool) returns (picked: seq<Bytes>)
    ensures picked == Select(chunks, stable)
  {
    picked := [];
    for i := 0 to |chunks|
      invariant picked == Select(chunks[..i], stable)
    {
      assert chunks[..i + 1][..i] == chunks[..i];
      if chunks[i].isStable == stable { picked := picked + [chunks[i].content]; }
    }
    assert chunks[..|chunks|] == chunks;
  }

  method JoinLoop(parts: seq<Bytes>) returns (text: Bytes)
    ensures text == Concat(parts)
  {
    text := [];
    for i := 0 to |parts|
      invariant text == Concat(parts[..i])
    {
      assert parts[..i + 1] == parts[..i] + [parts[i]];
      ConcatPush(parts[..i], parts[i]);
      text := text + parts[i];
    }
    assert parts[..|parts|] == parts;
  }
}
