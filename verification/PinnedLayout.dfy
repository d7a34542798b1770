/** The pinned embed path (src/inference.rs, vendor-fastembed/src/bgem3_dual/mod.rs): texts are laid out so every
    chunk has one shape, the whole batch is re-run while it comes back short, and the real rows are picked out.
    It must return what embedding each text on its own would return. */
module PinnedLayout {
  import opened Wrappers
  import opened Division

  // ---------- chunks ----------

  function Least(a: nat, b: nat): nat {
    if a < b then a else b
  }

  /** `slice::chunks`: consecutive pieces of `size`, the last one possibly shorter. */
  function Chunks<T>(s: seq<T>, size: nat): seq<seq<T>>
    requires size > 0
  {
    if s == [] then [] else [s[..Least(size, |s|)]] + Chunks(s[Least(size, |s|)..], size)
  }

  /** How many chunks of `size` cover `n` items. */
  function ChunkCount(n: nat, size: nat): nat
    requires size > 0
  {
    if n == 0 then 0 else 1 + ChunkCount(n - Least(size, n), size)
  }

  lemma {:induction false} ChunksCounted<T>(s: seq<T>, size: nat)
    requires size > 0
    ensures |Chunks(s, size)| == ChunkCount(|s|, size)
  {
    if s != [] {
      ChunksCounted(s[Least(size, |s|)..], size);
    }
  }

  lemma OneChunk(n: nat, size: nat)
    requires size > 0
    ensures ChunkCount(n, size) == 1 <==> 1 <= n <= size
  {
    if n > size {
      assert ChunkCount(n - size, size) >= 1;
    }
  }

  // ---------- the layout ----------

  function Rulers(n: nat, ruler: string): seq<string> {
    seq(n, _ => ruler)
  }

  /** One chunk of the layout: a ruler, the texts it carries, and rulers in the rows left over. */
  function Block(texts: seq<string>, b: nat, ruler: string): seq<string>
    requires |texts| < b
  {
    [ruler] + texts + Rulers(b - 1 - |texts|, ruler)
  }

  function Pinned(texts: seq<string>, b: nat, ruler: string): seq<string>
    requires b >= 2
  {
    if texts == [] then []
    else
      var m := Least(b - 1, |texts|);
      Block(texts[..m], b, ruler) + Pinned(texts[m..], b, ruler)
  }

  function Ascending(first: nat, n: nat): seq<nat> {
    seq(n, j requires 0 <= j => first + j)
  }

  /** The rows recorded for `n` texts laid out from row `base` on. */
  function PositionsFrom(n: nat, b: nat, base: nat): seq<nat>
    requires b >= 2
  {
    if n == 0 then []
    else
      var m := Least(b - 1, n);
      Ascending(base + 1, m) + PositionsFrom(n - m, b, base + b)
  }

  function Positions(n: nat, b: nat): seq<nat>
    requires b >= 2
  {
    PositionsFrom(n, b, 0)
  }

  /** The last chunk still has spare rows. */
  predicate Unfilled(rows: nat, b: nat)
    requires b > 0
  {
    rows % b != 0
  }

  /** `pin_shape`: one ruler leads each chunk, the tail is filled, and each text's row is recorded. */
  method PinShape(texts: seq<string>, maxBatch: nat, ruler: string)
    returns (expanded: seq<string>, positions: seq<nat>)
    requires maxBatch >= 2
    ensures expanded == Pinned(texts, maxBatch, ruler)
    ensures positions == Positions(|texts|, maxBatch)
  {
    hide Pinned, Block, PositionsFrom, Rulers, Ascending, Unfilled;
    expanded, positions := [], [];
    var start: nat := 0;
    NoRows(maxBatch);
    while start < |texts|
      invariant start <= |texts| && !Unfilled(|expanded|, maxBatch)
      invariant expanded + Pinned(texts[start..], maxBatch, ruler) == Pinned(texts, maxBatch, ruler)
      invariant positions + PositionsFrom(|texts| - start, maxBatch, |expanded|) == Positions(|texts|, maxBatch)
      decreases |texts| - start
    {
      var m := Least(maxBatch - 1, |texts| - start);
      var chunk := texts[start..start + m];
      ghost var laid, recorded := expanded, positions;
      expanded := expanded + [ruler];
      RunsStart(ruler, |laid| + 1);
      for j := 0 to |chunk|
        invariant expanded == laid + [ruler] + chunk[..j]
        invariant positions == recorded + Ascending(|laid| + 1, j)
      {
        RunsGrow(j, ruler, |laid| + 1);
        positions := positions + [|expanded|];
        expanded := expanded + [chunk[j]];
      }
      ghost var fill: nat := 0;
      RowsInBlock(|laid|, 1 + m, maxBatch);
      while Unfilled(|expanded|, maxBatch)
        invariant 1 + m + fill <= maxBatch
        invariant expanded == laid + [ruler] + chunk + Rulers(fill, ruler)
        invariant |expanded| == |laid| + 1 + m + fill
        invariant Unfilled(|expanded|, maxBatch) <==> 1 + m + fill < maxBatch
        decreases maxBatch - fill
      {
        RunsGrow(fill, ruler, 0);
        expanded := expanded + [ruler];
        fill := fill + 1;
        RowsInBlock(|laid|, 1 + m + fill, maxBatch);
      }
      BlockIsLaid(texts[start..], m, maxBatch, ruler, laid, expanded);
      RowsUnroll(|texts| - start, maxBatch, |laid|);
      assert texts[start..][m..] == texts[start + m..];
      Reassociate(recorded, Ascending(|laid| + 1, m), PositionsFrom(|texts| - start - m, maxBatch, |expanded|));
      start := start + m;
    }
    BareLayout(texts, maxBatch, ruler, |expanded|);
    assert expanded + [] == expanded && positions + [] == positions;
  }

  lemma RunsStart(ruler: string, first: nat)
    ensures Rulers(0, ruler) == [] && Ascending(first, 0) == []
  {
  }

  lemma RunsGrow(n: nat, ruler: string, first: nat)
    ensures |Rulers(n, ruler)| == |Ascending(first, n)| == n
    ensures Rulers(n + 1, ruler) == Rulers(n, ruler) + [ruler]
    ensures Ascending(first, n + 1) == Ascending(first, n) + [first + n]
  {
  }

  lemma NoRows(b: nat)
    requires b > 0
    ensures !Unfilled(0, b)
  {
    QuotientIsUnique(0, b, 0, 0);
  }

  /** `k` rows into a chunk that starts on a boundary, the chunk is full exactly when `k` is the batch. */
  lemma RowsInBlock(n: nat, k: nat, b: nat)
    requires 1 <= k <= b && !Unfilled(n, b)
    ensures Unfilled(n + k, b) <==> k < b
  {
    var blocks := n / b;
    if k == b {
      Distribute(blocks, 1, b);
      QuotientIsUnique(n + k, b, blocks + 1, 0);
    } else {
      QuotientIsUnique(n + k, b, blocks, k);
    }
  }

  lemma BareLayout(texts: seq<string>, b: nat, ruler: string, base: nat)
    requires b >= 2
    ensures Pinned(texts[|texts|..], b, ruler) == [] && PositionsFrom(0, b, base) == []
  {
  }

  lemma LayoutUnrolls(texts: seq<string>, b: nat, ruler: string)
    requires b >= 2 && texts != []
    ensures var m := Least(b - 1, |texts|);
            Pinned(texts, b, ruler) == Block(texts[..m], b, ruler) + Pinned(texts[m..], b, ruler)
  {
  }

  lemma RowsUnroll(n: nat, b: nat, base: nat)
    requires b >= 2 && n > 0
    ensures var m := Least(b - 1, n);
            PositionsFrom(n, b, base) == Ascending(base + 1, m) + PositionsFrom(n - m, b, base + b)
  {
  }

  lemma Reassociate<T>(x: seq<T>, y: seq<T>, z: seq<T>)
    ensures x + y + z == x + (y + z)
  {
  }

  lemma BlockIsLaid(rest: seq<string>, m: nat, b: nat, ruler: string, laid: seq<string>, expanded: seq<string>)
    requires b >= 2 && rest != [] && m == Least(b - 1, |rest|)
    requires expanded == laid + [ruler] + rest[..m] + Rulers(b - 1 - m, ruler)
    ensures |expanded| == |laid| + b
    ensures expanded + Pinned(rest[m..], b, ruler) == laid + Pinned(rest, b, ruler)
  {
    hide Pinned, Rulers;
    LayoutUnrolls(rest, b, ruler);
    var fill := Rulers(b - 1 - m, ruler);
    RulersCounted(b - 1 - m, ruler);
    Reassociate(laid, [ruler], rest[..m]);
    Reassociate(laid, [ruler] + rest[..m], fill);
    Reassociate(laid, [ruler] + rest[..m] + fill, Pinned(rest[m..], b, ruler));
  }

  lemma RulersCounted(n: nat, ruler: string)
    ensures |Rulers(n, ruler)| == n
  {
  }

  /** A text's row in closed form. */
  lemma {:induction false} RowInClosedForm(n: nat, b: nat, base: nat, i: nat)
    requires b >= 2 && i < n
    ensures |PositionsFrom(n, b, base)| == n
    ensures PositionsFrom(n, b, base)[i] == base + i / (b - 1) * b + 1 + i % (b - 1)
  {
    var m := Least(b - 1, n);
    if n > m {
      RowInClosedForm(n - m, b, base + b, if i < m then 0 else i - m);
    }
    if i < m {
      QuotientIsUnique(i, b - 1, 0, i);
    } else {
      StepUp(i - m, b - 1);
      Distribute((i - m) / (b - 1), 1, b);
    }
  }

  lemma PositionsCounted(n: nat, b: nat)
    requires b >= 2
    ensures |Positions(n, b)| == n
  {
    if n > 0 {
      RowInClosedForm(n, b, 0, 0);
    }
  }

  /** Text `i` of a list laid out from row `base` stands at its recorded row. */
  lemma {:induction false} TextAtItsRow(texts: seq<string>, b: nat, ruler: string, base: nat, i: nat)
    requires b >= 2 && i < |texts|
    ensures |PositionsFrom(|texts|, b, base)| == |texts|
    ensures base < PositionsFrom(|texts|, b, base)[i] < base + |Pinned(texts, b, ruler)|
    ensures Pinned(texts, b, ruler)[PositionsFrom(|texts|, b, base)[i] - base] == texts[i]
    decreases |texts|
  {
    hide Pinned, PositionsFrom, Block;
    RowInClosedForm(|texts|, b, base, i);
    LayoutUnrolls(texts, b, ruler);
    RowsUnroll(|texts|, b, base);
    var m := Least(b - 1, |texts|);
    if i < m {
      TextInBlock(texts[..m], b, ruler, i);
    } else {
      TextInBlock(texts[..m], b, ruler, 0);
      TextAtItsRow(texts[m..], b, ruler, base + b, i - m);
    }
  }

  lemma TextInBlock(texts: seq<string>, b: nat, ruler: string, i: nat)
    requires i < |texts| < b
    ensures |Block(texts, b, ruler)| == b && Block(texts, b, ruler)[1 + i] == texts[i]
  {
  }

  lemma {:induction false} RowsGrow(n: nat, b: nat, base: nat, i: nat)
    requires b >= 2 && i < n
    ensures |PositionsFrom(n, b, base)| == n
    ensures base < PositionsFrom(n, b, base)[i]
    ensures i > 0 ==> PositionsFrom(n, b, base)[i - 1] < PositionsFrom(n, b, base)[i]
  {
    var m := Least(b - 1, n);
    if n > m {
      RowsGrow(n - m, b, base + b, if i < m then 0 else i - m);
    }
  }

  lemma {:induction false} RowsGrowThroughout(n: nat, b: nat, j: nat, i: nat)
    requires b >= 2 && j < i < n
    ensures |Positions(n, b)| == n && Positions(n, b)[j] < Positions(n, b)[i]
  {
    RowsGrow(n, b, 0, i);
    if j < i - 1 {
      RowsGrowThroughout(n, b, j, i - 1);
    }
  }

  /** Text `i` stands at row `(i / (b-1)) * b + 1 + i % (b-1)`, and no two texts share a row. */
  lemma TextsAreAtTheirPositions(texts: seq<string>, b: nat, ruler: string, i: nat)
    requires b >= 2 && i < |texts|
    ensures |Positions(|texts|, b)| == |texts|
    ensures Positions(|texts|, b)[i] == i / (b - 1) * b + 1 + i % (b - 1)
    ensures Positions(|texts|, b)[i] < |Pinned(texts, b, ruler)|
    ensures Pinned(texts, b, ruler)[Positions(|texts|, b)[i]] == texts[i]
    ensures forall j | 0 <= j < i :: Positions(|texts|, b)[j] < Positions(|texts|, b)[i]
  {
    hide Pinned, PositionsFrom;
    RowInClosedForm(|texts|, b, 0, i);
    TextAtItsRow(texts, b, ruler, 0, i);
    forall j | 0 <= j < i ensures Positions(|texts|, b)[j] < Positions(|texts|, b)[i] {
      RowsGrowThroughout(|texts|, b, j, i);
    }
  }

  /** A row of the layout that is no text's row holds the ruler. */
  lemma {:induction false} OtherRowsAreRulersFrom(texts: seq<string>, b: nat, ruler: string, base: nat, r: nat)
    requires b >= 2 && r < |Pinned(texts, b, ruler)| && base + r !in PositionsFrom(|texts|, b, base)
    ensures Pinned(texts, b, ruler)[r] == ruler
    decreases |texts|
  {
    if texts != [] {
      hide Pinned, PositionsFrom, Block, Ascending;
      var m := Least(b - 1, |texts|);
      LayoutUnrolls(texts, b, ruler);
      RowsUnroll(|texts|, b, base);
      BlockCounted(texts[..m], b, ruler);
      if r < b {
        TextRowsAscend(m, base, r);
        BlockBesides(texts[..m], b, ruler, r);
      } else {
        OtherRowsAreRulersFrom(texts[m..], b, ruler, base + b, r - b);
      }
    }
  }

  lemma TextRowsAscend(m: nat, base: nat, r: nat)
    ensures 1 <= r <= m ==> base + r in Ascending(base + 1, m)
  {
    if 1 <= r <= m {
      assert Ascending(base + 1, m)[r - 1] == base + r;
    }
  }

  lemma BlockCounted(texts: seq<string>, b: nat, ruler: string)
    requires |texts| < b
    ensures |Block(texts, b, ruler)| == b
  {
  }

  lemma BlockBesides(texts: seq<string>, b: nat, ruler: string, r: nat)
    requires |texts| < b && r < b && (r == 0 || r > |texts|)
    ensures |Block(texts, b, ruler)| == b && Block(texts, b, ruler)[r] == ruler
  {
  }

  lemma OtherRowsAreRulers(texts: seq<string>, b: nat, ruler: string, r: nat)
    requires b >= 2 && r < |Pinned(texts, b, ruler)| && r !in Positions(|texts|, b)
    ensures Pinned(texts, b, ruler)[r] == ruler
  {
    OtherRowsAreRulersFrom(texts, b, ruler, 0, r);
  }

  /** Every chunk the embedder forms over the layout is full, led by a ruler, and there is one per `b - 1` texts. */
  lemma {:induction false} EveryChunkIsFullAndRulerLed(texts: seq<string>, b: nat, ruler: string)
    requires b >= 2
    ensures |Chunks(Pinned(texts, b, ruler), b)| == ChunkCount(|texts|, b - 1)
    ensures forall c | 0 <= c < ChunkCount(|texts|, b - 1) ::
              |Chunks(Pinned(texts, b, ruler), b)[c]| == b && Chunks(Pinned(texts, b, ruler), b)[c][0] == ruler
  {
    if texts != [] {
      var m := Least(b - 1, |texts|);
      var block, rest := Block(texts[..m], b, ruler), Pinned(texts[m..], b, ruler);
      EveryChunkIsFullAndRulerLed(texts[m..], b, ruler);
      assert (block + rest)[..b] == block && (block + rest)[b..] == rest;
    }
  }

  // ---------- the batch size a caller is told ----------

  function EmbedBatchTexts(configuredBatch: nat, pins: bool): nat {
    var maxBatch := if configuredBatch < 1 then 1 else configuredBatch;
    if pins && maxBatch >= 2 then maxBatch - 1 else maxBatch
  }

  /** The advertised number is the largest count of texts that one batch can carry, pinned or not. */
  lemma AdvertisedCountIsTheLargestSingleBatch(texts: seq<string>, configuredBatch: nat, pins: bool, ruler: string)
    ensures var b := if configuredBatch < 1 then 1 else configuredBatch;
            var laidOut := if pins && b >= 2 then Pinned(texts, b, ruler) else texts;
            |Chunks(laidOut, b)| == 1 <==> 1 <= |texts| <= EmbedBatchTexts(configuredBatch, pins)
  {
    var b := if configuredBatch < 1 then 1 else configuredBatch;
    if pins && b >= 2 {
      EveryChunkIsFullAndRulerLed(texts, b, ruler);
      OneChunk(|texts|, b - 1);
    } else {
      ChunksCounted(texts, b);
      OneChunk(|texts|, b);
    }
  }

  // ---------- the session ----------

  /** One text's result: both heads, zipped. */
  datatype Row<+D, +S> = Row(dense: D, sparse: S)

  /** What a session answers: to run number `attempt`, for chunk number `c` of it. An error is `None`. */
  type Session<!D, !S> = (nat, nat, seq<string>) -> Option<seq<Row<D, S>>>

  /** The one thing asked of the engine: a chunk answered in full is answered row by row, and never with more
      rows than it was given. Short answers may hold anything. */
  ghost predicate RowWise<D(!new), S(!new)>(run: Session<D, S>, f: string -> Row<D, S>) {
    forall attempt: nat, c: nat, chunk: seq<string> | run(attempt, c, chunk).Some? ::
      var rows := run(attempt, c, chunk).value;
      |rows| <= |chunk| && (|rows| == |chunk| ==> forall i | 0 <= i < |chunk| :: rows[i] == f(chunk[i]))
  }

  /** One pass over consecutive chunks, the first error ending it. */
  function PassOver<D, S>(run: Session<D, S>, attempt: nat, c: nat, chunks: seq<seq<string>>): Option<seq<Row<D, S>>>
    decreases |chunks|
  {
    if chunks == [] then Some([])
    else
      var head := run(attempt, c, chunks[0]);
      var rest := PassOver(run, attempt, c + 1, chunks[1..]);
      if head.None? || rest.None? then None else Some(head.value + rest.value)
  }

  /** A whole run of the texts; a batch of zero is refused. */
  function Pass<D, S>(run: Session<D, S>, attempt: nat, texts: seq<string>, batch: nat): Option<seq<Row<D, S>>> {
    if batch == 0 then None else PassOver(run, attempt, 0, Chunks(texts, batch))
  }

  /** A pass answers if and only if every chunk does, and then with all their rows: as many as the chunks together. */
  lemma {:induction false} PassOverAnswersIff<D(!new), S(!new)>(run: Session<D, S>, attempt: nat, c: nat,
                                                                chunks: seq<seq<string>>)
    ensures PassOver(run, attempt, c, chunks).Some? <==>
            forall i: nat | i < |chunks| :: Answered(run, attempt, c, chunks, i)
    decreases |chunks|
  {
    if chunks != [] {
      PassOverAnswersIff(run, attempt, c + 1, chunks[1..]);
      forall i: nat | 0 < i < |chunks|
        ensures Answered(run, attempt, c, chunks, i) <==> Answered(run, attempt, c + 1, chunks[1..], i - 1)
      {
      }
      if forall i: nat | i < |chunks| :: Answered(run, attempt, c, chunks, i) {
        var next, rest := c + 1, chunks[1..];
        forall i: nat | i < |rest| ensures Answered(run, attempt, next, rest, i) {
          assert Answered(run, attempt, c, chunks, i + 1);
        }
        assert Answered(run, attempt, c, chunks, 0);
      }
    }
  }

  predicate Answered<D, S>(run: Session<D, S>, attempt: nat, c: nat, chunks: seq<seq<string>>, i: nat)
    requires i < |chunks|
  {
    run(attempt, c + i, chunks[i]).Some?
  }

  /** A run of the texts answers if and only if the batch is positive and no chunk errs. */
  lemma PassAnswersIff<D(!new), S(!new)>(run: Session<D, S>, attempt: nat, texts: seq<string>, batch: nat)
    ensures Pass(run, attempt, texts, batch).Some? <==>
            batch > 0 && forall c: nat | c < |Chunks(texts, batch)| ::
                           run(attempt, c, Chunks(texts, batch)[c]).Some?
  {
    if batch > 0 {
      PassOverAnswersIff(run, attempt, 0, Chunks(texts, batch));
      forall c: nat | c < |Chunks(texts, batch)|
        ensures Answered(run, attempt, 0, Chunks(texts, batch), c)
                <==> run(attempt, c, Chunks(texts, batch)[c]).Some?
      {
      }
    }
  }

  function Each<D, S>(f: string -> Row<D, S>, texts: seq<string>): seq<Row<D, S>> {
    seq(|texts|, i requires 0 <= i < |texts| => f(texts[i]))
  }

  function Joined(chunks: seq<seq<string>>): seq<string> {
    if chunks == [] then [] else chunks[0] + Joined(chunks[1..])
  }

  lemma {:induction false} ChunksJoin(s: seq<string>, size: nat)
    requires size > 0
    ensures Joined(Chunks(s, size)) == s
  {
    if s != [] {
      ChunksJoin(s[Least(size, |s|)..], size);
    }
  }

  /** A pass that returns as many rows as texts answered every chunk in full, hence row by row. */
  lemma {:induction false} FullPassIsRowWise<D(!new), S(!new)>(run: Session<D, S>, f: string -> Row<D, S>,
                                                               attempt: nat, c: nat, chunks: seq<seq<string>>)
    requires RowWise(run, f) && PassOver(run, attempt, c, chunks).Some?
    ensures |PassOver(run, attempt, c, chunks).value| <= |Joined(chunks)|
    ensures |PassOver(run, attempt, c, chunks).value| == |Joined(chunks)| ==>
              PassOver(run, attempt, c, chunks).value == Each(f, Joined(chunks))
    decreases |chunks|
  {
    if chunks != [] {
      FullPassIsRowWise(run, f, attempt, c + 1, chunks[1..]);
      assert run(attempt, c, chunks[0]).Some?;
    }
  }

  /** `Bgem3DualEmbedding::embed`: one run per chunk, rows concatenated, the first error returned. */
  method Embed<D, S>(run: Session<D, S>, attempt: nat, texts: seq<string>, batch: nat)
    returns (r: Option<seq<Row<D, S>>>)
    ensures r == Pass(run, attempt, texts, batch)
  {
    if batch == 0 {
      return None;
    }
    var chunks := Chunks(texts, batch);
    var rows: seq<Row<D, S>> := [];
    var c := 0;
    assert chunks[0..] == chunks;
    while c < |chunks|
      invariant 0 <= c <= |chunks|
      invariant var all, rest := PassOver(run, attempt, 0, chunks), PassOver(run, attempt, c, chunks[c..]);
                (all.None? <==> rest.None?) && (rest.Some? ==> all.value == rows + rest.value)
    {
      var answer := run(attempt, c, chunks[c]);
      assert chunks[c..][1..] == chunks[c + 1..];
      if answer.None? {
        return None;
      }
      rows := rows + answer.value;
      c := c + 1;
    }
    assert rows + [] == rows;
    r := Some(rows);
  }

  // ---------- settling ----------

  const SETTLE_ATTEMPTS: nat := 3

  predicate Full<D, S>(pass: Option<seq<Row<D, S>>>, expected: nat) {
    pass.Some? && |pass.value| >= expected
  }

  /** `embed_settling`: the first of at most three runs that is not short, or nothing; a single raw run when the
      provider needs no retry. */
  method EmbedSettling<D, S>(run: Session<D, S>, texts: seq<string>, batch: nat, retryShort: bool)
    returns (r: Option<seq<Row<D, S>>>, runs: nat)
    ensures !retryShort ==> r == Pass(run, 1, texts, batch) && runs == 1
    ensures retryShort ==> 1 <= runs <= 3 && r == Settled(run, texts, batch)
    ensures retryShort ==> forall a | 1 <= a < runs :: !Full(Pass(run, a, texts, batch), |texts|)
    ensures retryShort && r.Some? ==> r == Pass(run, runs, texts, batch)
    ensures retryShort && r.None? ==> runs == SETTLE_ATTEMPTS && !Full(Pass(run, runs, texts, batch), |texts|)
  {
    if !retryShort {
      r := Embed(run, 1, texts, batch);
      return r, 1;
    }
    runs := 0;
    while runs < SETTLE_ATTEMPTS
      invariant runs <= SETTLE_ATTEMPTS
      invariant forall a | 1 <= a <= runs :: !Full(Pass(run, a, texts, batch), |texts|)
    {
      runs := runs + 1;
      var pass := Embed(run, runs, texts, batch);
      if pass.Some? && |pass.value| >= |texts| {
        return pass, runs;
      }
    }
    r := None;
  }

  function Settled<D, S>(run: Session<D, S>, texts: seq<string>, batch: nat): Option<seq<Row<D, S>>>
  {
    if Full(Pass(run, 1, texts, batch), |texts|) then Pass(run, 1, texts, batch)
    else if Full(Pass(run, 2, texts, batch), |texts|) then Pass(run, 2, texts, batch)
    else if Full(Pass(run, 3, texts, batch), |texts|) then Pass(run, 3, texts, batch)
    else None
  }

  /** What a settled run serves is each text's own row; a short run is never served. */
  lemma SettledIsRowWise<D(!new), S(!new)>(run: Session<D, S>, f: string -> Row<D, S>, texts: seq<string>, batch: nat)
    requires RowWise(run, f) && Settled(run, texts, batch).Some?
    ensures Settled(run, texts, batch).value == Each(f, texts)
  {
    var a := if Full(Pass(run, 1, texts, batch), |texts|) then 1
             else if Full(Pass(run, 2, texts, batch), |texts|) then 2 else 3;
    ChunksJoin(texts, batch);
    FullPassIsRowWise(run, f, a, 0, Chunks(texts, batch));
  }

  // ---------- unpinning ----------

  predicate Within(positions: seq<nat>, rows: nat) {
    forall k | 0 <= k < |positions| :: positions[k] < rows
  }

  /** The rows at the given places; a place named twice yields its row once, as a taken value is gone. */
  function Selected<T>(rows: seq<T>, positions: seq<nat>): seq<T>
    requires Within(positions, |rows|)
  {
    if positions == [] then []
    else
      var last := positions[|positions| - 1];
      var before := positions[..|positions| - 1];
      Selected(rows, before) + (if last in before then [] else [rows[last]])
  }

  lemma SelectedUnrolls<T>(rows: seq<T>, front: seq<nat>, last: nat)
    requires Within(front + [last], |rows|)
    ensures Within(front, |rows|) && last < |rows|
    ensures Selected(rows, front + [last]) == Selected(rows, front) + if last in front then [] else [rows[last]]
  {
    var positions := front + [last];
    assert positions[..|front|] == front && positions[|front|] == last;
    forall k | 0 <= k < |front| ensures front[k] < |rows| {
      assert positions[k] == front[k];
    }
  }

  lemma LastIsNew(positions: seq<nat>)
    requires positions != [] && forall i, j | 0 <= i < j < |positions| :: positions[i] < positions[j]
    ensures positions[|positions| - 1] !in positions[..|positions| - 1]
  {
    var n := |positions| - 1;
    forall k | 0 <= k < n ensures positions[..n][k] != positions[n] {
      assert positions[..n][k] == positions[k] < positions[n];
    }
  }

  lemma {:induction false} SelectedAtDistinct<T>(rows: seq<T>, positions: seq<nat>)
    requires Within(positions, |rows|)
    requires forall i, j | 0 <= i < j < |positions| :: positions[i] < positions[j]
    ensures |Selected(rows, positions)| == |positions|
    ensures forall i | 0 <= i < |positions| :: Selected(rows, positions)[i] == rows[positions[i]]
  {
    if positions != [] {
      hide Selected;
      var front, last := positions[..|positions| - 1], positions[|positions| - 1];
      LastIsNew(positions);
      assert positions == front + [last];
      SelectedUnrolls(rows, front, last);
      SelectedAtDistinct(rows, front);
    }
  }

  /** Every row is still there except those named so far. */
  ghost predicate TakenBy<T>(taken: seq<Option<T>>, rows: seq<T>, named: seq<nat>) {
    |taken| == |rows| && forall i | 0 <= i < |rows| :: taken[i] == if i in named then None else Some(rows[i])
  }

  lemma TakenNext<T>(taken: seq<Option<T>>, rows: seq<T>, named: seq<nat>, at: nat)
    requires TakenBy(taken, rows, named) && at < |rows|
    ensures |taken| == |rows| && taken[at] == if at in named then None else Some(rows[at])
    ensures TakenBy(taken[at := None], rows, named + [at])
  {
  }

  lemma WithinNext(named: seq<nat>, at: nat, needed: nat)
    requires Within(named, needed)
    ensures Within(named + [at], if at + 1 > needed then at + 1 else needed)
  {
  }

  /** `unpin_rows`: an error when the engine gave back fewer rows than the layout names, else the named rows. */
  method UnpinRows<T>(rows: seq<T>, positions: seq<nat>) returns (r: Option<seq<T>>)
    ensures r.Some? <==> Within(positions, |rows|)
    ensures r.Some? ==> r.value == Selected(rows, positions)
  {
    var needed := 0;
    for k := 0 to |positions|
      invariant Within(positions[..k], needed)
      invariant needed > 0 ==> needed - 1 in positions
    {
      WithinNext(positions[..k], positions[k], needed);
      assert positions[..k + 1] == positions[..k] + [positions[k]];
      if positions[k] + 1 > needed {
        needed := positions[k] + 1;
      }
    }
    assert positions[..|positions|] == positions;
    if |rows| < needed {
      return None;
    }
    assert Selected(rows, positions[..0]) == [];
    hide Selected, TakenBy;
    var taken := seq(|rows|, i requires 0 <= i < |rows| => Some(rows[i]));
    assert TakenBy(taken, rows, positions[..0]) by { NoneTaken(rows, taken); }
    var kept: seq<T> := [];
    for k := 0 to |positions|
      invariant TakenBy(taken, rows, positions[..k])
      invariant kept == Selected(rows, positions[..k])
    {
      var at := positions[k];
      assert positions[..k + 1] == positions[..k] + [at];
      SelectedUnrolls(rows, positions[..k], at);
      TakenNext(taken, rows, positions[..k], at);
      if taken[at].Some? {
        kept := kept + [taken[at].value];
      }
      taken := taken[at := None];
    }
    r := Some(kept);
  }

  lemma NoneTaken<T>(rows: seq<T>, taken: seq<Option<T>>)
    requires |taken| == |rows| && forall i | 0 <= i < |rows| :: taken[i] == Some(rows[i])
    ensures TakenBy(taken, rows, [])
  {
  }

  // ---------- the two paths agree ----------

  /** The pinned path as a whole, on values: lay out, settle, keep the real rows. */
  function PinnedPath<D, S>(run: Session<D, S>, texts: seq<string>, b: nat, ruler: string): Option<seq<Row<D, S>>>
    requires b >= 2
  {
    var settled := Settled(run, Pinned(texts, b, ruler), b);
    if settled.None? || !Within(Positions(|texts|, b), |settled.value|) then None
    else Some(Selected(settled.value, Positions(|texts|, b)))
  }

  /** For every text list, batch of at least two and row-wise engine, the pinned path returns each text's own
      row in the caller's order, and it answers exactly when one of the three runs of the layout is full. */
  lemma PinnedPathIsRowWise<D(!new), S(!new)>(run: Session<D, S>, f: string -> Row<D, S>, texts: seq<string>, b: nat,
                                              ruler: string)
    requires b >= 2 && RowWise(run, f)
    ensures PinnedPath(run, texts, b, ruler).Some?
            <==> exists a | 1 <= a <= 3 ::
                   Full(Pass(run, a, Pinned(texts, b, ruler), b), |Pinned(texts, b, ruler)|)
    ensures PinnedPath(run, texts, b, ruler).Some? ==> PinnedPath(run, texts, b, ruler).value == Each(f, texts)
  {
    hide Pinned, Positions, Pass, RowWise;
    var layout := Pinned(texts, b, ruler);
    var positions := Positions(|texts|, b);
    if Settled(run, layout, b).Some? {
      SettledIsRowWise(run, f, layout, b);
      var rows := Settled(run, layout, b).value;
      PositionsCounted(|texts|, b);
      forall i | 0 <= i < |texts|
        ensures positions[i] < |rows| && rows[positions[i]] == f(texts[i])
        ensures forall j | 0 <= j < i :: positions[j] < positions[i]
      {
        TextsAreAtTheirPositions(texts, b, ruler, i);
      }
      SelectedAtDistinct(rows, positions);
    }
  }

  /** Run number `a` answers chunk `c` of the texts with at least one row per text. */
  predicate AnswersInFull<D, S>(run: Session<D, S>, a: nat, chunks: seq<seq<string>>, first: nat, c: nat)
    requires c < |chunks|
  {
    var answer := run(a, first + c, chunks[c]);
    answer.Some? && |answer.value| >= |chunks[c]|
  }

  predicate AllInFull<D, S>(run: Session<D, S>, a: nat, chunks: seq<seq<string>>, first: nat) {
    forall c: nat | c < |chunks| :: AnswersInFull(run, a, chunks, first, c)
  }

  lemma {:induction false} FullChunksFullPass<D(!new), S(!new)>(run: Session<D, S>, a: nat, first: nat,
                                                                chunks: seq<seq<string>>)
    requires AllInFull(run, a, chunks, first)
    ensures Full(PassOver(run, a, first, chunks), |Joined(chunks)|)
    decreases |chunks|
  {
    if chunks != [] {
      var next, rest := first + 1, chunks[1..];
      forall c: nat | c < |rest| ensures AnswersInFull(run, a, rest, next, c) {
        assert AnswersInFull(run, a, chunks, first, c + 1);
      }
      assert AllInFull(run, a, rest, next);
      FullChunksFullPass(run, a, next, rest);
      assert AnswersInFull(run, a, chunks, first, 0);
    }
  }

  /** One of the first three runs answering every chunk in full is enough for the pinned path to answer, whatever the
      engine is. */
  lemma OneFullRunIsServed<D(!new), S(!new)>(run: Session<D, S>, texts: seq<string>, b: nat, ruler: string, a: nat)
    requires b >= 2 && 1 <= a <= 3
    requires AllInFull(run, a, Chunks(Pinned(texts, b, ruler), b), 0)
    ensures PinnedPath(run, texts, b, ruler).Some?
  {
    hide Pinned, Positions, PassOver, Chunks;
    var layout := Pinned(texts, b, ruler);
    FullChunksFullPass(run, a, 0, Chunks(layout, b));
    ChunksJoin(layout, b);
    PositionsCounted(|texts|, b);
    forall i | 0 <= i < |texts| ensures Positions(|texts|, b)[i] < |layout| {
      TextsAreAtTheirPositions(texts, b, ruler, i);
    }
  }

  /** Pinned and natural serve the same rows whenever both serve. */
  lemma PinnedEqualsNatural<D(!new), S(!new)>(run: Session<D, S>, f: string -> Row<D, S>, texts: seq<string>, b: nat,
                                              ruler: string)
    requires b >= 2 && RowWise(run, f)
    requires PinnedPath(run, texts, b, ruler).Some? && Settled(run, texts, b).Some?
    ensures PinnedPath(run, texts, b, ruler).value == Settled(run, texts, b).value
  {
    PinnedPathIsRowWise(run, f, texts, b, ruler);
    SettledIsRowWise(run, f, texts, b);
  }

  function Dense<D, S>(rows: seq<Row<D, S>>): seq<D> {
    seq(|rows|, i requires 0 <= i < |rows| => rows[i].dense)
  }

  function Sparse<D, S>(rows: seq<Row<D, S>>): seq<S> {
    seq(|rows|, i requires 0 <= i < |rows| => rows[i].sparse)
  }

  lemma {:induction false} SelectedByHead<D, S>(rows: seq<Row<D, S>>, positions: seq<nat>)
    requires Within(positions, |rows|)
    ensures Selected(Dense(rows), positions) == Dense(Selected(rows, positions))
    ensures Selected(Sparse(rows), positions) == Sparse(Selected(rows, positions))
  {
    if positions != [] {
      SelectedByHead(rows, positions[..|positions| - 1]);
    }
  }

  /** `embed_blocking` with its two branches: the two heads are unpinned separately and stay aligned. */
  method EmbedBlocking<D, S>(run: Session<D, S>, texts: seq<string>, maxBatch: nat, pins: bool, ruler: string)
    returns (r: Option<(seq<D>, seq<S>)>)
    ensures var rows := if pins && maxBatch >= 2 then PinnedPath(run, texts, maxBatch, ruler)
                        else if pins then Settled(run, texts, maxBatch)
                        else Pass(run, 1, texts, maxBatch);
            r == if rows.None? then None else Some((Dense(rows.value), Sparse(rows.value)))
  {
    if pins && maxBatch >= 2 {
      var expanded, positions := PinShape(texts, maxBatch, ruler);
      var padded, _ := EmbedSettling(run, expanded, maxBatch, pins);
      if padded.None? {
        return None;
      }
      var dense := UnpinRows(Dense(padded.value), positions);
      var sparse := UnpinRows(Sparse(padded.value), positions);
      if dense.None? || sparse.None? {
        return None;
      }
      SelectedByHead(padded.value, positions);
      return Some((dense.value, sparse.value));
    }
    var rows, _ := EmbedSettling(run, texts, maxBatch, pins);
    if rows.None? {
      return None;
    }
    r := Some((Dense(rows.value), Sparse(rows.value)));
  }
}
