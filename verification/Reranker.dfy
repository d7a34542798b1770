/** The rerank path (src/inference.rs, vendor-fastembed/src/reranking/impl.rs): score chunk by chunk, number the
    scores, sort them, and put them back where the caller listed the documents. */
module Reranker {
  import opened Wrappers
  import opened StableSort
  import opened PinnedLayout

  /** One entry of the engine's answer; the document text is never asked for. */
  datatype Ranked = Ranked(index: nat, score: real)

  /** What the engine answers chunk number `c` of a pass: its logits, or an error. */
  type Scorer = (nat, seq<string>) -> Option<seq<real>>

  /** A chunk answered in full is answered document by document, and never with more rows than it was given. */
  ghost predicate RowPerDocument(run: Scorer, logit: string -> real) {
    forall c: nat, chunk: seq<string> | run(c, chunk).Some? ::
      var rows := run(c, chunk).value;
      |rows| <= |chunk| && (|rows| == |chunk| ==> forall i | 0 <= i < |chunk| :: rows[i] == logit(chunk[i]))
  }

  // ---------- one pass of the engine ----------

  function ScoresOver(run: Scorer, c: nat, chunks: seq<seq<string>>): Option<seq<real>>
    decreases |chunks|
  {
    if chunks == [] then Some([])
    else
      var head := run(c, chunks[0]);
      var rest := ScoresOver(run, c + 1, chunks[1..]);
      if head.None? || rest.None? then None else Some(head.value + rest.value)
  }

  /** All logits of a pass in the order they were computed; a batch of zero is refused. */
  function Scores(run: Scorer, documents: seq<string>, batch: nat): Option<seq<real>> {
    if batch == 0 then None else ScoresOver(run, 0, Chunks(documents, batch))
  }

  lemma {:induction false} ScoresOverAnswerIff(run: Scorer, first: nat, chunks: seq<seq<string>>)
    ensures ScoresOver(run, first, chunks).Some? <==> forall i: nat | i < |chunks| :: Scored(run, first, chunks, i)
    decreases |chunks|
  {
    if chunks != [] {
      var next, rest := first + 1, chunks[1..];
      ScoresOverAnswerIff(run, next, rest);
      forall i: nat | 0 < i < |chunks| ensures Scored(run, first, chunks, i) <==> Scored(run, next, rest, i - 1) {
      }
      if forall i: nat | i < |chunks| :: Scored(run, first, chunks, i) {
        forall i: nat | i < |rest| ensures Scored(run, next, rest, i) {
          assert Scored(run, first, chunks, i + 1);
        }
        assert Scored(run, first, chunks, 0);
      }
    }
  }

  predicate Scored(run: Scorer, first: nat, chunks: seq<seq<string>>, i: nat)
    requires i < |chunks|
  {
    run(first + i, chunks[i]).Some?
  }

  /** A pass is answered if and only if the batch is positive and no chunk errs. */
  lemma ScoresAnswerIff(run: Scorer, documents: seq<string>, batch: nat)
    ensures Scores(run, documents, batch).Some? <==>
            batch > 0 && forall c: nat | c < |Chunks(documents, batch)| :: run(c, Chunks(documents, batch)[c]).Some?
  {
    if batch > 0 {
      ScoresOverAnswerIff(run, 0, Chunks(documents, batch));
      forall c: nat | c < |Chunks(documents, batch)|
        ensures Scored(run, 0, Chunks(documents, batch), c) <==> run(c, Chunks(documents, batch)[c]).Some?
      {
      }
    }
  }

  function Numbered(scores: seq<real>): seq<Ranked> {
    seq(|scores|, i requires 0 <= i < |scores| => Ranked(i, scores[i]))
  }

  function Ranking(scores: seq<real>): seq<Ranked> {
    SortBy((a: Ranked, b: Ranked) => a.score >= b.score, Numbered(scores))
  }

  /** `rerank`: chunk, score, number, sort. */
  method Rerank(run: Scorer, documents: seq<string>, batch: nat) returns (r: Option<seq<Ranked>>)
    ensures r.Some? <==> Scores(run, documents, batch).Some?
    ensures r.Some? ==> r.value == Ranking(Scores(run, documents, batch).value)
  {
    if batch == 0 {
      return None;
    }
    var chunks := Chunks(documents, batch);
    var scores: seq<real> := [];
    var c := 0;
    assert chunks[0..] == chunks;
    while c < |chunks|
      invariant 0 <= c <= |chunks|
      invariant var all, rest := ScoresOver(run, 0, chunks), ScoresOver(run, c, chunks[c..]);
                (all.None? <==> rest.None?) && (rest.Some? ==> all.value == scores + rest.value)
    {
      var answer := run(c, chunks[c]);
      assert chunks[c..][1..] == chunks[c + 1..];
      if answer.None? {
        return None;
      }
      scores := scores + answer.value;
      c := c + 1;
    }
    assert scores + [] == scores;
    var numbered: seq<Ranked> := [];
    for i := 0 to |scores|
      invariant |numbered| == i && forall k | 0 <= k < i :: numbered[k] == Ranked(k, scores[k])
    {
      numbered := numbered + [Ranked(i, scores[i])];
    }
    assert numbered == Numbered(scores);
    r := Some(SortBy((a: Ranked, b: Ranked) => a.score >= b.score, numbered));
  }

  /** The answer is best first, ties in document order, and holds every numbered score and nothing else. */
  lemma RankingIsDescending(scores: seq<real>)
    ensures forall i, j | 0 <= i < j < |scores| ::
              Ranking(scores)[i].score > Ranking(scores)[j].score
              || (Ranking(scores)[i].score == Ranking(scores)[j].score
                  && Ranking(scores)[i].index < Ranking(scores)[j].index)
    ensures forall x :: x in Ranking(scores) <==> x.index < |scores| && x.score == scores[x.index]
  {
    var le := (a: Ranked, b: Ranked) => a.score >= b.score;
    var before := (a: Ranked, b: Ranked) => a.index < b.index;
    SortIsStable(le, before, Numbered(scores));
    forall i, j | 0 <= i < j < |scores|
      ensures le(Ranking(scores)[i], Ranking(scores)[j])
              && (le(Ranking(scores)[j], Ranking(scores)[i]) ==> before(Ranking(scores)[i], Ranking(scores)[j]))
    {
      assert InOrder(le, before, Ranking(scores)[i], Ranking(scores)[j]);
    }
    forall x ensures x in Ranking(scores) <==> x.index < |scores| && x.score == scores[x.index] {
      SameElements(Ranking(scores), Numbered(scores), x);
      if x.index < |scores| && x.score == scores[x.index] {
        assert Numbered(scores)[x.index] == x;
      }
    }
  }

  // ---------- back to document order ----------

  /** The score of the last entry naming `index`, which is the one that stays in its slot. */
  function LastNaming(results: seq<Ranked>, index: nat): Option<real> {
    if results == [] then None
    else
      var last := results[|results| - 1];
      if last.index == index then Some(last.score) else LastNaming(results[..|results| - 1], index)
  }

  /** What lands in slot `i`: the squashed last score naming it, or zero when none does. */
  function Slot(results: seq<Ranked>, sigmoid: real -> real, i: nat): real {
    var last := LastNaming(results, i);
    if last.Some? then sigmoid(last.value) else 0.0
  }

  function Aligned(count: nat, results: seq<Ranked>, sigmoid: real -> real): seq<real> {
    seq(count, i requires 0 <= i => Slot(results, sigmoid, i))
  }

  /** `aligned_scores`: zeros, then one write per entry whose index is in range. */
  method AlignedScores(count: nat, results: seq<Ranked>, sigmoid: real -> real) returns (r: seq<real>)
    ensures r == Aligned(count, results, sigmoid)
  {
    var scores := new real[count](_ => 0.0);
    assert results[..0] == [];
    for k := 0 to |results|
      invariant forall i | 0 <= i < count :: scores[i] == Slot(results[..k], sigmoid, i)
    {
      assert results[..k + 1][..k] == results[..k];
      if results[k].index < count {
        scores[results[k].index] := sigmoid(results[k].score);
      }
    }
    assert results[..|results|] == results;
    r := scores[..];
  }

  /** However the entries were reordered, slot `i` gets the score numbered `i`. */
  lemma {:induction false} LastNamingFinds(results: seq<Ranked>, scores: seq<real>, i: nat)
    requires forall x | x in results :: x.index < |scores| && x.score == scores[x.index]
    ensures LastNaming(results, i).Some? <==> i < |scores| && Ranked(i, scores[i]) in results
    ensures LastNaming(results, i).Some? ==> LastNaming(results, i).value == scores[i]
  {
    if results != [] {
      var front := results[..|results| - 1];
      assert results == front + [results[|results| - 1]];
      LastNamingFinds(front, scores, i);
    }
  }

  /** Sorting and realigning cancel: slot `i` holds the squashed i-th score, and slots past the scores hold zero. */
  lemma RealignUndoesTheSort(count: nat, scores: seq<real>, sigmoid: real -> real, i: nat)
    requires i < count
    ensures Aligned(count, Ranking(scores), sigmoid)[i] == if i < |scores| then sigmoid(scores[i]) else 0.0
  {
    hide Ranking;
    RankingIsDescending(scores);
    LastNamingFinds(Ranking(scores), scores, i);
  }

  // ---------- the whole path ----------

  /** One pass and its realignment, as `score_documents` returns it. */
  function ScoredDocuments(run: Scorer, sigmoid: real -> real, documents: seq<string>, batch: nat): Option<seq<real>> {
    var scores := Scores(run, documents, batch);
    if scores.None? then None else Some(Aligned(|documents|, Ranking(scores.value), sigmoid))
  }

  method ScoreDocuments(run: Scorer, sigmoid: real -> real, documents: seq<string>, batch: nat)
    returns (r: Option<seq<real>>)
    ensures r == ScoredDocuments(run, sigmoid, documents, batch)
  {
    var results := Rerank(run, documents, batch);
    if results.None? {
      return None;
    }
    var aligned := AlignedScores(|documents|, results.value, sigmoid);
    r := Some(aligned);
  }

  function RerankPath(run: Scorer, sigmoid: real -> real, documents: seq<string>, batch: nat, pins: bool,
                      ruler: string): Option<seq<real>> {
    if pins && batch >= 2 then
      var padded := ScoredDocuments(run, sigmoid, Pinned(documents, batch, ruler), batch);
      var positions := Positions(|documents|, batch);
      if padded.None? || !Within(positions, |padded.value|) then None else Some(Selected(padded.value, positions))
    else ScoredDocuments(run, sigmoid, documents, batch)
  }

  /** `rerank_blocking` from the lay-out on. */
  method RerankBlocking(run: Scorer, sigmoid: real -> real, documents: seq<string>, batch: nat, pins: bool,
                        ruler: string)
    returns (r: Option<seq<real>>)
    ensures r == RerankPath(run, sigmoid, documents, batch, pins, ruler)
  {
    if pins && batch >= 2 {
      var expanded, positions := PinShape(documents, batch, ruler);
      var padded := ScoreDocuments(run, sigmoid, expanded, batch);
      if padded.None? {
        return None;
      }
      r := UnpinRows(padded.value, positions);
      return;
    }
    r := ScoreDocuments(run, sigmoid, documents, batch);
  }

  lemma {:induction false} FullScoresArePerDocument(run: Scorer, logit: string -> real, c: nat,
                                                    chunks: seq<seq<string>>)
    requires RowPerDocument(run, logit) && ScoresOver(run, c, chunks).Some?
    ensures |ScoresOver(run, c, chunks).value| <= |Joined(chunks)|
    ensures |ScoresOver(run, c, chunks).value| == |Joined(chunks)| ==>
              forall i | 0 <= i < |Joined(chunks)| :: ScoresOver(run, c, chunks).value[i] == logit(Joined(chunks)[i])
    decreases |chunks|
  {
    if chunks != [] {
      FullScoresArePerDocument(run, logit, c + 1, chunks[1..]);
      assert run(c, chunks[0]).Some?;
    }
  }

  function LaidOut(documents: seq<string>, batch: nat, pins: bool, ruler: string): seq<string> {
    if pins && batch >= 2 then Pinned(documents, batch, ruler) else documents
  }

  lemma FullPassScoresEach(run: Scorer, logit: string -> real, sigmoid: real -> real, documents: seq<string>,
                           batch: nat)
    requires RowPerDocument(run, logit)
    requires Scores(run, documents, batch).Some? && |Scores(run, documents, batch).value| == |documents|
    ensures ScoredDocuments(run, sigmoid, documents, batch).Some?
    ensures var r := ScoredDocuments(run, sigmoid, documents, batch).value;
            |r| == |documents| && forall i | 0 <= i < |documents| :: r[i] == sigmoid(logit(documents[i]))
  {
    hide Ranking, Chunks, Slot;
    var scores := Scores(run, documents, batch).value;
    ChunksJoin(documents, batch);
    FullScoresArePerDocument(run, logit, 0, Chunks(documents, batch));
    forall i | 0 <= i < |documents|
      ensures Aligned(|documents|, Ranking(scores), sigmoid)[i] == sigmoid(logit(documents[i]))
    {
      RealignUndoesTheSort(|documents|, scores, sigmoid, i);
    }
  }

  /** The main claim: for every document list, batch and layout, one logit row per document of the layout gives
      each document the squash of its own logit, in the caller's order. */
  lemma RerankIsPerDocument(run: Scorer, logit: string -> real, sigmoid: real -> real, documents: seq<string>,
                            batch: nat, pins: bool, ruler: string)
    requires RowPerDocument(run, logit)
    requires var laidOut := LaidOut(documents, batch, pins, ruler);
             Scores(run, laidOut, batch).Some? && |Scores(run, laidOut, batch).value| == |laidOut|
    ensures var r := RerankPath(run, sigmoid, documents, batch, pins, ruler);
            r.Some? && |r.value| == |documents|
            && forall i | 0 <= i < |documents| :: r.value[i] == sigmoid(logit(documents[i]))
  {
    hide Pinned, Positions, Scores, ScoredDocuments, RowPerDocument;
    FullPassScoresEach(run, logit, sigmoid, LaidOut(documents, batch, pins, ruler), batch);
    if pins && batch >= 2 {
      LaidOutRowsAreDistinct(documents, batch, ruler);
      var padded := ScoredDocuments(run, sigmoid, Pinned(documents, batch, ruler), batch).value;
      SelectedAtDistinct(padded, Positions(|documents|, batch));
    }
  }

  lemma LaidOutRowsAreDistinct(documents: seq<string>, b: nat, ruler: string)
    requires b >= 2
    ensures |Positions(|documents|, b)| == |documents|
    ensures Within(Positions(|documents|, b), |Pinned(documents, b, ruler)|)
    ensures forall i | 0 <= i < |documents| ::
              Pinned(documents, b, ruler)[Positions(|documents|, b)[i]] == documents[i]
    ensures forall i, j | 0 <= i < j < |documents| :: Positions(|documents|, b)[i] < Positions(|documents|, b)[j]
  {
    hide Pinned, Positions;
    PositionsCounted(|documents|, b);
    forall i | 0 <= i < |documents|
      ensures Positions(|documents|, b)[i] < |Pinned(documents, b, ruler)|
      ensures Pinned(documents, b, ruler)[Positions(|documents|, b)[i]] == documents[i]
      ensures forall j | 0 <= j < i :: Positions(|documents|, b)[j] < Positions(|documents|, b)[i]
    {
      TextsAreAtTheirPositions(documents, b, ruler, i);
    }
  }

  // ---------- what a short pass does ----------

  /** The path answers exactly when no chunk errs: a short pass is never refused here, since the realigned list
      always has one slot per row of the layout and the row check before unpinning cannot fire. */
  lemma ShortPassesAreServed(run: Scorer, sigmoid: real -> real, documents: seq<string>, batch: nat, pins: bool,
                             ruler: string)
    ensures RerankPath(run, sigmoid, documents, batch, pins, ruler).Some?
            <==> Scores(run, LaidOut(documents, batch, pins, ruler), batch).Some?
  {
    hide Pinned, Positions, Scores, Ranking;
    if pins && batch >= 2 {
      LaidOutRowsAreDistinct(documents, batch, ruler);
    }
  }

  /** Without pinning, the answer is right if and only if the engine returned as many rows as documents: a short
      pass leaves a zero, which is nobody's squashed logit. */
  lemma RightIffNoRowIsMissing(run: Scorer, logit: string -> real, sigmoid: real -> real, documents: seq<string>,
                               batch: nat, ruler: string)
    requires RowPerDocument(run, logit) && Scores(run, documents, batch).Some?
    requires forall x :: sigmoid(x) > 0.0
    ensures (forall i | 0 <= i < |documents| ::
               RerankPath(run, sigmoid, documents, batch, false, ruler).value[i] == sigmoid(logit(documents[i])))
            <==> |Scores(run, documents, batch).value| == |documents|
  {
    hide Ranking, Slot;
    var scores := Scores(run, documents, batch).value;
    ChunksJoin(documents, batch);
    FullScoresArePerDocument(run, logit, 0, Chunks(documents, batch));
    if |scores| == |documents| {
      FullPassScoresEach(run, logit, sigmoid, documents, batch);
    } else {
      RealignUndoesTheSort(|documents|, scores, sigmoid, |scores|);
      assert RerankPath(run, sigmoid, documents, batch, false, ruler).value[|scores|] == 0.0;
      var x := logit(documents[|scores|]);
      assert sigmoid(x) > 0.0;
    }
  }

  /** The row of the layout that carries document `i`. */
  function RowOf(n: nat, batch: nat, pins: bool, i: nat): nat
    requires i < n
  {
    if pins && batch >= 2 then PositionsCounted(n, batch); Positions(n, batch)[i] else i
  }

  /** Whatever the engine answered, document `i` gets the squash of the score numbered by its own row, and zero when
      the pass returned no score for that row. */
  lemma SlotOfDocument(run: Scorer, sigmoid: real -> real, documents: seq<string>, batch: nat, pins: bool,
                       ruler: string, i: nat)
    requires Scores(run, LaidOut(documents, batch, pins, ruler), batch).Some? && i < |documents|
    ensures var scores := Scores(run, LaidOut(documents, batch, pins, ruler), batch).value;
            var r, row := RerankPath(run, sigmoid, documents, batch, pins, ruler), RowOf(|documents|, batch, pins, i);
            r.Some? && |r.value| == |documents|
            && r.value[i] == if row < |scores| then sigmoid(scores[row]) else 0.0
  {
    hide Pinned, Positions, Scores, Ranking, Slot;
    var layout := LaidOut(documents, batch, pins, ruler);
    var scores := Scores(run, layout, batch).value;
    if pins && batch >= 2 {
      LaidOutRowsAreDistinct(documents, batch, ruler);
      SelectedAtDistinct(Aligned(|layout|, Ranking(scores), sigmoid), Positions(|documents|, batch));
    }
    RealignUndoesTheSort(|layout|, scores, sigmoid, RowOf(|documents|, batch, pins, i));
  }

  // ---------- an engine that answers a chunk with its leading rows ----------

  /** How many rows each chunk is answered with; `None` for an error. */
  type RowCounts = (nat, seq<string>) -> Option<nat>

  function Answered(counts: RowCounts, c: nat, chunk: seq<string>): nat {
    if counts(c, chunk).None? then 0 else Least(counts(c, chunk).value, |chunk|)
  }

  /** The engine with those counts whose rows are the logits of a chunk's leading documents. */
  function Leading(counts: RowCounts, logit: string -> real): Scorer {
    (c: nat, chunk: seq<string>) =>
      if counts(c, chunk).None? then None
      else Some(seq(Answered(counts, c, chunk), i requires 0 <= i < |chunk| => logit(chunk[i])))
  }

  predicate NoErrors(counts: RowCounts, c: nat, chunks: seq<seq<string>>)
    decreases |chunks|
  {
    chunks == [] || (counts(c, chunks[0]).Some? && NoErrors(counts, c + 1, chunks[1..]))
  }

  /** Which row of the layout each returned score was computed from. */
  function Origins(counts: RowCounts, c: nat, chunks: seq<seq<string>>, base: nat): seq<nat>
    decreases |chunks|
  {
    if chunks == [] then []
    else Ascending(base, Answered(counts, c, chunks[0])) + Origins(counts, c + 1, chunks[1..], base + |chunks[0]|)
  }

  lemma {:induction false} LeadingScores(counts: RowCounts, logit: string -> real, c: nat, chunks: seq<seq<string>>,
                                         base: nat)
    ensures ScoresOver(Leading(counts, logit), c, chunks).Some? <==> NoErrors(counts, c, chunks)
    ensures NoErrors(counts, c, chunks) ==>
              var scores := ScoresOver(Leading(counts, logit), c, chunks).value;
              var origins := Origins(counts, c, chunks, base);
              |scores| == |origins|
              && forall k | 0 <= k < |origins| ::
                   base <= origins[k] < base + |Joined(chunks)| && scores[k] == logit(Joined(chunks)[origins[k] - base])
    decreases |chunks|
  {
    if chunks != [] {
      LeadingScores(counts, logit, c + 1, chunks[1..], base + |chunks[0]|);
    }
  }

  ghost predicate RightFor(counts: RowCounts, logit: string -> real, sigmoid: real -> real, documents: seq<string>,
                           batch: nat, pins: bool, ruler: string) {
    var r := RerankPath(Leading(counts, logit), sigmoid, documents, batch, pins, ruler);
    r.Some? && |r.value| == |documents|
    && forall i | 0 <= i < |documents| :: r.value[i] == sigmoid(logit(documents[i]))
  }

  /** Each document's row of the answer exists and was computed from that document's text. */
  predicate EachRowIsItsOwn(counts: RowCounts, documents: seq<string>, batch: nat, pins: bool, ruler: string)
    requires batch > 0
  {
    var layout := LaidOut(documents, batch, pins, ruler);
    var origins := Origins(counts, 0, Chunks(layout, batch), 0);
    forall i | 0 <= i < |documents| :: RowIsItsOwn(layout, origins, RowOf(|documents|, batch, pins, i), documents[i])
  }

  predicate RowIsItsOwn(layout: seq<string>, origins: seq<nat>, row: nat, document: string) {
    row < |origins| && origins[row] < |layout| && layout[origins[row]] == document
  }

  lemma LeadingSlot(counts: RowCounts, logit: string -> real, sigmoid: real -> real, documents: seq<string>, batch: nat,
                    pins: bool, ruler: string, i: nat)
    requires batch > 0 && NoErrors(counts, 0, Chunks(LaidOut(documents, batch, pins, ruler), batch)) && i < |documents|
    ensures var layout := LaidOut(documents, batch, pins, ruler);
            var origins, row := Origins(counts, 0, Chunks(layout, batch), 0), RowOf(|documents|, batch, pins, i);
            var r := RerankPath(Leading(counts, logit), sigmoid, documents, batch, pins, ruler);
            && r.Some? && |r.value| == |documents|
            && (row < |origins| ==> origins[row] < |layout| && r.value[i] == sigmoid(logit(layout[origins[row]])))
            && (row >= |origins| ==> r.value[i] == 0.0)
  {
    hide Chunks, RerankPath, LaidOut, RowOf, Leading, Origins;
    var layout := LaidOut(documents, batch, pins, ruler);
    ChunksJoin(layout, batch);
    LeadingScores(counts, logit, 0, Chunks(layout, batch), 0);
    SlotOfDocument(Leading(counts, logit), sigmoid, documents, batch, pins, ruler, i);
  }

  /** The exact condition, pinned or not: the answer is right for every engine with these row counts if and only if
      each document's row was returned and computed from its own text. A squash is positive and not constant. */
  lemma RightForEveryLogitIff(counts: RowCounts, sigmoid: real -> real, documents: seq<string>, batch: nat, pins: bool,
                              ruler: string, x: real, y: real)
    requires batch > 0 && NoErrors(counts, 0, Chunks(LaidOut(documents, batch, pins, ruler), batch))
    requires (forall z :: sigmoid(z) > 0.0) && sigmoid(x) != sigmoid(y)
    ensures (forall logit :: RightFor(counts, logit, sigmoid, documents, batch, pins, ruler))
            <==> EachRowIsItsOwn(counts, documents, batch, pins, ruler)
  {
    hide Chunks, RerankPath, LaidOut, RowOf, Leading, Origins;
    if EachRowIsItsOwn(counts, documents, batch, pins, ruler) {
      forall logit ensures RightFor(counts, logit, sigmoid, documents, batch, pins, ruler) {
        OwnRowsAreRight(counts, logit, sigmoid, documents, batch, pins, ruler);
      }
    } else {
      var layout := LaidOut(documents, batch, pins, ruler);
      var origins := Origins(counts, 0, Chunks(layout, batch), 0);
      var i :| 0 <= i < |documents| && !RowIsItsOwn(layout, origins, RowOf(|documents|, batch, pins, i), documents[i]);
      var logit := (text: string) => if text == documents[i] then x else y;
      LeadingSlot(counts, logit, sigmoid, documents, batch, pins, ruler, i);
      assert logit(documents[i]) == x;
      assert sigmoid(x) > 0.0;
      assert !RightFor(counts, logit, sigmoid, documents, batch, pins, ruler);
    }
  }

  lemma OwnRowsAreRight(counts: RowCounts, logit: string -> real, sigmoid: real -> real, documents: seq<string>,
                        batch: nat, pins: bool, ruler: string)
    requires batch > 0 && NoErrors(counts, 0, Chunks(LaidOut(documents, batch, pins, ruler), batch))
    requires EachRowIsItsOwn(counts, documents, batch, pins, ruler)
    ensures RightFor(counts, logit, sigmoid, documents, batch, pins, ruler)
  {
    hide Chunks, LaidOut, RowOf, Leading, Origins, RerankPath;
    if documents == [] {
      NoDocuments(counts, logit, sigmoid, batch, pins, ruler);
    } else {
      LeadingSlot(counts, logit, sigmoid, documents, batch, pins, ruler, 0);
    }
    forall i | 0 <= i < |documents|
      ensures var r := RerankPath(Leading(counts, logit), sigmoid, documents, batch, pins, ruler);
              r.Some? && |r.value| == |documents| && r.value[i] == sigmoid(logit(documents[i]))
    {
      LeadingSlot(counts, logit, sigmoid, documents, batch, pins, ruler, i);
      assert RowIsItsOwn(LaidOut(documents, batch, pins, ruler),
                         Origins(counts, 0, Chunks(LaidOut(documents, batch, pins, ruler), batch), 0),
                         RowOf(|documents|, batch, pins, i), documents[i]);
    }
  }

  lemma NoDocuments(counts: RowCounts, logit: string -> real, sigmoid: real -> real, batch: nat, pins: bool,
                    ruler: string)
    requires batch > 0
    ensures var r := RerankPath(Leading(counts, logit), sigmoid, [], batch, pins, ruler); r.Some? && r.value == []
  {
    assert LaidOut([], batch, pins, ruler) == [];
    assert Chunks<string>([], batch) == [];
  }

  /** Every chunk but the last is answered in full. */
  predicate OnlyTheLastIsShort(counts: RowCounts, c: nat, chunks: seq<seq<string>>)
    decreases |chunks|
  {
    |chunks| <= 1 || (Answered(counts, c, chunks[0]) == |chunks[0]| && OnlyTheLastIsShort(counts, c + 1, chunks[1..]))
  }

  lemma {:induction false} OriginsAreThemselves(counts: RowCounts, c: nat, chunks: seq<seq<string>>, base: nat)
    requires OnlyTheLastIsShort(counts, c, chunks)
    ensures forall k | 0 <= k < |Origins(counts, c, chunks, base)| :: Origins(counts, c, chunks, base)[k] == base + k
    ensures |Origins(counts, c, chunks, base)| <= |Joined(chunks)|
    decreases |chunks|
  {
    if chunks != [] {
      OriginsAreThemselves(counts, c + 1, chunks[1..], base + |chunks[0]|);
      if |chunks| == 1 {
        assert chunks[1..] == [];
      }
    }
  }

  /** When only the last chunk is short, the condition is that it reaches the last document: spare rulers behind it
      may be missing without harm. */
  lemma ShortTailIsHarmlessIff(counts: RowCounts, documents: seq<string>, batch: nat, pins: bool, ruler: string)
    requires batch > 0 && OnlyTheLastIsShort(counts, 0, Chunks(LaidOut(documents, batch, pins, ruler), batch))
    ensures EachRowIsItsOwn(counts, documents, batch, pins, ruler)
            <==> documents == []
                 || RowOf(|documents|, batch, pins, |documents| - 1)
                    < |Origins(counts, 0, Chunks(LaidOut(documents, batch, pins, ruler), batch), 0)|
  {
    hide Chunks, Origins, Pinned, Positions;
    var layout := LaidOut(documents, batch, pins, ruler);
    var origins := Origins(counts, 0, Chunks(layout, batch), 0);
    ChunksJoin(layout, batch);
    OriginsAreThemselves(counts, 0, Chunks(layout, batch), 0);
    RowsOfDocuments(documents, batch, pins, ruler);
    forall i | 0 <= i < |documents|
      ensures RowIsItsOwn(layout, origins, RowOf(|documents|, batch, pins, i), documents[i])
              <==> RowOf(|documents|, batch, pins, i) < |origins|
    {
    }
  }

  lemma RowsOfDocuments(documents: seq<string>, batch: nat, pins: bool, ruler: string)
    ensures forall i | 0 <= i < |documents| ::
              var layout, row := LaidOut(documents, batch, pins, ruler), RowOf(|documents|, batch, pins, i);
              row < |layout| && layout[row] == documents[i] && row <= RowOf(|documents|, batch, pins, |documents| - 1)
  {
    hide Pinned, Positions;
    if pins && batch >= 2 {
      LaidOutRowsAreDistinct(documents, batch, ruler);
    }
  }

  /** A pinned pass whose first chunk comes back one row short: the first document gets the second chunk's ruler
      score and the second document nobody's. */
  lemma ShortPinnedPassIsWrong(logit: string -> real, sigmoid: real -> real)
    ensures var counts := (c: nat, chunk: seq<string>) => Some(if c == 0 then 1 else |chunk|);
            RerankPath(Leading(counts, logit), sigmoid, ["d", "e"], 2, true, "r") == Some([sigmoid(logit("r")), 0.0])
  {
    var counts := (c: nat, chunk: seq<string>) => Some(if c == 0 then 1 else |chunk|);
    ShortLayout();
    var layout := ["r", "d", "r", "e"];
    var chunks := [["r", "d"], ["r", "e"]];
    assert Origins(counts, 0, chunks, 0) == [0, 2, 3] by {
      assert chunks[1..] == [["r", "e"]] && chunks[1..][1..] == [];
      assert Ascending(0, 1) == [0] && Ascending(2, 2) == [2, 3];
    }
    assert NoErrors(counts, 0, chunks);
    LeadingSlot(counts, logit, sigmoid, ["d", "e"], 2, true, "r", 0);
    LeadingSlot(counts, logit, sigmoid, ["d", "e"], 2, true, "r", 1);
    hide RerankPath;
    var r := RerankPath(Leading(counts, logit), sigmoid, ["d", "e"], 2, true, "r");
    assert r.value == [sigmoid(logit("r")), 0.0];
  }

  lemma ShortLayout()
    ensures LaidOut(["d", "e"], 2, true, "r") == ["r", "d", "r", "e"]
    ensures Chunks(["r", "d", "r", "e"], 2) == [["r", "d"], ["r", "e"]]
    ensures RowOf(2, 2, true, 0) == 1 && RowOf(2, 2, true, 1) == 3
  {
    assert ["d", "e"][1..] == ["e"] && ["e"][1..] == [] && ["d", "e"][..1] == ["d"] && ["e"][..1] == ["e"];
    assert Pinned(["e"], 2, "r") == ["r", "e"];
    assert Pinned(["d", "e"], 2, "r") == Block(["d"], 2, "r") + Pinned(["e"], 2, "r");
    var whole, tail := ["r", "d", "r", "e"], ["r", "e"];
    assert whole[..2] == ["r", "d"] && whole[2..] == tail && tail[..2] == tail && tail[2..] == [];
    assert Chunks<string>([], 2) == [];
    assert Chunks(tail, 2) == [tail];
    PositionsCounted(2, 2);
    RowInClosedForm(2, 2, 0, 0);
    RowInClosedForm(2, 2, 0, 1);
  }
}
