/** The lexical head (vendor-fastembed/src/sparse_text_embedding/impl.rs): each row's tokens are folded into a map
    that keeps the largest weight per token, and the map is read out in token order. */
module SparseHead {
  import opened StableSort

  datatype SparseEmbedding = SparseEmbedding(indices: seq<nat>, values: seq<real>)

  const SPECIAL_TOKENS: set<nat> := {0, 1, 2, 3}

  /** A tensor of rank three with its shape; only reads inside the shape are allowed. */
  datatype Hidden = Hidden(shape: seq<nat>, at: (nat, nat) -> seq<real>)

  predicate OutputCoversInput(shape: seq<nat>, batch: nat, length: nat) {
    |shape| == 3 && shape[0] >= batch && shape[1] >= length
  }

  /** The guard is exactly what the loops need: every (row, position) of the input is an index of the output. */
  lemma CoversIffEveryIndexIsInside(shape: seq<nat>, batch: nat, length: nat)
    requires |shape| == 3 && batch > 0 && length > 0
    ensures OutputCoversInput(shape, batch, length)
            <==> forall b: nat, s: nat | b < batch && s < length :: Inside(shape, b, s)
  {
    if !OutputCoversInput(shape, batch, length) {
      assert !Inside(shape, batch - 1, length - 1);
    }
  }

  predicate Inside(shape: seq<nat>, b: nat, s: nat)
    requires |shape| == 3
  {
    b < shape[0] && s < shape[1]
  }

  /** A read of the token tensor. */
  function Slice(hidden: Hidden, b: nat, s: nat): seq<real>
    requires |hidden.shape| == 3 && Inside(hidden.shape, b, s)
  {
    hidden.at(b, s)
  }

  function Dot(a: seq<real>, w: seq<real>): real
    requires |a| == |w|
  {
    if a == [] then 0.0 else Dot(a[..|a| - 1], w[..|a| - 1]) + a[|a| - 1] * w[|a| - 1]
  }

  /** The dot product is the linear form with these coefficients: nothing for no weights, and one weight changed by `x`
      changes it by `x` times the coefficient beside it. */
  lemma {:induction false} DotOfZeros(a: seq<real>, w: seq<real>)
    requires |a| == |w| && forall i | 0 <= i < |w| :: w[i] == 0.0
    ensures Dot(a, w) == 0.0
  {
    if a != [] {
      DotOfZeros(a[..|a| - 1], w[..|a| - 1]);
    }
  }

  lemma {:induction false} DotOfChange(a: seq<real>, w: seq<real>, i: nat, x: real)
    requires |a| == |w| && i < |w|
    ensures Dot(a, w[i := w[i] + x]) == Dot(a, w) + a[i] * x
  {
    var n := |a| - 1;
    var v := w[i := w[i] + x];
    if i < n {
      DotOfChange(a[..n], w[..n], i, x);
      assert v[..n] == w[..n][i := w[..n][i] + x];
    } else {
      assert v[..n] == w[..n];
    }
  }

  /** One position of a row: its token, whether it is masked out, and its score before the clamp. */
  datatype Position = Position(token: nat, mask: int, score: real)

  predicate Counts(p: Position, token: nat) {
    p.mask != 0 && p.token == token && token !in SPECIAL_TOKENS && p.score > 0.0
  }

  /** What a row's embedding must be: strictly increasing tokens, exactly the unmasked non-special ones that score
      above zero somewhere, each with its largest score. */
  ghost predicate IsLexicalHead(row: seq<Position>, e: SparseEmbedding) {
    && |e.indices| == |e.values|
    && (forall j, k | 0 <= j < k < |e.indices| :: e.indices[j] < e.indices[k])
    && (forall s | 0 <= s < |row| && Counts(row[s], row[s].token) :: row[s].token in e.indices)
    && forall k | 0 <= k < |e.indices| :: IsLargest(row, |row|, e.indices[k], e.values[k])
  }

  /** `v` is the largest score `token` reaches among the first `n` positions where it counts. */
  ghost predicate IsLargest(row: seq<Position>, n: nat, token: nat, v: real)
    requires n <= |row|
  {
    && (exists s :: 0 <= s < n && Counts(row[s], token) && row[s].score == v)
    && (forall s | 0 <= s < n && Counts(row[s], token) :: row[s].score <= v)
  }

  /** The embedding is determined by the row. */
  lemma {:induction false} TheHeadIsUnique(row: seq<Position>, a: SparseEmbedding, b: SparseEmbedding)
    requires IsLexicalHead(row, a) && IsLexicalHead(row, b)
    ensures a == b
  {
    forall token ensures token in a.indices <==> token in b.indices {
      ListedIffCounted(row, a, token);
      ListedIffCounted(row, b, token);
    }
    IncreasingListsAgree(a.indices, b.indices);
    forall k | 0 <= k < |a.indices| ensures a.values[k] == b.values[k] {
      assert IsLargest(row, |row|, a.indices[k], a.values[k]) && IsLargest(row, |row|, b.indices[k], b.values[k]);
    }
  }

  lemma ListedIffCounted(row: seq<Position>, e: SparseEmbedding, token: nat)
    requires IsLexicalHead(row, e)
    ensures token in e.indices <==> exists s :: 0 <= s < |row| && Counts(row[s], token)
  {
    if token in e.indices {
      var k :| 0 <= k < |e.indices| && e.indices[k] == token;
      assert IsLargest(row, |row|, token, e.values[k]);
    }
  }

  lemma {:induction false} IncreasingListsAgree(a: seq<nat>, b: seq<nat>)
    requires forall j, k | 0 <= j < k < |a| :: a[j] < a[k]
    requires forall j, k | 0 <= j < k < |b| :: b[j] < b[k]
    requires forall x :: x in a <==> x in b
    ensures a == b
    decreases |a|
  {
    assert b != [] ==> b[0] in b;
    if a == [] {
    } else {
      var m := |a| - 1;
      assert a[m] in b;
      var n := |b| - 1;
      assert b[n] in a;
      assert a[m] == b[n];
      forall x ensures x in a[..m] <==> x in b[..n] {
        assert x in a[..m] <==> x in a && x != a[m];
        assert x in b[..n] <==> x in b && x != b[n];
      }
      IncreasingListsAgree(a[..m], b[..n]);
    }
  }

  /** The map holds, for exactly the tokens seen to count so far, their largest score so far. */
  ghost predicate Folded(row: seq<Position>, n: nat, weights: map<nat, real>)
    requires n <= |row|
  {
    && (forall s | 0 <= s < n && Counts(row[s], row[s].token) :: row[s].token in weights)
    && forall token | token in weights :: IsLargest(row, n, token, weights[token])
  }

  lemma FoldStep(row: seq<Position>, n: nat, before: map<nat, real>, after: map<nat, real>)
    requires n < |row| && Folded(row, n, before)
    requires var p := row[n];
             after == if !Counts(p, p.token) then before
                      else if p.token in before && before[p.token] >= p.score then before
                      else before[p.token := p.score]
    ensures Folded(row, n + 1, after)
  {
    forall token | token in after ensures IsLargest(row, n + 1, token, after[token]) {
      if token in before && after[token] == before[token] {
        assert IsLargest(row, n, token, before[token]);
        var s :| 0 <= s < n && Counts(row[s], token) && row[s].score == before[token];
      } else {
        assert Counts(row[n], token) && row[n].score == after[token];
        if token in before {
          assert IsLargest(row, n, token, before[token]);
        }
      }
    }
  }

  /** What the loops see of batch row `b`. */
  function RowOf(hidden: Hidden, ids: seq<seq<nat>>, mask: seq<seq<int>>, weights: seq<real>, bias: real, b: nat):
    (row: seq<Position>)
    requires b < |ids| == |mask| && |ids[b]| == |mask[b]|
    requires OutputCoversInput(hidden.shape, |ids|, |ids[b]|)
    requires forall s: nat | s < |ids[b]| :: |hidden.at(b, s)| == |weights|
    ensures |row| == |ids[b]|
  {
    seq(|ids[b]|, s requires 0 <= s < |ids[b]| =>
      Position(ids[b][s], mask[b][s], Dot(Slice(hidden, b, s), weights) + bias))
  }

  /** Position `s` of batch row `b` counts for `token`, with weight `v`: it holds that token, is not masked out, the
      token is none of the four special ones, and its hidden row scores `v` above zero. */
  ghost predicate Weighs(hidden: Hidden, ids: seq<seq<nat>>, mask: seq<seq<int>>, weights: seq<real>, bias: real,
                         b: nat, s: nat, token: nat, v: real)
    requires b < |ids| == |mask| && |ids[b]| == |mask[b]|
    requires forall s: nat | s < |ids[b]| :: |hidden.at(b, s)| == |weights|
  {
    && s < |ids[b]| && ids[b][s] == token && mask[b][s] != 0 && token !in {0, 1, 2, 3}
    && v == Dot(hidden.at(b, s), weights) + bias && v > 0.0
  }

  ghost predicate SomePositionWeighs(hidden: Hidden, ids: seq<seq<nat>>, mask: seq<seq<int>>, weights: seq<real>,
                                     bias: real, b: nat, token: nat, v: real)
    requires b < |ids| == |mask| && |ids[b]| == |mask[b]|
    requires forall s: nat | s < |ids[b]| :: |hidden.at(b, s)| == |weights|
  {
    exists s: nat :: Weighs(hidden, ids, mask, weights, bias, b, s, token, v)
  }

  predicate ListsAtLeast(e: SparseEmbedding, token: nat, v: real)
    requires |e.indices| == |e.values|
  {
    exists k | 0 <= k < |e.indices| :: e.indices[k] == token && v <= e.values[k]
  }

  /** Row `b`'s embedding: tokens increasing, every token that weighs anything and no other, each at the largest of its
      weights. */
  ghost predicate IsHeadOfRow(hidden: Hidden, ids: seq<seq<nat>>, mask: seq<seq<int>>, weights: seq<real>, bias: real,
                              b: nat, e: SparseEmbedding)
    requires b < |ids| == |mask| && |ids[b]| == |mask[b]|
    requires forall s: nat | s < |ids[b]| :: |hidden.at(b, s)| == |weights|
  {
    && |e.indices| == |e.values|
    && (forall j, k | 0 <= j < k < |e.indices| :: e.indices[j] < e.indices[k])
    && (forall k | 0 <= k < |e.indices| ::
          SomePositionWeighs(hidden, ids, mask, weights, bias, b, e.indices[k], e.values[k]))
    && (forall s: nat, token: nat, v: real | Weighs(hidden, ids, mask, weights, bias, b, s, token, v) ::
          ListsAtLeast(e, token, v))
  }

  lemma WeighsIff(hidden: Hidden, ids: seq<seq<nat>>, mask: seq<seq<int>>, weights: seq<real>, bias: real, b: nat,
                  s: nat, token: nat, v: real)
    requires b < |ids| == |mask| && |ids[b]| == |mask[b]|
    requires OutputCoversInput(hidden.shape, |ids|, |ids[b]|)
    requires forall s: nat | s < |ids[b]| :: |hidden.at(b, s)| == |weights|
    ensures var row := RowOf(hidden, ids, mask, weights, bias, b);
            Weighs(hidden, ids, mask, weights, bias, b, s, token, v)
            <==> s < |row| && Counts(row[s], token) && row[s].score == v
  {
    hide Dot;
  }

  lemma LargestWeighs(hidden: Hidden, ids: seq<seq<nat>>, mask: seq<seq<int>>, weights: seq<real>, bias: real, b: nat,
                      token: nat, v: real)
    requires b < |ids| == |mask| && |ids[b]| == |mask[b]|
    requires OutputCoversInput(hidden.shape, |ids|, |ids[b]|)
    requires forall s: nat | s < |ids[b]| :: |hidden.at(b, s)| == |weights|
    requires IsLargest(RowOf(hidden, ids, mask, weights, bias, b), |ids[b]|, token, v)
    ensures SomePositionWeighs(hidden, ids, mask, weights, bias, b, token, v)
    ensures forall s: nat, u: real | Weighs(hidden, ids, mask, weights, bias, b, s, token, u) :: u <= v
  {
    hide RowOf, Weighs, Counts;
    var row := RowOf(hidden, ids, mask, weights, bias, b);
    var s :| 0 <= s < |row| && Counts(row[s], token) && row[s].score == v;
    WeighsIff(hidden, ids, mask, weights, bias, b, s, token, v);
    forall s: nat, u: real | Weighs(hidden, ids, mask, weights, bias, b, s, token, u) ensures u <= v {
      WeighsIff(hidden, ids, mask, weights, bias, b, s, token, u);
    }
  }

  lemma WeighingIsListed(hidden: Hidden, ids: seq<seq<nat>>, mask: seq<seq<int>>, weights: seq<real>, bias: real,
                         b: nat, e: SparseEmbedding, s: nat, token: nat, v: real)
    requires b < |ids| == |mask| && |ids[b]| == |mask[b]|
    requires OutputCoversInput(hidden.shape, |ids|, |ids[b]|)
    requires forall s: nat | s < |ids[b]| :: |hidden.at(b, s)| == |weights|
    requires IsLexicalHead(RowOf(hidden, ids, mask, weights, bias, b), e)
    requires Weighs(hidden, ids, mask, weights, bias, b, s, token, v)
    ensures token in e.indices
  {
    hide RowOf, IsLargest;
    WeighsIff(hidden, ids, mask, weights, bias, b, s, token, v);
    hide Weighs;
  }

  lemma HeadOfRow(hidden: Hidden, ids: seq<seq<nat>>, mask: seq<seq<int>>, weights: seq<real>, bias: real, b: nat,
                  e: SparseEmbedding)
    requires b < |ids| == |mask| && |ids[b]| == |mask[b]|
    requires OutputCoversInput(hidden.shape, |ids|, |ids[b]|)
    requires forall s: nat | s < |ids[b]| :: |hidden.at(b, s)| == |weights|
    requires IsLexicalHead(RowOf(hidden, ids, mask, weights, bias, b), e)
    ensures IsHeadOfRow(hidden, ids, mask, weights, bias, b, e)
  {
    hide RowOf, Weighs, SomePositionWeighs;
    forall k | 0 <= k < |e.indices|
      ensures SomePositionWeighs(hidden, ids, mask, weights, bias, b, e.indices[k], e.values[k])
    {
      LargestWeighs(hidden, ids, mask, weights, bias, b, e.indices[k], e.values[k]);
    }
    forall s: nat, token: nat, v: real | Weighs(hidden, ids, mask, weights, bias, b, s, token, v)
      ensures ListsAtLeast(e, token, v)
    {
      WeighingIsListed(hidden, ids, mask, weights, bias, b, e, s, token, v);
      var k :| 0 <= k < |e.indices| && e.indices[k] == token;
      LargestWeighs(hidden, ids, mask, weights, bias, b, token, e.values[k]);
      assert v <= e.values[k];
    }
  }

  /** `post_process_bgem3`. The guard on the output's shape is what makes every read of it lie inside. */
  method PostProcess(hidden: Hidden, ids: seq<seq<nat>>, mask: seq<seq<int>>, weights: seq<real>, bias: real)
    returns (rows: seq<SparseEmbedding>)
    requires |ids| == |mask| && forall b | 0 <= b < |ids| :: |ids[b]| == |mask[b]| == |ids[0]|
    requires ids != [] ==> OutputCoversInput(hidden.shape, |ids|, |ids[0]|)
    requires forall b: nat, s: nat | ids != [] && b < |ids| && s < |ids[0]| :: |hidden.at(b, s)| == |weights|
    ensures |rows| == |ids|
    ensures forall b | 0 <= b < |ids| :: IsLexicalHead(RowOf(hidden, ids, mask, weights, bias, b), rows[b])
    ensures forall b | 0 <= b < |ids| :: IsHeadOfRow(hidden, ids, mask, weights, bias, b, rows[b])
  {
    hide IsLexicalHead, IsHeadOfRow, Folded, RowOf;
    rows := [];
    for b := 0 to |ids|
      invariant |rows| == b
      invariant forall c | 0 <= c < b :: IsLexicalHead(RowOf(hidden, ids, mask, weights, bias, c), rows[c])
      invariant forall c | 0 <= c < b :: IsHeadOfRow(hidden, ids, mask, weights, bias, c, rows[c])
    {
      var tokenWeights := FoldRow(hidden, ids, mask, weights, bias, b);
      var head := ReadOut(RowOf(hidden, ids, mask, weights, bias, b), tokenWeights);
      HeadOfRow(hidden, ids, mask, weights, bias, b, head);
      rows := rows + [head];
    }
  }

  /** The loop over one row's positions. */
  method FoldRow(hidden: Hidden, ids: seq<seq<nat>>, mask: seq<seq<int>>, weights: seq<real>, bias: real, b: nat)
    returns (tokenWeights: map<nat, real>)
    requires b < |ids| == |mask| && |ids[b]| == |mask[b]|
    requires OutputCoversInput(hidden.shape, |ids|, |ids[b]|)
    requires forall s: nat | s < |ids[b]| :: |hidden.at(b, s)| == |weights|
    ensures Folded(RowOf(hidden, ids, mask, weights, bias, b), |ids[b]|, tokenWeights)
    ensures forall token | token in tokenWeights ::
              SomePositionWeighs(hidden, ids, mask, weights, bias, b, token, tokenWeights[token])
    ensures forall s: nat, token: nat, v: real | Weighs(hidden, ids, mask, weights, bias, b, s, token, v) ::
              token in tokenWeights && v <= tokenWeights[token]
  {
    hide Folded, SomePositionWeighs, Weighs;
    ghost var row := RowOf(hidden, ids, mask, weights, bias, b);
    tokenWeights := map[];
    NothingFolded(row);
    for s := 0 to |ids[b]|
      invariant Folded(row, s, tokenWeights)
    {
      ghost var before := tokenWeights;
      var token := ids[b][s];
      if mask[b][s] != 0 && token !in SPECIAL_TOKENS {
        var score := Dot(Slice(hidden, b, s), weights) + bias;
        var weight := if score >= 0.0 then score else 0.0;
        if weight > 0.0 {
          if token in tokenWeights {
            var w := tokenWeights[token];
            tokenWeights := tokenWeights[token := if w >= weight then w else weight];
          } else {
            tokenWeights := tokenWeights[token := weight];
          }
        }
      }
      assert token in before && token in tokenWeights && tokenWeights[token] == before[token] ==>
               tokenWeights == before;
      FoldStep(row, s, before, tokenWeights);
    }
    FoldedWeighs(hidden, ids, mask, weights, bias, b, tokenWeights);
  }

  lemma FoldedWeighs(hidden: Hidden, ids: seq<seq<nat>>, mask: seq<seq<int>>, weights: seq<real>, bias: real, b: nat,
                     tokenWeights: map<nat, real>)
    requires b < |ids| == |mask| && |ids[b]| == |mask[b]|
    requires OutputCoversInput(hidden.shape, |ids|, |ids[b]|)
    requires forall s: nat | s < |ids[b]| :: |hidden.at(b, s)| == |weights|
    requires Folded(RowOf(hidden, ids, mask, weights, bias, b), |ids[b]|, tokenWeights)
    ensures forall token | token in tokenWeights ::
              SomePositionWeighs(hidden, ids, mask, weights, bias, b, token, tokenWeights[token])
    ensures forall s: nat, token: nat, v: real | Weighs(hidden, ids, mask, weights, bias, b, s, token, v) ::
              token in tokenWeights && v <= tokenWeights[token]
  {
    hide RowOf, Weighs, SomePositionWeighs, IsLargest;
    forall token | token in tokenWeights
      ensures SomePositionWeighs(hidden, ids, mask, weights, bias, b, token, tokenWeights[token])
    {
      LargestWeighs(hidden, ids, mask, weights, bias, b, token, tokenWeights[token]);
    }
    forall s: nat, token: nat, v: real | Weighs(hidden, ids, mask, weights, bias, b, s, token, v)
      ensures token in tokenWeights && v <= tokenWeights[token]
    {
      WeighsIff(hidden, ids, mask, weights, bias, b, s, token, v);
      LargestWeighs(hidden, ids, mask, weights, bias, b, token, tokenWeights[token]);
    }
  }

  lemma NothingFolded(row: seq<Position>)
    ensures Folded(row, 0, map[])
  {
  }

  /** The map's keys, in whatever order it lists them. */
  method KeysOf(weights: map<nat, real>) returns (keys: seq<nat>)
    ensures forall x :: x in keys <==> x in weights
    ensures forall j, k | 0 <= j < k < |keys| :: keys[j] != keys[k]
  {
    keys := [];
    var left := weights.Keys;
    while left != {}
      invariant forall x :: x in left <==> x in weights && x !in keys
      invariant forall x | x in keys :: x in weights
      invariant forall j, k | 0 <= j < k < |keys| :: keys[j] != keys[k]
      decreases |left|
    {
      var x :| x in left;
      keys := keys + [x];
      left := left - {x};
    }
  }

  /** The keys sorted, each with its weight. */
  method ReadOut(ghost row: seq<Position>, weights: map<nat, real>) returns (e: SparseEmbedding)
    requires Folded(row, |row|, weights)
    ensures IsLexicalHead(row, e)
  {
    hide SortBy;
    var keys := KeysOf(weights);
    var le := (x: nat, y: nat) => x <= y;
    var indices := SortBy(le, keys);
    SortedKeys(le, keys);
    assert forall k | 0 <= k < |indices| :: indices[k] in indices && indices[k] in weights;
    e := SparseEmbedding(indices, seq(|indices|, k requires 0 <= k < |indices| => weights[indices[k]]));
  }

  /** Distinct keys sort into strictly increasing order. */
  lemma SortedKeys(le: (nat, nat) -> bool, keys: seq<nat>)
    requires forall x, y :: le(x, y) <==> x <= y
    requires forall j, k | 0 <= j < k < |keys| :: keys[j] != keys[k]
    ensures forall j, k | 0 <= j < k < |keys| :: SortBy(le, keys)[j] < SortBy(le, keys)[k]
    ensures forall x :: x in SortBy(le, keys) <==> x in keys
  {
    var differ := (x: nat, y: nat) => x != y;
    SortIsStable(le, differ, keys);
    var sorted := SortBy(le, keys);
    forall j, k | 0 <= j < k < |keys| ensures sorted[j] < sorted[k] {
      assert InOrder(le, differ, sorted[j], sorted[k]);
    }
    forall x ensures x in sorted <==> x in keys {
      SameElements(sorted, keys, x);
    }
  }
}
