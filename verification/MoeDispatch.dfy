/** The mixture-of-experts layer (vendor-fastembed/src/models/nomic_v2_moe.rs): a router picks each token's best
    experts, and the layer runs expert by expert, adding every weighted row into one flat buffer. In exact
    arithmetic that must be each token's own weighted sum. */
module MoeDispatch {
  import opened Division
  import opened StableSort
  import opened Wrappers

  // ---------- the router ----------

  datatype Choice = Choice(expert: nat, weight: real)

  function Candidates(weights: seq<real>): seq<Choice> {
    seq(|weights|, e requires 0 <= e < |weights| => Choice(e, weights[e]))
  }

  function Ranked(weights: seq<real>): (r: seq<Choice>)
    ensures |r| == |weights|
  {
    SortBy((a: Choice, b: Choice) => a.weight >= b.weight, Candidates(weights))
  }

  /** The first `k` of one token's candidates, best first. */
  function TopK(weights: seq<real>, k: nat): seq<Choice>
    requires k <= |weights|
  {
    Ranked(weights)[..k]
  }

  /** Best first, the lower expert first among equals. */
  predicate Better(a: Choice, b: Choice) {
    a.weight > b.weight || (a.weight == b.weight && a.expert < b.expert)
  }

  lemma RankedIsBestFirst(weights: seq<real>)
    ensures forall i, j | 0 <= i < j < |weights| :: Better(Ranked(weights)[i], Ranked(weights)[j])
    ensures forall c :: c in Ranked(weights) <==> c.expert < |weights| && c.weight == weights[c.expert]
  {
    var le := (a: Choice, b: Choice) => a.weight >= b.weight;
    var before := (a: Choice, b: Choice) => a.expert < b.expert;
    SortIsStable(le, before, Candidates(weights));
    forall i, j | 0 <= i < j < |weights| ensures Better(Ranked(weights)[i], Ranked(weights)[j]) {
      assert InOrder(le, before, Ranked(weights)[i], Ranked(weights)[j]);
      assert le(Ranked(weights)[i], Ranked(weights)[j]);
    }
    forall c ensures c in Ranked(weights) <==> c.expert < |weights| && c.weight == weights[c.expert] {
      SameElements(Ranked(weights), Candidates(weights), c);
      if c.expert < |weights| && c.weight == weights[c.expert] {
        assert Candidates(weights)[c.expert] == c;
      }
    }
  }

  /** The `k` choices are of distinct experts, each at its own weight, and every expert left out is worse than
      every one chosen: lighter, or tied with a higher number. */
  lemma TopKIsTheBest(weights: seq<real>, k: nat)
    requires k <= |weights|
    ensures |TopK(weights, k)| == k
    ensures forall i, j | 0 <= i < j < k :: TopK(weights, k)[i].expert != TopK(weights, k)[j].expert
    ensures forall c | c in TopK(weights, k) :: c.expert < |weights| && c.weight == weights[c.expert]
    ensures forall e | 0 <= e < |weights| && Choice(e, weights[e]) !in TopK(weights, k) ::
              forall c | c in TopK(weights, k) :: Better(c, Choice(e, weights[e]))
  {
    hide Ranked;
    RankedIsBestFirst(weights);
    var all, top := Ranked(weights), TopK(weights, k);
    forall i, j | 0 <= i < j < k ensures top[i].expert != top[j].expert {
      assert Better(all[i], all[j]);
      assert all[i] in all && all[j] in all;
    }
    forall c | c in top ensures c in all {
      var i :| 0 <= i < k && top[i] == c;
      assert all[i] == c;
    }
    forall e, c | 0 <= e < |weights| && Choice(e, weights[e]) !in top && c in top
      ensures Better(c, Choice(e, weights[e]))
    {
      assert Choice(e, weights[e]) in all;
      var j :| 0 <= j < |all| && all[j] == Choice(e, weights[e]);
      var i :| 0 <= i < k && top[i] == c;
      assert Better(all[i], all[j]);
    }
  }

  // ---------- each token's own sum ----------

  /** An expert applied to one token's row: `apply(e, x)[j]` is coordinate `j` of its output. */
  type Expert<!X> = (nat, X, nat) -> real

  /** One token's weighted sum over the choices whose expert is below `limit`. */
  function OwnSum<X>(apply: Expert<X>, x: X, j: nat, choices: seq<Choice>, limit: nat): real {
    if choices == [] then 0.0
    else
      var n := |choices| - 1;
      var c := choices[n];
      OwnSum(apply, x, j, choices[..n], limit) + if c.expert < limit then apply(c.expert, x, j) * c.weight else 0.0
  }

  /** The part one expert contributes to a token. */
  function Share<X>(apply: Expert<X>, x: X, j: nat, choices: seq<Choice>, e: nat): real {
    if choices == [] then 0.0
    else
      var n := |choices| - 1;
      var c := choices[n];
      Share(apply, x, j, choices[..n], e) + if c.expert == e then apply(e, x, j) * c.weight else 0.0
  }

  lemma {:induction false} OneMoreExpert<X>(apply: Expert<X>, x: X, j: nat, choices: seq<Choice>, e: nat)
    ensures OwnSum(apply, x, j, choices, e + 1) == OwnSum(apply, x, j, choices, e) + Share(apply, x, j, choices, e)
  {
    if choices != [] {
      OneMoreExpert(apply, x, j, choices[..|choices| - 1], e);
    }
  }

  lemma {:induction false} NoExperts<X>(apply: Expert<X>, x: X, j: nat, choices: seq<Choice>)
    ensures OwnSum(apply, x, j, choices, 0) == 0.0
  {
    if choices != [] {
      NoExperts(apply, x, j, choices[..|choices| - 1]);
    }
  }

  // ---------- grouping by expert ----------

  datatype Assigned = Assigned(token: nat, weight: real)

  /** What the assignments of one expert add to a token. */
  function Added<X>(apply: Expert<X>, xs: seq<X>, e: nat, group: seq<Assigned>, t: nat, j: nat): real
    requires t < |xs|
  {
    if group == [] then 0.0
    else
      var n := |group| - 1;
      Added(apply, xs, e, group[..n], t, j)
      + if group[n].token == t then apply(e, xs[t], j) * group[n].weight else 0.0
  }

  lemma AddedOne<X>(apply: Expert<X>, xs: seq<X>, e: nat, group: seq<Assigned>, a: Assigned, t: nat, j: nat)
    requires t < |xs|
    ensures Added(apply, xs, e, group + [a], t, j)
            == Added(apply, xs, e, group, t, j) + if a.token == t then apply(e, xs[t], j) * a.weight else 0.0
  {
    assert (group + [a])[..|group|] == group;
  }

  /** The grouping loops: every choice of expert `e`, token by token. Added up per token they are that token's
      share of the expert. */
  method Group<X>(ghost apply: Expert<X>, ghost xs: seq<X>, choices: seq<seq<Choice>>, e: nat)
    returns (group: seq<Assigned>)
    requires |xs| == |choices|
    ensures forall a | a in group :: a.token < |choices|
    ensures forall t: nat, j: nat | t < |xs| ::
              Added(apply, xs, e, group, t, j) == Share(apply, xs[t], j, choices[t], e)
  {
    group := [];
    for token := 0 to |choices|
      invariant forall a | a in group :: a.token < token
      invariant forall t: nat, j: nat | t < |xs| ::
                  Added(apply, xs, e, group, t, j) == if t < token then Share(apply, xs[t], j, choices[t], e) else 0.0
    {
      for i := 0 to |choices[token]|
        invariant forall a | a in group :: a.token <= token
        invariant forall t: nat, j: nat | t < |xs| ::
                    Added(apply, xs, e, group, t, j)
                    == if t < token then Share(apply, xs[t], j, choices[t], e)
                       else if t == token then Share(apply, xs[t], j, choices[t][..i], e) else 0.0
      {
        var c := choices[token][i];
        assert choices[token][..i + 1][..i] == choices[token][..i];
        if c.expert == e {
          forall t: nat, j: nat | t < |xs|
            ensures Added(apply, xs, e, group + [Assigned(token, c.weight)], t, j)
                    == Added(apply, xs, e, group, t, j) + if t == token then apply(e, xs[t], j) * c.weight else 0.0
          {
            AddedOne(apply, xs, e, group, Assigned(token, c.weight), t, j);
          }
          group := group + [Assigned(token, c.weight)];
        }
      }
      assert choices[token][..|choices[token]|] == choices[token];
    }
  }

  // ---------- the flat buffer ----------

  /** Which token and coordinate the buffer's i-th slot belongs to. */
  function TokenOf(hidden: nat, i: nat): nat
    requires hidden > 0
  {
    i / hidden
  }

  function CoordOf(hidden: nat, i: nat): nat
    requires hidden > 0
  {
    i % hidden
  }

  lemma SlotOf(tokens: nat, hidden: nat, i: nat)
    requires i < tokens * hidden
    ensures hidden > 0 && TokenOf(hidden, i) < tokens && CoordOf(hidden, i) < hidden
    ensures i == TokenOf(hidden, i) * hidden + CoordOf(hidden, i)
  {
    assert hidden == 0 ==> tokens * hidden == 0;
    if i / hidden >= tokens {
      Monotone(tokens, i / hidden, hidden);
    }
  }

  lemma SlotAt(tokens: nat, hidden: nat, t: nat, j: nat)
    requires t < tokens && j < hidden
    ensures 0 <= t * hidden + j < tokens * hidden
    ensures TokenOf(hidden, t * hidden + j) == t && CoordOf(hidden, t * hidden + j) == j
  {
    Monotone(t + 1, tokens, hidden);
    Distribute(t, 1, hidden);
    QuotientIsUnique(t * hidden + j, hidden, t, j);
  }

  /** The buffer after the experts below `e` and the first `n` assignments of expert `e` were added. */
  ghost predicate Scattered<X>(output: seq<real>, apply: Expert<X>, xs: seq<X>, choices: seq<seq<Choice>>, hidden: nat,
                               e: nat, group: seq<Assigned>)
  {
    && |xs| == |choices|
    && |output| == |xs| * hidden
    && forall i: nat | i < |output| :: Holds(output, apply, xs, choices, hidden, e, group, i)
  }

  ghost predicate Holds<X>(output: seq<real>, apply: Expert<X>, xs: seq<X>, choices: seq<seq<Choice>>, hidden: nat,
                           e: nat, group: seq<Assigned>, i: nat)
    requires |xs| == |choices| && i < |output| == |xs| * hidden
  {
    SlotOf(|xs|, hidden, i);
    var t, j := TokenOf(hidden, i), CoordOf(hidden, i);
    output[i] == OwnSum(apply, xs[t], j, choices[t], e) + Added(apply, xs, e, group, t, j)
  }

  /** One weighted row added into its token's slots. */
  method AddRow<X>(output: array<real>, apply: Expert<X>, xs: seq<X>, ghost choices: seq<seq<Choice>>, hidden: nat,
                   e: nat, ghost group: seq<Assigned>, a: Assigned)
    requires a.token < |xs| && Scattered(output[..], apply, xs, choices, hidden, e, group)
    modifies output
    ensures Scattered(output[..], apply, xs, choices, hidden, e, group + [a])
  {
    hide TokenOf, CoordOf, Scattered, Holds;
    RowStarts(output[..], apply, xs, choices, hidden, e, group, a);
    for j := 0 to hidden
      invariant PartOfRow(output[..], apply, xs, choices, hidden, e, group, a, j)
    {
      SlotAt(|xs|, hidden, a.token, j);
      var at := a.token * hidden + j;
      PartCounted(output[..], apply, xs, choices, hidden, e, group, a, j);
      var val := apply(e, xs[a.token], j) * a.weight;
      ghost var was := output[..];
      CoordAdded(was, apply, xs, choices, hidden, e, group, a, j, at);
      output[at] := output[at] + val;
      assert output[..] == was[at := was[at] + val];
    }
    RowEnds(output[..], apply, xs, choices, hidden, e, group, a);
  }

  /** The buffer while one row is being added: its first `done` coordinates count it already. */
  ghost predicate PartOfRow<X>(output: seq<real>, apply: Expert<X>, xs: seq<X>, choices: seq<seq<Choice>>, hidden: nat,
                               e: nat, group: seq<Assigned>, a: Assigned, done: nat)
  {
    && |xs| == |choices|
    && |output| == |xs| * hidden
    && forall i: nat | i < |output| ::
         (SlotOf(|xs|, hidden, i);
          Holds(output, apply, xs, choices, hidden, e,
                if TokenOf(hidden, i) == a.token && CoordOf(hidden, i) < done then group + [a] else group, i))
  }

  lemma RowStarts<X>(output: seq<real>, apply: Expert<X>, xs: seq<X>, choices: seq<seq<Choice>>, hidden: nat, e: nat,
                     group: seq<Assigned>, a: Assigned)
    requires Scattered(output, apply, xs, choices, hidden, e, group)
    ensures PartOfRow(output, apply, xs, choices, hidden, e, group, a, 0)
  {
    hide Holds, TokenOf, CoordOf;
    forall i: nat | i < |output| ensures hidden > 0 && CoordOf(hidden, i) >= 0 {
      SlotOf(|xs|, hidden, i);
    }
  }

  lemma PartCounted<X>(output: seq<real>, apply: Expert<X>, xs: seq<X>, choices: seq<seq<Choice>>, hidden: nat, e: nat,
                       group: seq<Assigned>, a: Assigned, done: nat)
    requires PartOfRow(output, apply, xs, choices, hidden, e, group, a, done)
    ensures |output| == |xs| * hidden && |xs| == |choices|
  {
  }

  lemma CoordAdded<X>(output: seq<real>, apply: Expert<X>, xs: seq<X>, choices: seq<seq<Choice>>, hidden: nat, e: nat,
                      group: seq<Assigned>, a: Assigned, j: nat, at: nat)
    requires a.token < |xs| && j < hidden && at == a.token * hidden + j && at < |output|
    requires PartOfRow(output, apply, xs, choices, hidden, e, group, a, j)
    ensures PartOfRow(output[at := output[at] + apply(e, xs[a.token], j) * a.weight], apply, xs, choices, hidden, e,
                      group, a, j + 1)
  {
    hide TokenOf, CoordOf, OwnSum, Added;
    var after := output[at := output[at] + apply(e, xs[a.token], j) * a.weight];
    forall i: nat | i < |after|
      ensures hidden > 0
      ensures Holds(after, apply, xs, choices, hidden, e,
                    if TokenOf(hidden, i) == a.token && CoordOf(hidden, i) < j + 1 then group + [a] else group, i)
    {
      SlotOf(|xs|, hidden, i);
      var t := TokenOf(hidden, i);
      AddedOne(apply, xs, e, group, a, t, CoordOf(hidden, i));
      SlotAt(|xs|, hidden, a.token, j);
      assert Holds(output, apply, xs, choices, hidden, e,
                   if t == a.token && CoordOf(hidden, i) < j then group + [a] else group, i);
    }
  }

  lemma RowEnds<X>(output: seq<real>, apply: Expert<X>, xs: seq<X>, choices: seq<seq<Choice>>, hidden: nat, e: nat,
                   group: seq<Assigned>, a: Assigned)
    requires PartOfRow(output, apply, xs, choices, hidden, e, group, a, hidden)
    ensures Scattered(output, apply, xs, choices, hidden, e, group + [a])
  {
    hide TokenOf, CoordOf, OwnSum, Added;
    forall i: nat | i < |output| ensures Holds(output, apply, xs, choices, hidden, e, group + [a], i) {
      SlotOf(|xs|, hidden, i);
      AddedOne(apply, xs, e, group, a, TokenOf(hidden, i), CoordOf(hidden, i));
    }
  }

  lemma NothingAdded<X>(output: seq<real>, apply: Expert<X>, xs: seq<X>, choices: seq<seq<Choice>>, hidden: nat)
    requires |xs| == |choices| && |output| == |xs| * hidden && forall i | 0 <= i < |output| :: output[i] == 0.0
    ensures Scattered(output, apply, xs, choices, hidden, 0, [])
  {
    hide TokenOf, CoordOf, OwnSum;
    forall i: nat | i < |output| ensures Holds(output, apply, xs, choices, hidden, 0, [], i) {
      SlotOf(|xs|, hidden, i);
      NoExperts(apply, xs[TokenOf(hidden, i)], CoordOf(hidden, i), choices[TokenOf(hidden, i)]);
    }
  }

  lemma ExpertDone<X>(output: seq<real>, apply: Expert<X>, xs: seq<X>, choices: seq<seq<Choice>>, hidden: nat, e: nat,
                      group: seq<Assigned>)
    requires Scattered(output, apply, xs, choices, hidden, e, group)
    requires forall t: nat, j: nat | t < |xs| ::
               Added(apply, xs, e, group, t, j) == Share(apply, xs[t], j, choices[t], e)
    ensures Scattered(output, apply, xs, choices, hidden, e + 1, [])
  {
    hide TokenOf, CoordOf, OwnSum, Share;
    var next := e + 1;
    forall i: nat | i < |output| ensures Holds(output, apply, xs, choices, hidden, next, [], i) {
      SlotOf(|xs|, hidden, i);
      var t, j := TokenOf(hidden, i), CoordOf(hidden, i);
      assert Holds(output, apply, xs, choices, hidden, e, group, i);
      OneMoreExpert(apply, xs[t], j, choices[t], e);
    }
  }

  /** The dispatch loop: every expert once, its group's rows scattered into the buffer. */
  method Dispatch<X>(apply: Expert<X>, xs: seq<X>, choices: seq<seq<Choice>>, hidden: nat, experts: nat)
    returns (output: seq<real>)
    requires |xs| == |choices|
    ensures Scattered(output, apply, xs, choices, hidden, experts, [])
  {
    hide Scattered, Added;
    BufferSize(|xs|, hidden);
    var buffer := new real[|xs| * hidden](_ => 0.0);
    NothingAdded(buffer[..], apply, xs, choices, hidden);
    for e := 0 to experts
      invariant Scattered(buffer[..], apply, xs, choices, hidden, e, [])
    {
      var group := Group(apply, xs, choices, e);
      assert group[..0] == [];
      for l := 0 to |group|
        invariant Scattered(buffer[..], apply, xs, choices, hidden, e, group[..l])
      {
        assert group[l] in group && group[..l + 1] == group[..l] + [group[l]];
        AddRow(buffer, apply, xs, choices, hidden, e, group[..l], group[l]);
      }
      assert group[..|group|] == group;
      ExpertDone(buffer[..], apply, xs, choices, hidden, e, group);
    }
    output := buffer[..];
  }

  lemma BufferSize(tokens: nat, hidden: nat)
    ensures 0 <= tokens * hidden
  {
  }

  // ---------- the layer ----------

  /** A token's exact weighted sum over its choices, every one counted. */
  function WeightedSum<X>(apply: Expert<X>, x: X, j: nat, choices: seq<Choice>): real {
    if choices == [] then 0.0
    else
      var n := |choices| - 1;
      WeightedSum(apply, x, j, choices[..n]) + apply(choices[n].expert, x, j) * choices[n].weight
  }

  /** The sum is linear in the weights: nothing for weights of zero, and one choice's weight changed by `delta` changes
      it by `delta` times that choice's own expert applied to the token. */
  lemma {:induction false} SumOfZeros<X>(apply: Expert<X>, x: X, j: nat, choices: seq<Choice>)
    requires forall i | 0 <= i < |choices| :: choices[i].weight == 0.0
    ensures WeightedSum(apply, x, j, choices) == 0.0
  {
    if choices != [] {
      SumOfZeros(apply, x, j, choices[..|choices| - 1]);
    }
  }

  lemma {:induction false} SumOfChange<X>(apply: Expert<X>, x: X, j: nat, choices: seq<Choice>, i: nat, delta: real)
    requires i < |choices|
    ensures WeightedSum(apply, x, j, choices[i := Choice(choices[i].expert, choices[i].weight + delta)])
            == WeightedSum(apply, x, j, choices) + apply(choices[i].expert, x, j) * delta
  {
    var n := |choices| - 1;
    var changed := choices[i := Choice(choices[i].expert, choices[i].weight + delta)];
    if i < n {
      SumOfChange(apply, x, j, choices[..n], i, delta);
      assert changed[..n] == choices[..n][i := Choice(choices[..n][i].expert, choices[..n][i].weight + delta)];
    } else {
      assert changed[..n] == choices[..n];
    }
  }

  lemma {:induction false} EveryChoiceCounts<X>(apply: Expert<X>, x: X, j: nat, choices: seq<Choice>, experts: nat)
    requires forall c | c in choices :: c.expert < experts
    ensures OwnSum(apply, x, j, choices, experts) == WeightedSum(apply, x, j, choices)
  {
    if choices != [] {
      var n := |choices| - 1;
      assert choices[n] in choices;
      EveryChoiceCounts(apply, x, j, choices[..n], experts);
    }
  }

  /** The router: every token's best, pushed onto one list which must then have the shape `(tokens, topK)`. */
  method Route(gate: seq<seq<real>>, experts: nat, topK: nat) returns (r: Option<seq<seq<Choice>>>)
    requires forall t | 0 <= t < |gate| :: |gate[t]| == experts
    ensures r.Some? <==> gate == [] || topK <= experts
    ensures r.Some? ==> |r.value| == |gate| && forall t | 0 <= t < |gate| :: r.value[t] == TopK(gate[t], topK)
  {
    hide Ranked;
    var flat: seq<Choice> := [];
    var taken := if topK < experts then topK else experts;
    for t := 0 to |gate|
      invariant |flat| == t * taken
      invariant forall u: nat | u < t :: RowAt(flat, u, taken, Ranked(gate[u])[..taken])
    {
      var indexed := Ranked(gate[t]);
      forall u: nat | u < t ensures RowAt(flat + indexed[..taken], u, taken, Ranked(gate[u])[..taken]) {
        RowKept(flat, indexed[..taken], u, taken, Ranked(gate[u])[..taken]);
      }
      Distribute(t, 1, taken);
      flat := flat + indexed[..taken];
    }
    if |flat| != |gate| * topK {
      ShapeMatches(|gate|, taken, topK);
      return None;
    }
    ShapeMatches(|gate|, taken, topK);
    r := Some(Reshaped(flat, |gate|, topK));
    forall t | 0 <= t < |gate| ensures r.value[t] == TopK(gate[t], topK) {
      assert RowAt(flat, t, taken, Ranked(gate[t])[..taken]);
    }
  }

  /** Row `u` of a flat list of rows of `width`. */
  predicate RowAt<T(==)>(flat: seq<T>, u: nat, width: nat, row: seq<T>) {
    u * width + width <= |flat| && 0 <= u * width && flat[u * width..u * width + width] == row
  }

  lemma RowKept<T>(flat: seq<T>, more: seq<T>, u: nat, width: nat, row: seq<T>)
    requires RowAt(flat, u, width, row)
    ensures RowAt(flat + more, u, width, row)
  {
  }

  lemma ShapeMatches(tokens: nat, taken: nat, topK: nat)
    requires taken <= topK
    ensures tokens * taken == tokens * topK <==> tokens == 0 || taken == topK
  {
    if tokens > 0 && taken < topK {
      Monotone(1, tokens, topK - taken);
      Distribute(taken, topK - taken, tokens);
    }
  }

  function Reshaped<T>(flat: seq<T>, rows: nat, width: nat): (r: seq<seq<T>>)
    requires |flat| == rows * width
    ensures |r| == rows
  {
    seq(rows, t requires 0 <= t < rows => (Monotone(t + 1, rows, width); Distribute(t, 1, width);
                                           flat[t * width..t * width + width]))
  }

  lemma ReshapedAt<T>(flat: seq<T>, rows: nat, width: nat, t: nat, j: nat)
    requires |flat| == rows * width && t < rows && j < width
    ensures 0 <= t * width + j < |flat|
    ensures |Reshaped(flat, rows, width)[t]| == width && Reshaped(flat, rows, width)[t][j] == flat[t * width + j]
  {
    Monotone(t + 1, rows, width);
    Distribute(t, 1, width);
  }

  lemma RowWidth<T>(flat: seq<T>, rows: nat, width: nat, t: nat)
    requires |flat| == rows * width && t < rows
    ensures |Reshaped(flat, rows, width)[t]| == width
  {
    Monotone(t + 1, rows, width);
    Distribute(t, 1, width);
  }

  function PlusBias(row: seq<real>, bias: seq<real>): (r: seq<real>)
    requires |row| == |bias|
    ensures |r| == |row|
  {
    seq(|row|, j requires 0 <= j < |row| => row[j] + bias[j])
  }

  /** The whole layer. It fails only when there are tokens and fewer experts than asked for; otherwise every
      coordinate of every token is the bias plus that token's own weighted sum over its own best experts. */
  method Forward<X>(apply: Expert<X>, xs: seq<X>, gate: seq<seq<real>>, hidden: nat, experts: nat, topK: nat,
                    bias: seq<real>)
    returns (r: Option<seq<seq<real>>>)
    requires |xs| == |gate| && |bias| == hidden && forall t | 0 <= t < |gate| :: |gate[t]| == experts
    ensures r.Some? <==> xs == [] || topK <= experts
    ensures r.Some? ==> |r.value| == |xs| && forall t | 0 <= t < |xs| :: |r.value[t]| == hidden
    ensures r.Some? ==> forall t, j | 0 <= t < |xs| && 0 <= j < hidden ::
              r.value[t][j] == WeightedSum(apply, xs[t], j, TopK(gate[t], topK)) + bias[j]
  {
    hide Scattered, TopK, WeightedSum, Reshaped;
    var routed := Route(gate, experts, topK);
    if routed.None? {
      return None;
    }
    var choices := routed.value;
    var flat := Dispatch(apply, xs, choices, hidden, experts);
    assert |flat| == |xs| * hidden by { ScatteredCounted(flat, apply, xs, choices, hidden, experts); }
    var rows := Reshaped(flat, |xs|, hidden);
    forall t | 0 <= t < |xs| ensures |rows[t]| == hidden {
      RowWidth(flat, |xs|, hidden, t);
    }
    var biased := seq(|xs|, t requires 0 <= t < |xs| => PlusBias(rows[t], bias));
    forall t, j | 0 <= t < |xs| && 0 <= j < hidden
      ensures biased[t][j] == WeightedSum(apply, xs[t], j, choices[t]) + bias[j]
    {
      TopKIsTheBest(gate[t], topK);
      ReshapedAt(flat, |xs|, hidden, t, j);
      FinishedSlot(flat, apply, xs, choices, hidden, experts, t, j);
    }
    r := Some(biased);
  }

  lemma ScatteredCounted<X>(output: seq<real>, apply: Expert<X>, xs: seq<X>, choices: seq<seq<Choice>>, hidden: nat,
                            e: nat)
    requires Scattered(output, apply, xs, choices, hidden, e, [])
    ensures |output| == |xs| * hidden
  {
  }

  lemma FinishedSlot<X>(output: seq<real>, apply: Expert<X>, xs: seq<X>, choices: seq<seq<Choice>>, hidden: nat,
                        experts: nat, t: nat, j: nat)
    requires Scattered(output, apply, xs, choices, hidden, experts, []) && t < |xs| && j < hidden
    requires forall c | c in choices[t] :: c.expert < experts
    ensures 0 <= t * hidden + j < |output| && output[t * hidden + j] == WeightedSum(apply, xs[t], j, choices[t])
  {
    hide TokenOf, CoordOf, OwnSum, WeightedSum;
    SlotAt(|xs|, hidden, t, j);
    assert Holds(output, apply, xs, choices, hidden, experts, [], t * hidden + j);
    EveryChoiceCounts(apply, xs[t], j, choices[t], experts);
  }
}
