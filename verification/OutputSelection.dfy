/** Picking a session output (vendor-fastembed/src/bgem3_dual/mod.rs): by name first, by unique rank second, meant
    never to go by its place in the list. */
module OutputSelection {
  import opened Wrappers

  datatype Output = Output(name: string, rank: Option<nat>)

  datatype SelectError = SeveralOfRank | NoneOfRank

  function FirstNamed(outputs: seq<Output>, named: string -> bool): Option<string> {
    if outputs == [] then None
    else if named(outputs[0].name) then Some(outputs[0].name)
    else FirstNamed(outputs[1..], named)
  }

  function OfRank(outputs: seq<Output>, rank: nat): seq<string> {
    if outputs == [] then []
    else (if outputs[0].rank == Some(rank) then [outputs[0].name] else []) + OfRank(outputs[1..], rank)
  }

  function Selected(outputs: seq<Output>, named: string -> bool, rank: nat): Result<string, SelectError> {
    var first, ranked := FirstNamed(outputs, named), OfRank(outputs, rank);
    if first.Some? then Ok(first.value)
    else if |ranked| == 1 then Ok(ranked[0])
    else if |ranked| == 0 then Err(NoneOfRank)
    else Err(SeveralOfRank)
  }

  lemma NextOutput(outputs: seq<Output>, named: string -> bool, rank: nat, i: nat)
    requires i < |outputs|
    ensures FirstNamed(outputs[i..], named)
            == if named(outputs[i].name) then Some(outputs[i].name) else FirstNamed(outputs[i + 1..], named)
    ensures OfRank(outputs[i..], rank)
            == (if outputs[i].rank == Some(rank) then [outputs[i].name] else []) + OfRank(outputs[i + 1..], rank)
  {
    assert outputs[i..][1..] == outputs[i + 1..];
  }

  lemma NoOutputLeft(outputs: seq<Output>, named: string -> bool, rank: nat)
    ensures outputs[0..] == outputs
    ensures FirstNamed(outputs[|outputs|..], named) == None && OfRank(outputs[|outputs|..], rank) == []
  {
  }

  /** `select_output_key`: `named` says whether a name contains the wanted fragment. */
  method SelectOutputKey(outputs: seq<Output>, named: string -> bool, rank: nat)
    returns (r: Result<string, SelectError>)
    ensures r == Selected(outputs, named, rank)
  {
    hide FirstNamed, OfRank;
    NoOutputLeft(outputs, named, rank);
    for i := 0 to |outputs|
      invariant FirstNamed(outputs, named) == FirstNamed(outputs[i..], named)
    {
      NextOutput(outputs, named, rank, i);
      if named(outputs[i].name) {
        return Ok(outputs[i].name);
      }
    }
    var first, second: Option<string> := None, None;
    for i := 0 to |outputs|
      invariant second.Some? ==> first.Some?
      invariant second.None? ==>
                  OfRank(outputs, rank) == (if first.Some? then [first.value] else []) + OfRank(outputs[i..], rank)
      invariant second.Some? ==> |OfRank(outputs, rank)| >= 2
    {
      NextOutput(outputs, named, rank, i);
      if outputs[i].rank == Some(rank) {
        if first.None? {
          first := Some(outputs[i].name);
        } else if second.None? {
          second := Some(outputs[i].name);
        }
      }
    }
    r := if first.Some? && second.None? then Ok(first.value)
         else if first.Some? then Err(SeveralOfRank)
         else Err(NoneOfRank);
  }

  lemma {:induction false} FirstNamedIsOne(outputs: seq<Output>, named: string -> bool)
    ensures FirstNamed(outputs, named).Some? <==> exists x :: x in outputs && named(x.name)
    ensures FirstNamed(outputs, named).Some? ==>
              exists x :: x in outputs && named(x.name) && x.name == FirstNamed(outputs, named).value
  {
    if outputs != [] {
      assert outputs == [outputs[0]] + outputs[1..];
      FirstNamedIsOne(outputs[1..], named);
      if named(outputs[0].name) {
        assert outputs[0] in outputs;
      }
    }
  }

  lemma {:induction false} RankedNames(outputs: seq<Output>, rank: nat, name: string)
    ensures multiset(OfRank(outputs, rank))[name] == multiset(outputs)[Output(name, Some(rank))]
  {
    if outputs != [] {
      assert outputs == [outputs[0]] + outputs[1..];
      RankedNames(outputs[1..], rank, name);
    }
  }

  lemma SameRankedNames(a: seq<Output>, b: seq<Output>, rank: nat)
    requires multiset(a) == multiset(b)
    ensures multiset(OfRank(a, rank)) == multiset(OfRank(b, rank))
  {
    forall name ensures multiset(OfRank(a, rank))[name] == multiset(OfRank(b, rank))[name] {
      RankedNames(a, rank, name);
      RankedNames(b, rank, name);
    }
  }

  /** Output `i` has the rank and no other has. */
  predicate OnlyAt(outputs: seq<Output>, rank: nat, i: nat) {
    && i < |outputs| && outputs[i].rank == Some(rank)
    && forall j | 0 <= j < |outputs| && j != i :: outputs[j].rank != Some(rank)
  }

  predicate NowhereOf(outputs: seq<Output>, rank: nat) {
    forall i | 0 <= i < |outputs| :: outputs[i].rank != Some(rank)
  }

  lemma {:induction false} NoneOfTheRank(outputs: seq<Output>, rank: nat)
    ensures OfRank(outputs, rank) == [] <==> NowhereOf(outputs, rank)
  {
    if outputs != [] {
      NoneOfTheRank(outputs[1..], rank);
      assert outputs == [outputs[0]] + outputs[1..];
    }
  }

  lemma {:induction false} OnlyOneOfTheRank(outputs: seq<Output>, rank: nat)
    ensures |OfRank(outputs, rank)| == 1 <==> exists i: nat :: OnlyAt(outputs, rank, i)
    ensures forall i: nat | OnlyAt(outputs, rank, i) :: OfRank(outputs, rank) == [outputs[i].name]
  {
    if outputs != [] {
      var rest := outputs[1..];
      OnlyOneOfTheRank(rest, rank);
      NoneOfTheRank(rest, rank);
      if outputs[0].rank == Some(rank) {
        assert OnlyAt(outputs, rank, 0) <==> NowhereOf(rest, rank) by {
          assert forall j | 0 < j < |outputs| :: outputs[j] == rest[j - 1];
        }
      } else {
        forall i: nat | 0 < i ensures OnlyAt(outputs, rank, i) <==> OnlyAt(rest, rank, i - 1) {
          OnlyInTheRest(outputs, rank, i);
        }
        if i: nat :| OnlyAt(rest, rank, i) {
          assert OnlyAt(outputs, rank, i + 1);
        }
      }
    }
  }

  lemma OnlyInTheRest(outputs: seq<Output>, rank: nat, i: nat)
    requires outputs != [] && outputs[0].rank != Some(rank) && i > 0
    ensures OnlyAt(outputs, rank, i) <==> OnlyAt(outputs[1..], rank, i - 1)
  {
    var rest := outputs[1..];
    assert forall j | 0 <= j < |rest| :: rest[j] == outputs[j + 1];
    if OnlyAt(rest, rank, i - 1) {
      forall j | 0 <= j < |outputs| && j != i ensures outputs[j].rank != Some(rank) {
        if j > 0 {
          assert outputs[j] == rest[j - 1];
        }
      }
    }
  }

  /** With no matching name the rank decides: the only output of it is answered, by its name; none and several are the
      two errors. */
  lemma FallbackIsTheOnlyOneOfItsRank(outputs: seq<Output>, named: string -> bool, rank: nat)
    requires forall x | x in outputs :: !named(x.name)
    ensures Selected(outputs, named, rank).Ok? <==> exists i: nat :: OnlyAt(outputs, rank, i)
    ensures forall i: nat | OnlyAt(outputs, rank, i) :: Selected(outputs, named, rank) == Ok(outputs[i].name)
    ensures Selected(outputs, named, rank) == Err(NoneOfRank) <==> NowhereOf(outputs, rank)
    ensures Selected(outputs, named, rank) == Err(SeveralOfRank) <==>
            exists i, j :: 0 <= i < j < |outputs| && outputs[i].rank == outputs[j].rank == Some(rank)
  {
    hide OfRank, FirstNamed;
    FirstNamedIsOne(outputs, named);
    NoneOfTheRank(outputs, rank);
    OnlyOneOfTheRank(outputs, rank);
    if i :| 0 <= i < |outputs| && outputs[i].rank == Some(rank) {
      if !OnlyAt(outputs, rank, i) {
        var j :| 0 <= j < |outputs| && j != i && outputs[j].rank == Some(rank);
      }
    }
  }

  ghost predicate AtMostOneNamed(outputs: seq<Output>, named: string -> bool) {
    forall x, y | x in outputs && y in outputs && named(x.name) && named(y.name) :: x.name == y.name
  }

  /** The order a provider lists its outputs in never decides, as long as at most one name matches. */
  lemma OrderDoesNotDecide(a: seq<Output>, b: seq<Output>, named: string -> bool, rank: nat)
    requires multiset(a) == multiset(b) && AtMostOneNamed(a, named)
    ensures Selected(a, named, rank) == Selected(b, named, rank)
  {
    FirstNamedIsOne(a, named);
    FirstNamedIsOne(b, named);
    forall x ensures x in a <==> x in b {
      assert x in a <==> x in multiset(a);
      assert x in b <==> x in multiset(b);
    }
    SameRankedNames(a, b, rank);
    var p, q := OfRank(a, rank), OfRank(b, rank);
    assert |p| == |multiset(p)| == |multiset(q)| == |q|;
    if |p| == 1 {
      assert p[0] in multiset(p);
      assert p[0] in multiset(q);
      assert p[0] in q;
    }
  }

  /** With two differently named matches it does: moving the other one to the front changes the answer. */
  lemma OrderDecidesBetweenTwoNames(a: seq<Output>, named: string -> bool, rank: nat)
    requires !AtMostOneNamed(a, named)
    ensures exists b :: multiset(b) == multiset(a) && Selected(b, named, rank) != Selected(a, named, rank)
  {
    FirstNamedIsOne(a, named);
    var x, y :| x in a && y in a && named(x.name) && named(y.name) && x.name != y.name;
    var other := if FirstNamed(a, named) == Some(x.name) then y else x;
    var k :| 0 <= k < |a| && a[k] == other;
    var b := MovedToFront(a, k);
    assert Selected(b, named, rank) == Ok(other.name);
  }

  lemma MovedToFront(a: seq<Output>, k: nat) returns (b: seq<Output>)
    requires k < |a|
    ensures multiset(b) == multiset(a) && b != [] && b[0] == a[k]
  {
    b := [a[k]] + a[..k] + a[k + 1..];
    assert a == a[..k] + [a[k]] + a[k + 1..];
  }

  predicate ContainsAt(name: string, fragment: string, i: nat) {
    i + |fragment| <= |name| && name[i..i + |fragment|] == fragment
  }

  predicate Contains(name: string, fragment: string) {
    exists i | 0 <= i <= |name| :: ContainsAt(name, fragment, i)
  }

  /** For instance: two outputs whose names both contain the fragment the sparse head asks for, listed either way
      round. */
  lemma TwoTokenOutputs(rank: nat)
    ensures var named := (name: string) => Contains(name, "token_embedding");
            var a, b := Output("token_embeddings", Some(rank)), Output("token_embeddings_1", Some(rank));
            && Selected([a, b], named, rank) == Ok("token_embeddings")
            && Selected([b, a], named, rank) == Ok("token_embeddings_1")
  {
    assert ContainsAt("token_embeddings", "token_embedding", 0);
    assert ContainsAt("token_embeddings_1", "token_embedding", 0);
  }
}
