/** The rung cache (src/engine_cache.rs): engines keyed by sequence cap, least recently used first. The list
    is proved against an abstract cache that only knows when each cap was last used. */
module LruCache {
  import opened Wrappers

  // ---------- the list ----------

  type Rungs<T> = seq<(nat, T)>

  predicate DistinctCaps<T>(rungs: Rungs<T>) {
    forall i, j | 0 <= i < j < |rungs| :: rungs[i].0 != rungs[j].0
  }

  predicate Has<T>(rungs: Rungs<T>, cap: nat) {
    exists i | 0 <= i < |rungs| :: rungs[i].0 == cap
  }

  /** Where the first entry of this cap sits; the length when there is none. */
  function Position<T>(rungs: Rungs<T>, cap: nat): (at: nat)
    ensures at <= |rungs|
    ensures at < |rungs| ==> rungs[at].0 == cap
    ensures forall i | 0 <= i < at :: rungs[i].0 != cap
  {
    if rungs == [] || rungs[0].0 == cap then 0 else 1 + Position(rungs[1..], cap)
  }

  function Lookup<T>(rungs: Rungs<T>, cap: nat): Option<T> {
    var at := Position(rungs, cap);
    if at < |rungs| then Some(rungs[at].1) else None
  }

  function Removed<T>(rungs: Rungs<T>, cap: nat): Rungs<T> {
    var at := Position(rungs, cap);
    if at < |rungs| then rungs[..at] + rungs[at + 1..] else rungs
  }

  /** `get_mut`: the entry moves to the most-recently-used end. */
  function Touched<T>(rungs: Rungs<T>, cap: nat): Rungs<T> {
    var at := Position(rungs, cap);
    if at < |rungs| then rungs[..at] + rungs[at + 1..] + [rungs[at]] else rungs
  }

  /** `retain`: every entry of another cap. */
  function Without<T>(rungs: Rungs<T>, cap: nat): (r: Rungs<T>)
    ensures |r| <= |rungs|
  {
    if rungs == [] then []
    else (if rungs[0].0 == cap then [] else [rungs[0]]) + Without(rungs[1..], cap)
  }

  /** `insert`: the new list and what made room. */
  function Inserted<T>(rungs: Rungs<T>, capacity: nat, cap: nat, engine: T): (Rungs<T>, Option<(nat, T)>) {
    var grown := Without(rungs, cap) + [(cap, engine)];
    if |grown| > capacity then (grown[1..], Some(grown[0])) else (grown, None)
  }

  /** The most recently used cap, 0 when nothing is resident: what the committed-cap mirror should say. */
  function NewestCap<T>(rungs: Rungs<T>): nat {
    if rungs == [] then 0 else rungs[|rungs| - 1].0
  }

  lemma RemovedOfCons<T>(rungs: Rungs<T>, cap: nat)
    requires rungs != [] && rungs[0].0 != cap
    ensures Removed(rungs, cap) == [rungs[0]] + Removed(rungs[1..], cap)
    ensures Lookup(rungs, cap) == Lookup(rungs[1..], cap)
  {
    var rest, at := rungs[1..], Position(rungs[1..], cap);
    assert Position(rungs, cap) == at + 1;
    hide Position;
    if at < |rest| {
      assert rungs[..at + 1] == [rungs[0]] + rest[..at];
      assert rungs[at + 2..] == rest[at + 1..];
      assert [rungs[0]] + (rest[..at] + rest[at + 1..]) == ([rungs[0]] + rest[..at]) + rest[at + 1..];
    } else {
      assert rungs == [rungs[0]] + rest;
    }
  }

  lemma {:induction false} WithoutIsRemoved<T>(rungs: Rungs<T>, cap: nat)
    requires DistinctCaps(rungs)
    ensures Without(rungs, cap) == Removed(rungs, cap)
  {
    if rungs != [] {
      TailIsDistinct(rungs);
      WithoutIsRemoved(rungs[1..], cap);
      if rungs[0].0 == cap {
        HeadIsRemoved(rungs, cap);
      } else {
        RemovedOfCons(rungs, cap);
        hide Removed;
      }
    }
  }

  lemma TailIsDistinct<T>(rungs: Rungs<T>)
    requires rungs != [] && DistinctCaps(rungs)
    ensures DistinctCaps(rungs[1..]) && forall k | 0 <= k < |rungs[1..]| :: rungs[1..][k].0 != rungs[0].0
  {
    var rest := rungs[1..];
    forall k | 0 <= k < |rest| ensures rest[k].0 != rungs[0].0 {
      assert rest[k] == rungs[k + 1];
    }
    forall i, j | 0 <= i < j < |rest| ensures rest[i].0 != rest[j].0 {
      assert rest[i] == rungs[i + 1] && rest[j] == rungs[j + 1];
    }
  }

  lemma HeadIsRemoved<T>(rungs: Rungs<T>, cap: nat)
    requires rungs != [] && rungs[0].0 == cap && forall k | 0 <= k < |rungs[1..]| :: rungs[1..][k].0 != cap
    ensures Removed(rungs, cap) == rungs[1..] == Removed(rungs[1..], cap)
  {
    assert Position(rungs, cap) == 0 && Position(rungs[1..], cap) == |rungs[1..]|;
    assert rungs[..0] + rungs[1..] == rungs[1..];
  }

  class RungCache<T> {
    const capacity: nat
    var rungs: Rungs<T>

    ghost predicate Valid()
      reads this
    {
      capacity >= 1 && |rungs| <= capacity && DistinctCaps(rungs)
    }

    constructor (capacity: nat)
      ensures Valid() && rungs == [] && this.capacity == if capacity < 1 then 1 else capacity
    {
      this.capacity := if capacity < 1 then 1 else capacity;
      rungs := [];
    }

    method GetMut(cap: nat) returns (r: Option<T>)
      requires Valid()
      modifies this
      ensures Valid() && rungs == Touched(old(rungs), cap)
      ensures r == Lookup(old(rungs), cap) && (r.Some? <==> Has(old(rungs), cap))
      ensures r.Some? ==> rungs != [] && rungs[|rungs| - 1] == (cap, r.value)
    {
      var at := Position(rungs, cap);
      if at == |rungs| {
        return None;
      }
      var entry := rungs[at];
      rungs := rungs[..at] + rungs[at + 1..];
      rungs := rungs + [entry];
      r := Some(entry.1);
    }

    method Insert(cap: nat, engine: T) returns (evicted: Option<(nat, T)>)
      requires Valid()
      modifies this
      ensures Valid() && (rungs, evicted) == Inserted(old(rungs), capacity, cap, engine)
      ensures rungs != [] && rungs[|rungs| - 1] == (cap, engine)
    {
      WithoutIsRemoved(rungs, cap);
      rungs := Without(rungs, cap);
      rungs := rungs + [(cap, engine)];
      if |rungs| > capacity {
        evicted := Some(rungs[0]);
        rungs := rungs[1..];
      } else {
        evicted := None;
      }
    }

    method Drain() returns (all: Rungs<T>)
      requires Valid()
      modifies this
      ensures Valid() && all == old(rungs) && rungs == []
    {
      all := rungs;
      rungs := [];
    }

    method Remove(cap: nat) returns (r: Option<T>)
      requires Valid()
      modifies this
      ensures Valid() && rungs == Removed(old(rungs), cap) && r == Lookup(old(rungs), cap)
    {
      var at := Position(rungs, cap);
      if at == |rungs| {
        return None;
      }
      r := Some(rungs[at].1);
      rungs := rungs[..at] + rungs[at + 1..];
    }
  }

  // ---------- operation traces ----------

  datatype Op<T> = Get(cap: nat) | Insert(cap: nat, engine: T) | Remove(cap: nat) | Drain

  /** The list after one operation, and the entries it hands back to the caller to drop. */
  function Step<T>(rungs: Rungs<T>, capacity: nat, op: Op<T>): (Rungs<T>, Rungs<T>) {
    match op
    case Get(cap) => (Touched(rungs, cap), [])
    case Insert(cap, engine) =>
      var (after, evicted) := Inserted(rungs, capacity, cap, engine);
      (after, if evicted.Some? then [evicted.value] else [])
    case Remove(cap) =>
      (Removed(rungs, cap), if Lookup(rungs, cap).Some? then [(cap, Lookup(rungs, cap).value)] else [])
    case Drain => ([], rungs)
  }

  function RungsAt<T>(capacity: nat, ops: seq<Op<T>>, k: nat): Rungs<T>
    requires k <= |ops|
  {
    if k == 0 then [] else Step(RungsAt(capacity, ops, k - 1), capacity, ops[k - 1]).0
  }

  function HandedAt<T>(capacity: nat, ops: seq<Op<T>>, k: nat): Rungs<T>
    requires k < |ops|
  {
    Step(RungsAt(capacity, ops, k), capacity, ops[k]).1
  }

  // ---------- the abstract cache ----------

  datatype Entry<T> = Entry(engine: T, lastUse: int)

  type Abstract<T> = map<nat, Entry<T>>

  ghost predicate Oldest<T>(m: Abstract<T>, cap: nat) {
    cap in m && forall other | other in m && other != cap :: m[cap].lastUse < m[other].lastUse
  }

  /** One operation of a cache that evicts whoever was used longest ago, at time `now`. */
  ghost predicate AbstractStep<T>(m: Abstract<T>, capacity: nat, op: Op<T>, now: int, m': Abstract<T>,
                                  handed: Rungs<T>)
  {
    match op
    case Get(cap) => handed == [] && m' == if cap in m then m[cap := m[cap].(lastUse := now)] else m
    case Insert(cap, engine) =>
      var grown := m[cap := Entry(engine, now)];
      if |grown| <= capacity then handed == [] && m' == grown
      else |handed| == 1 && Oldest(grown, handed[0].0) && handed[0].1 == grown[handed[0].0].engine
           && m' == grown - {handed[0].0}
    case Remove(cap) => m' == m - {cap} && handed == if cap in m then [(cap, m[cap].engine)] else []
    case Drain => m' == map[] && |handed| == |m| && forall e | e in handed :: e.0 in m && m[e.0].engine == e.1
  }

  /** The list holds exactly the abstract entries, in order of last use. */
  ghost predicate Represents<T>(rungs: Rungs<T>, m: Abstract<T>, now: int) {
    && (forall i | 0 <= i < |rungs| ::
          rungs[i].0 in m && m[rungs[i].0].engine == rungs[i].1 && m[rungs[i].0].lastUse < now)
    && (forall i, j | 0 <= i < j < |rungs| :: m[rungs[i].0].lastUse < m[rungs[j].0].lastUse)
    && (forall cap | cap in m :: Has(rungs, cap))
  }

  lemma RepresentsFacts<T>(rungs: Rungs<T>, m: Abstract<T>, now: int)
    requires Represents(rungs, m, now)
    ensures DistinctCaps(rungs) && forall cap :: cap in m <==> Has(rungs, cap)
    ensures |m| == |rungs|
  {
    forall i, j | 0 <= i < j < |rungs| ensures rungs[i].0 != rungs[j].0 {
      assert m[rungs[i].0].lastUse < m[rungs[j].0].lastUse;
    }
    CapsCount(rungs);
    assert m.Keys == CapSet(rungs);
  }

  ghost function CapSet<T>(rungs: Rungs<T>): set<nat> {
    set i | 0 <= i < |rungs| :: rungs[i].0
  }

  lemma {:induction false} CapsCount<T>(rungs: Rungs<T>)
    requires DistinctCaps(rungs)
    ensures |CapSet(rungs)| == |rungs|
  {
    if rungs != [] {
      var last := |rungs| - 1;
      CapsCount(rungs[..last]);
      assert CapSet(rungs) == CapSet(rungs[..last]) + {rungs[last].0};
    }
  }

  /** Where the `i`-th entry left after a removal came from. */
  function Source<T>(rungs: Rungs<T>, cap: nat, i: nat): nat {
    if i < Position(rungs, cap) then i else i + 1
  }

  lemma RemovedAt<T>(rungs: Rungs<T>, cap: nat, i: nat)
    requires i < |Removed(rungs, cap)|
    ensures Position(rungs, cap) < |rungs| ==>
              Source(rungs, cap, i) < |rungs| && Removed(rungs, cap)[i] == rungs[Source(rungs, cap, i)]
  {
    var at := Position(rungs, cap);
    hide Position;
    assert at < |rungs| && i >= at ==> (rungs[..at] + rungs[at + 1..])[i] == rungs[at + 1..][i - at];
  }

  lemma StillThere<T>(rungs: Rungs<T>, cap: nat, k: nat)
    requires k < |rungs| && rungs[k].0 != cap
    ensures Has(Removed(rungs, cap), rungs[k].0)
  {
    hide Position;
    var at := Position(rungs, cap);
    var i := if k < at then k else k - 1;
    assert Removed(rungs, cap)[i] == rungs[k];
  }

  lemma RemovedEntry<T>(rungs: Rungs<T>, m: Abstract<T>, now: int, cap: nat, i: nat)
    requires Represents(rungs, m, now) && i < |Removed(rungs, cap)|
    ensures var (c, engine) := Removed(rungs, cap)[i];
            c in m && c != cap && m[c].engine == engine && m[c].lastUse < now
  {
    var at := Position(rungs, cap);
    RepresentsFacts(rungs, m, now);
    if at < |rungs| {
      RemovedAt(rungs, cap, i);
      assert rungs[at].0 == cap && Source(rungs, cap, i) != at;
    } else {
      assert Removed(rungs, cap) == rungs && rungs[i].0 != cap;
    }
    hide Removed, Position, Has;
  }

  lemma RemovedOrder<T>(rungs: Rungs<T>, m: Abstract<T>, now: int, cap: nat, i: nat, j: nat)
    requires Represents(rungs, m, now) && i < j < |Removed(rungs, cap)|
    requires Removed(rungs, cap)[i].0 in m && Removed(rungs, cap)[j].0 in m
    ensures m[Removed(rungs, cap)[i].0].lastUse < m[Removed(rungs, cap)[j].0].lastUse
  {
    if Position(rungs, cap) < |rungs| {
      RemovedAt(rungs, cap, i);
      RemovedAt(rungs, cap, j);
      hide Removed, Position, Has;
      assert Source(rungs, cap, i) < Source(rungs, cap, j);
    }
  }

  lemma RemovedCovers<T>(rungs: Rungs<T>, m: Abstract<T>, now: int, cap: nat, c: nat)
    requires Represents(rungs, m, now) && c in m && c != cap
    ensures Has(Removed(rungs, cap), c)
  {
    hide Removed, Position;
    assert Has(rungs, c);
    var k :| 0 <= k < |rungs| && rungs[k].0 == c;
    StillThere(rungs, cap, k);
  }

  lemma RemovedRepresents<T>(rungs: Rungs<T>, m: Abstract<T>, now: int, cap: nat)
    requires Represents(rungs, m, now)
    ensures Represents(Removed(rungs, cap), m - {cap}, now)
  {
    hide Removed, Has;
    var r := Removed(rungs, cap);
    forall i | 0 <= i < |r| ensures r[i].0 in m - {cap} && m[r[i].0].engine == r[i].1 && m[r[i].0].lastUse < now {
      RemovedEntry(rungs, m, now, cap, i);
    }
    forall i, j | 0 <= i < j < |r| ensures m[r[i].0].lastUse < m[r[j].0].lastUse {
      RemovedOrder(rungs, m, now, cap, i, j);
    }
    forall c | c in m - {cap} ensures Has(r, c) {
      RemovedCovers(rungs, m, now, cap, c);
    }
  }

  lemma AppendedRepresents<T>(rungs: Rungs<T>, m: Abstract<T>, now: int, cap: nat, engine: T)
    requires Represents(rungs, m, now) && cap !in m
    ensures Represents(rungs + [(cap, engine)], m[cap := Entry(engine, now)], now + 1)
  {
    var r := rungs + [(cap, engine)];
    assert r[|rungs|] == (cap, engine);
    forall c | c in m[cap := Entry(engine, now)] ensures Has(r, c) {
      if c != cap {
        var k :| 0 <= k < |rungs| && rungs[k].0 == c;
        assert r[k] == rungs[k];
      }
    }
  }

  lemma TouchedMovesToTheEnd<T>(rungs: Rungs<T>, cap: nat)
    requires Lookup(rungs, cap).Some?
    ensures Touched(rungs, cap) == Removed(rungs, cap) + [(cap, Lookup(rungs, cap).value)]
  {
    var at := Position(rungs, cap);
    assert rungs[at] == (cap, rungs[at].1);
  }

  lemma HitRefines<T>(rungs: Rungs<T>, m: Abstract<T>, now: int, cap: nat)
    requires Represents(rungs, m, now) && cap in m
    ensures Represents(Touched(rungs, cap), m[cap := m[cap].(lastUse := now)], now + 1)
  {
    var entry := m[cap];
    RemovedRepresents(rungs, m, now, cap);
    AppendedRepresents(Removed(rungs, cap), m - {cap}, now, cap, entry.engine);
    LookupIsAbstract(rungs, m, now, cap);
    TouchedMovesToTheEnd(rungs, cap);
    hide Represents, Removed, Touched, Lookup;
    assert (m - {cap})[cap := Entry(entry.engine, now)] == m[cap := m[cap].(lastUse := now)];
  }

  lemma GetRefines<T>(rungs: Rungs<T>, m: Abstract<T>, now: int, cap: nat) returns (m': Abstract<T>)
    requires Represents(rungs, m, now)
    ensures m' == if cap in m then m[cap := m[cap].(lastUse := now)] else m
    ensures Represents(Touched(rungs, cap), m', now + 1)
  {
    if cap in m {
      m' := m[cap := m[cap].(lastUse := now)];
      HitRefines(rungs, m, now, cap);
    } else {
      RepresentsFacts(rungs, m, now);
      m' := m;
    }
  }

  lemma InsertRefines<T>(rungs: Rungs<T>, m: Abstract<T>, capacity: nat, now: int, cap: nat, engine: T)
    returns (m': Abstract<T>)
    requires Represents(rungs, m, now) && capacity >= 1
    ensures AbstractStep(m, capacity, Op.Insert(cap, engine), now, m', Step(rungs, capacity, Op.Insert(cap, engine)).1)
    ensures Represents(Inserted(rungs, capacity, cap, engine).0, m', now + 1)
  {
    hide Represents, Removed, Without, Has;
    InsertedIsAppended(rungs, m, now, capacity, cap, engine);
    var list := Removed(rungs, cap) + [(cap, engine)];
    var grown := m[cap := Entry(engine, now)];
    SameSize(list, grown, now + 1);
    if |list| > capacity {
      m' := EvictRefines(list, grown, now + 1);
    } else {
      m' := grown;
    }
  }

  lemma SameSize<T>(rungs: Rungs<T>, m: Abstract<T>, now: int)
    requires Represents(rungs, m, now)
    ensures |m| == |rungs|
  {
    RepresentsFacts(rungs, m, now);
  }

  lemma InsertedIsAppended<T>(rungs: Rungs<T>, m: Abstract<T>, now: int, capacity: nat, cap: nat, engine: T)
    requires Represents(rungs, m, now)
    ensures var list := Removed(rungs, cap) + [(cap, engine)];
            && Inserted(rungs, capacity, cap, engine)
               == (if |list| > capacity then (list[1..], Some(list[0])) else (list, None))
            && Represents(list, m[cap := Entry(engine, now)], now + 1)
  {
    hide Represents, Removed, Without, DistinctCaps, Has;
    RepresentsFacts(rungs, m, now);
    WithoutIsRemoved(rungs, cap);
    RemovedRepresents(rungs, m, now, cap);
    AppendedRepresents(Removed(rungs, cap), m - {cap}, now, cap, engine);
    assert (m - {cap})[cap := Entry(engine, now)] == m[cap := Entry(engine, now)];
  }

  lemma EvictRefines<T>(list: Rungs<T>, grown: Abstract<T>, now: int) returns (m': Abstract<T>)
    requires Represents(list, grown, now) && list != []
    ensures Oldest(grown, list[0].0) && list[0].0 in grown && list[0].1 == grown[list[0].0].engine
    ensures m' == grown - {list[0].0} && Represents(list[1..], m', now)
  {
    OldestIsFirst(list, grown, now);
    m' := grown - {list[0].0};
    RemovedRepresents(list, grown, now, list[0].0);
    assert Removed(list, list[0].0) == list[1..];
  }

  /** Each list operation is one step of the abstract cache, with the same entries handed back. */
  lemma StepRefines<T>(rungs: Rungs<T>, m: Abstract<T>, capacity: nat, op: Op<T>, now: int) returns (m': Abstract<T>)
    requires Represents(rungs, m, now) && capacity >= 1
    ensures AbstractStep(m, capacity, op, now, m', Step(rungs, capacity, op).1)
    ensures Represents(Step(rungs, capacity, op).0, m', now + 1)
  {
    match op {
      case Get(cap) =>
        m' := GetRefines(rungs, m, now, cap);
      case Insert(cap, engine) =>
        m' := InsertRefines(rungs, m, capacity, now, cap, engine);
        hide AbstractStep, Represents;
      case Remove(cap) =>
        RepresentsFacts(rungs, m, now);
        m' := m - {cap};
        RemovedRepresents(rungs, m, now, cap);
        LaterRepresents(Removed(rungs, cap), m', now);
        LookupIsAbstract(rungs, m, now, cap);
        hide Represents, Removed, Lookup;
      case Drain =>
        RepresentsFacts(rungs, m, now);
        m' := map[];
    }
  }

  lemma LaterRepresents<T>(rungs: Rungs<T>, m: Abstract<T>, now: int)
    requires Represents(rungs, m, now)
    ensures Represents(rungs, m, now + 1)
  {
  }

  lemma LookupIsAbstract<T>(rungs: Rungs<T>, m: Abstract<T>, now: int, cap: nat)
    requires Represents(rungs, m, now)
    ensures Lookup(rungs, cap) == if cap in m then Some(m[cap].engine) else None
  {
    RepresentsFacts(rungs, m, now);
  }

  lemma OldestIsFirst<T>(rungs: Rungs<T>, m: Abstract<T>, now: int)
    requires Represents(rungs, m, now) && rungs != []
    ensures Oldest(m, rungs[0].0) && m[rungs[0].0].engine == rungs[0].1
  {
    forall other | other in m && other != rungs[0].0 ensures m[rungs[0].0].lastUse < m[other].lastUse {
      var k :| 0 <= k < |rungs| && rungs[k].0 == other;
    }
  }

  /** A run of the abstract cache over the first `k` operations that hands back what the list hands back and
      ends in the entries the list holds. */
  ghost predicate AbstractRun<T>(ms: seq<Abstract<T>>, capacity: nat, ops: seq<Op<T>>, k: nat)
    requires k <= |ops|
  {
    && |ms| == k + 1 && ms[0] == map[]
    && (forall i | 0 <= i < k :: AbstractStep(ms[i], capacity, ops[i], i, ms[i + 1], HandedAt(capacity, ops, i)))
    && Represents(RungsAt(capacity, ops, k), ms[k], k)
  }

  lemma StepRefinesAt<T>(capacity: nat, ops: seq<Op<T>>, k: nat, m: Abstract<T>) returns (m': Abstract<T>)
    requires capacity >= 1 && k < |ops| && Represents(RungsAt(capacity, ops, k), m, k)
    ensures AbstractStep(m, capacity, ops[k], k, m', HandedAt(capacity, ops, k))
    ensures Represents(RungsAt(capacity, ops, k + 1), m', k + 1)
  {
    hide Represents, AbstractStep, Step;
    m' := StepRefines(RungsAt(capacity, ops, k), m, capacity, ops[k], k);
  }

  lemma ExtendRun<T>(ms: seq<Abstract<T>>, capacity: nat, ops: seq<Op<T>>, k: nat) returns (longer: seq<Abstract<T>>)
    requires capacity >= 1 && k < |ops| && AbstractRun(ms, capacity, ops, k)
    ensures AbstractRun(longer, capacity, ops, k + 1)
  {
    hide AbstractStep, HandedAt, Represents, RungsAt;
    var m' := StepRefinesAt(capacity, ops, k, ms[k]);
    longer := ms + [m'];
    forall i | 0 <= i <= k
      ensures AbstractStep(longer[i], capacity, ops[i], i, longer[i + 1], HandedAt(capacity, ops, i))
    {
      assert longer[i] == ms[i];
      assert i < k ==> longer[i + 1] == ms[i + 1];
    }
  }

  /** Over any operation trace the list is the abstract least-recently-used cache: the same entries, ordered by
      last use, and the same entries handed back, each evicted one being the one used longest ago. */
  lemma {:induction false} TraceRefines<T>(capacity: nat, ops: seq<Op<T>>, k: nat) returns (ms: seq<Abstract<T>>)
    requires capacity >= 1 && k <= |ops|
    ensures AbstractRun(ms, capacity, ops, k)
  {
    if k == 0 {
      ms := [map[]];
    } else {
      hide AbstractRun;
      ms := TraceRefines(capacity, ops, k - 1);
      ms := ExtendRun(ms, capacity, ops, k - 1);
    }
  }

  lemma {:induction false} TraceFits<T>(capacity: nat, ops: seq<Op<T>>, k: nat)
    requires capacity >= 1 && k <= |ops|
    ensures |RungsAt(capacity, ops, k)| <= capacity && DistinctCaps(RungsAt(capacity, ops, k))
  {
    if k > 0 {
      TraceFits(capacity, ops, k - 1);
      StepFits(RungsAt(capacity, ops, k - 1), capacity, ops[k - 1]);
    }
    var ms := TraceRefines(capacity, ops, k);
    RepresentsFacts(RungsAt(capacity, ops, k), ms[k], k);
  }

  lemma StepFits<T>(rungs: Rungs<T>, capacity: nat, op: Op<T>)
    requires |rungs| <= capacity && capacity >= 1
    ensures |Step(rungs, capacity, op).0| <= capacity
  {
  }

  // ---------- no engine is lost ----------

  /** How often an engine occurs in a list of entries. */
  ghost function Times<T>(rungs: Rungs<T>, x: T): nat {
    if rungs == [] then 0 else (if rungs[0].1 == x then 1 else 0) + Times(rungs[1..], x)
  }

  ghost function TimesInserted<T>(ops: seq<Op<T>>, k: nat, x: T): nat
    requires k <= |ops|
  {
    if k == 0 then 0
    else TimesInserted(ops, k - 1, x) + (if ops[k - 1].Insert? && ops[k - 1].engine == x then 1 else 0)
  }

  ghost function TimesHanded<T>(capacity: nat, ops: seq<Op<T>>, k: nat, x: T): nat
    requires k <= |ops|
  {
    if k == 0 then 0 else TimesHanded(capacity, ops, k - 1, x) + Times(HandedAt(capacity, ops, k - 1), x)
  }

  /** The operation re-inserts a resident cap, dropping the engine `x` in place. */
  ghost predicate Overwrites<T>(rungs: Rungs<T>, op: Op<T>, x: T) {
    op.Insert? && Lookup(rungs, op.cap) == Some(x)
  }

  ghost function TimesOverwritten<T>(capacity: nat, ops: seq<Op<T>>, k: nat, x: T): nat
    requires k <= |ops|
  {
    if k == 0 then 0
    else TimesOverwritten(capacity, ops, k - 1, x)
         + (if Overwrites(RungsAt(capacity, ops, k - 1), ops[k - 1], x) then 1 else 0)
  }

  lemma {:induction false} TimesOfSum<T>(a: Rungs<T>, b: Rungs<T>, x: T)
    ensures Times(a + b, x) == Times(a, x) + Times(b, x)
  {
    if a == [] {
      assert a + b == b;
    } else {
      assert (a + b)[1..] == a[1..] + b;
      TimesOfSum(a[1..], b, x);
    }
  }

  lemma {:induction false} TimesOfRemoved<T>(rungs: Rungs<T>, cap: nat, x: T)
    ensures Times(rungs, x) == Times(Removed(rungs, cap), x) + (if Lookup(rungs, cap) == Some(x) then 1 else 0)
  {
    if rungs != [] {
      var rest := rungs[1..];
      if rungs[0].0 == cap {
        assert Removed(rungs, cap) == rest;
      } else {
        TimesOfRemoved(rest, cap, x);
        RemovedOfCons(rungs, cap);
        hide Removed, Lookup;
      }
    }
  }

  lemma InsertConserves<T>(rungs: Rungs<T>, capacity: nat, cap: nat, engine: T, x: T)
    requires DistinctCaps(rungs)
    ensures var (after, evicted) := Inserted(rungs, capacity, cap, engine);
            Times(rungs, x) + (if engine == x then 1 else 0)
            == Times(after, x) + (if evicted.Some? && evicted.value.1 == x then 1 else 0)
               + (if Lookup(rungs, cap) == Some(x) then 1 else 0)
  {
    WithoutIsRemoved(rungs, cap);
    TimesOfRemoved(rungs, cap, x);
    var kept := Removed(rungs, cap);
    hide Without, Removed, DistinctCaps, Lookup;
    TimesOfSum(kept, [(cap, engine)], x);
  }

  lemma StepConserves<T>(rungs: Rungs<T>, capacity: nat, op: Op<T>, x: T)
    requires DistinctCaps(rungs) && capacity >= 1
    ensures Times(rungs, x) + (if op.Insert? && op.engine == x then 1 else 0)
            == Times(Step(rungs, capacity, op).0, x) + Times(Step(rungs, capacity, op).1, x)
               + (if Overwrites(rungs, op, x) then 1 else 0)
  {
    match op {
      case Get(cap) =>
        TimesOfRemoved(rungs, cap, x);
        if Lookup(rungs, cap).Some? {
          TouchedMovesToTheEnd(rungs, cap);
          TimesOfSum(Removed(rungs, cap), [(cap, Lookup(rungs, cap).value)], x);
        }
        hide Removed;
      case Insert(cap, engine) =>
        InsertConserves(rungs, capacity, cap, engine, x);
        hide Inserted, Lookup, DistinctCaps;
      case Remove(cap) =>
        TimesOfRemoved(rungs, cap, x);
        hide Removed, Lookup, DistinctCaps;
      case Drain =>
    }
  }

  /** Every engine ever inserted is resident, was handed back exactly once, or was overwritten in place. */
  lemma {:induction false} EnginesAreConserved<T>(capacity: nat, ops: seq<Op<T>>, k: nat, x: T)
    requires capacity >= 1 && k <= |ops|
    ensures TimesInserted(ops, k, x)
            == Times(RungsAt(capacity, ops, k), x) + TimesHanded(capacity, ops, k, x)
               + TimesOverwritten(capacity, ops, k, x)
  {
    if k > 0 {
      EnginesAreConserved(capacity, ops, k - 1, x);
      TraceFits(capacity, ops, k - 1);
      StepConserves(RungsAt(capacity, ops, k - 1), capacity, ops[k - 1], x);
      hide DistinctCaps, Step, Overwrites, Times;
    }
  }

  /** The inserts up to `k` all followed a miss. */
  ghost predicate InsertsFollowMisses<T>(capacity: nat, ops: seq<Op<T>>, k: nat)
    requires k <= |ops|
  {
    forall i | 0 <= i < k && ops[i].Insert? :: Lookup(RungsAt(capacity, ops, i), ops[i].cap).None?
  }

  lemma {:induction false} OverwrittenSomewhere<T>(capacity: nat, ops: seq<Op<T>>, k: nat, i: nat, x: T)
    requires i < k <= |ops| && Overwrites(RungsAt(capacity, ops, i), ops[i], x)
    ensures TimesOverwritten(capacity, ops, k, x) > 0
  {
    hide Overwrites, RungsAt;
    if i < k - 1 {
      OverwrittenSomewhere(capacity, ops, k - 1, i, x);
    }
  }

  lemma {:induction false} NeverOverwritten<T>(capacity: nat, ops: seq<Op<T>>, k: nat, x: T)
    requires k <= |ops| && InsertsFollowMisses(capacity, ops, k)
    ensures TimesOverwritten(capacity, ops, k, x) == 0
  {
    if k > 0 {
      hide RungsAt, Lookup;
      NeverOverwritten(capacity, ops, k - 1, x);
    }
  }

  /** Each engine ever inserted is resident or was handed back, exactly as often as it was inserted, if and only
      if every insert followed a miss, as the one caller's inserts do. */
  lemma NothingLostIffInsertsFollowMisses<T(!new)>(capacity: nat, ops: seq<Op<T>>, k: nat)
    requires capacity >= 1 && k <= |ops|
    ensures (forall x :: TimesInserted(ops, k, x)
                         == Times(RungsAt(capacity, ops, k), x) + TimesHanded(capacity, ops, k, x))
            <==> InsertsFollowMisses(capacity, ops, k)
  {
    hide Times, RungsAt, TimesHanded, TimesInserted, TimesOverwritten;
    forall x ensures TimesInserted(ops, k, x)
                     == Times(RungsAt(capacity, ops, k), x) + TimesHanded(capacity, ops, k, x)
                        + TimesOverwritten(capacity, ops, k, x)
    {
      EnginesAreConserved(capacity, ops, k, x);
    }
    if InsertsFollowMisses(capacity, ops, k) {
      forall x ensures TimesOverwritten(capacity, ops, k, x) == 0 {
        NeverOverwritten(capacity, ops, k, x);
      }
    } else {
      var i :| 0 <= i < k && ops[i].Insert? && Lookup(RungsAt(capacity, ops, i), ops[i].cap).Some?;
      var lost := Lookup(RungsAt(capacity, ops, i), ops[i].cap).value;
      OverwrittenSomewhere(capacity, ops, k, i, lost);
      assert TimesInserted(ops, k, lost) > Times(RungsAt(capacity, ops, k), lost) + TimesHanded(capacity, ops, k, lost);
    }
  }

  /** Two inserts at one cap lose the first engine: it is neither resident nor ever handed back. */
  lemma InsertOverAResidentLosesIt<T>(capacity: nat, cap: nat, x: T, y: T)
    requires capacity >= 1 && x != y
    ensures var ops := [Op.Insert(cap, x), Op.Insert(cap, y)];
            && TimesInserted(ops, 2, x) == 1
            && Times(RungsAt(capacity, ops, 2), x) == 0 && TimesHanded(capacity, ops, 2, x) == 0
  {
    var ops := [Op.Insert(cap, x), Op.Insert(cap, y)];
    assert RungsAt(capacity, ops, 1) == [(cap, x)];
    assert Without([(cap, x)], cap) == [];
    assert RungsAt(capacity, ops, 2) == [(cap, y)];
    assert HandedAt(capacity, ops, 0) == [] && HandedAt(capacity, ops, 1) == [];
    assert TimesInserted(ops, 1, x) == 1 && TimesHanded(capacity, ops, 1, x) == 0;
    assert [(cap, y)][1..] == [];
  }
}
