/** The embedding engine's life (src/inference.rs, src/bookkeeping.rs, src/introspection.rs): requests, builds that
    fail or panic, healing, unloads, and the lock-free mirror of the newest rung. Any number of threads interleave;
    everything but the mirror's reads happens under one mutex. */
module EngineLifecycle {
  import opened Wrappers
  import opened LruCache
  import Canary

  /** A built engine: the cap compiled into it and the session that passed, or did not pass, its canary. */
  datatype Engine = Engine(cap: nat, session: Canary.Session)

  datatype Pc =
    | Idle
    | Wants(cap: nat)                            // request: cap settled, queued on the mutex
    | WantsUnload(full: bool, caps: seq<nat>)
    | Holding(cap: nat)
    | HoldingUnload(full: bool, caps: seq<nat>)
    | Missed(cap: nat)                           // no engine for this cap
    | Building(cap: nat)                         // cap committed, build under way
    | Built(cap: nat, engine: Engine)
    | Failed(cap: nat)                           // build returned an error, mirror not settled yet
    | Unsettled(cap: nat)                        // rung resident, mirror not settled yet
    | Running(cap: nat)
    | Unloaded                                   // rungs taken out, mirror not settled yet
    | Leaving                                    // about to release the mutex

  /** `committed` is the mirror: the atomic a query reads without the lock, 0 for none. */
  datatype State = State(threads: seq<Pc>, lock: Option<nat>, poisoned: bool,
                         rungs: Rungs<Engine>, capacity: nat, committed: nat)

  datatype Action =
    | Arrive(t: nat, query: bool, requested: nat)
    | ArriveUnload(t: nat, full: bool, caps: seq<nat>)
    | Refuse(t: nat)
    | Acquire(t: nat)
    | Find(t: nat)                               // `get_mut` before the build decision
    | Commit(t: nat)
    | Build(t: nat, first: Canary.Session, second: Canary.Session, cacheConfigured: bool)
    | File(t: nat)                               // `remember_engine`
    | Settle(t: nat)
    | Take(t: nat)                               // an unload drains or removes rungs
    | Use(t: nat)                                // `get_mut(..).expect("just loaded")` and the pass
    | Panic(t: nat)                              // anywhere under the guard
    | Release(t: nat)

  /** `cap_for`: a query inherits the committed cap, a document states its own. */
  function CapFor(query: bool, requested: nat, committed: nat): nat {
    if query && committed != 0 then committed else requested
  }

  predicate Holds(p: Pc) {
    !p.Idle? && !p.Wants? && !p.WantsUnload?
  }

  function RemovedAll(rungs: Rungs<Engine>, caps: seq<nat>): Rungs<Engine> {
    if caps == [] then rungs else RemovedAll(Removed(rungs, caps[0]), caps[1..])
  }

  predicate Enabled(s: State, a: Action) {
    a.t < |s.threads|
    && var p := s.threads[a.t];
    match a
    case Arrive(_, _, requested) => p.Idle? && 16 <= requested <= 8192
    case ArriveUnload(_, _, _) => p.Idle?
    case Refuse(_) => p.Wants? || p.WantsUnload?
    case Acquire(_) => (p.Wants? || p.WantsUnload?) && s.lock.None?
    case Find(_) => p.Holding?
    case Commit(_) => p.Missed?
    case Build(_, _, _, _) => p.Building?
    case File(_) => p.Built?
    case Settle(_) => p.Unsettled? || p.Failed? || p.Unloaded?
    case Take(_) => p.HoldingUnload?
    case Use(_) => p.Running?
    case Panic(_) => Holds(p)
    case Release(_) => p.Running? || p.Leaving?
  }

  function Goto(s: State, t: nat, p: Pc): State
    requires t < |s.threads|
  {
    s.(threads := s.threads[t := p])
  }

  function Apply(s: State, a: Action): State
    requires Enabled(s, a)
  {
    var p := s.threads[a.t];
    match a
    case Arrive(t, query, requested) => Goto(s, t, Wants(CapFor(query, requested, s.committed)))
    case ArriveUnload(t, full, caps) => Goto(s, t, WantsUnload(full, caps))
    case Refuse(t) => Goto(s, t, Idle)
    case Acquire(t) =>
      // a poisoned mutex is healed: poison cleared, every rung discarded
      var locked := s.(lock := Some(t), poisoned := false, rungs := if s.poisoned then [] else s.rungs);
      Goto(locked, t, if p.Wants? then Holding(p.cap) else HoldingUnload(p.full, p.caps))
    case Find(t) =>
      Goto(s.(rungs := Touched(s.rungs, p.cap)), t,
           if Lookup(s.rungs, p.cap).Some? then Unsettled(p.cap) else Missed(p.cap))
    case Commit(t) => Goto(s.(committed := p.cap), t, Building(p.cap))
    case Build(t, first, second, cacheConfigured) =>
      var built := Canary.Validated(first, second, cacheConfigured);
      Goto(s, t, if built.Some? then Built(p.cap, Engine(p.cap, built.value)) else Failed(p.cap))
    case File(t) =>
      Goto(s.(rungs := Inserted(s.rungs, s.capacity, p.cap, p.engine).0), t, Unsettled(p.cap))
    case Settle(t) =>
      Goto(s.(committed := NewestCap(s.rungs)), t, if p.Unsettled? then Running(p.cap) else Leaving)
    case Take(t) => Goto(s.(rungs := if p.full then [] else RemovedAll(s.rungs, p.caps)), t, Unloaded)
    case Use(t) => s.(rungs := Touched(s.rungs, p.cap))
    case Panic(t) => Goto(s.(lock := None, poisoned := true), t, Idle)
    case Release(t) => Goto(s.(lock := None), t, Idle)
  }

  datatype Run = Run(n: nat, capacity: nat, steps: seq<Action>)

  function Init(r: Run): State {
    State(seq(r.n, _ => Idle), None, false, [], if r.capacity < 1 then 1 else r.capacity, 0)
  }

  ghost function At(r: Run, k: nat): State
    requires k <= |r.steps|
  {
    if k == 0 then Init(r)
    else
      var s := At(r, k - 1);
      if Enabled(s, r.steps[k - 1]) then Apply(s, r.steps[k - 1]) else s
  }

  /** The first `k` steps were each enabled when they were taken. */
  ghost predicate LegalUpTo(r: Run, k: nat)
    requires k <= |r.steps|
  {
    k == 0 || (LegalUpTo(r, k - 1) && Enabled(At(r, k - 1), r.steps[k - 1]))
  }

  ghost predicate Legal(r: Run) {
    LegalUpTo(r, |r.steps|)
  }

  lemma {:induction false} EachEnabledIsLegal(r: Run, n: nat)
    requires n <= |r.steps| && forall k | 0 <= k < n :: Enabled(At(r, k), r.steps[k])
    ensures LegalUpTo(r, n)
  {
    hide At, Enabled;
    if n > 0 {
      EachEnabledIsLegal(r, n - 1);
    }
  }

  // ---------- what every state keeps ----------

  /** Filed under its own cap, and its canary passed in the build that produced it. */
  predicate Fit(cap: nat, engine: Engine) {
    engine.cap == cap && cap > 0 && Canary.Verified(engine.session)
  }

  ghost predicate CacheInv(rungs: Rungs<Engine>, capacity: nat) {
    && capacity >= 1 && |rungs| <= capacity && DistinctCaps(rungs)
    && forall i | 0 <= i < |rungs| :: Fit(rungs[i].0, rungs[i].1)
  }

  ghost predicate HolderInv(s: State, p: Pc) {
    match p
    case Missed(cap) => cap > 0 && Lookup(s.rungs, cap).None?
    case Building(cap) => cap > 0 && s.committed == cap && Lookup(s.rungs, cap).None?
    case Built(cap, engine) => s.committed == cap && Lookup(s.rungs, cap).None? && Fit(cap, engine)
    case Unsettled(cap) => cap > 0 && NewestCap(s.rungs) == cap
    case Running(cap) => cap > 0 && NewestCap(s.rungs) == cap && s.committed == cap
    case Leaving => s.committed == NewestCap(s.rungs)
    case Holding(cap) => cap > 0
    case _ => true
  }

  ghost predicate Inv(s: State) {
    && CacheInv(s.rungs, s.capacity)
    && (forall t | 0 <= t < |s.threads| :: Holds(s.threads[t]) <==> s.lock == Some(t))
    && (forall t | 0 <= t < |s.threads| && s.threads[t].Wants? :: s.threads[t].cap > 0)
    && (s.lock.Some? ==> s.lock.value < |s.threads| && !s.poisoned && HolderInv(s, s.threads[s.lock.value]))
    && (s.lock.None? && !s.poisoned ==> s.committed == NewestCap(s.rungs))
  }

  // ---------- the cache's own steps ----------

  lemma {:induction false} EachFits(a: Rungs<Engine>, b: Rungs<Engine>)
    requires forall i | 0 <= i < |a| :: Fit(a[i].0, a[i].1)
    requires forall e | e in b :: e in a
    ensures forall i | 0 <= i < |b| :: Fit(b[i].0, b[i].1)
  {
    forall i | 0 <= i < |b| ensures Fit(b[i].0, b[i].1) {
      assert b[i] in b;
    }
  }

  lemma RemovedKeepsInv(rungs: Rungs<Engine>, capacity: nat, cap: nat)
    requires CacheInv(rungs, capacity)
    ensures CacheInv(Removed(rungs, cap), capacity)
    ensures Lookup(Removed(rungs, cap), cap).None?
  {
    var r := Removed(rungs, cap);
    forall i | 0 <= i < |r| ensures r[i] in rungs {
      RemovedAt(rungs, cap, i);
    }
    forall i, j | 0 <= i < j < |r| ensures r[i].0 != r[j].0 {
      RemovedAt(rungs, cap, i);
      RemovedAt(rungs, cap, j);
    }
    EachFits(rungs, r);
    var at := Position(r, cap);
    if at < |r| {
      RemovedAt(rungs, cap, at);
      assert false;
    }
  }

  lemma {:induction false} RemovedAllKeepsInv(rungs: Rungs<Engine>, capacity: nat, caps: seq<nat>)
    requires CacheInv(rungs, capacity)
    ensures CacheInv(RemovedAll(rungs, caps), capacity)
  {
    if caps != [] {
      RemovedKeepsInv(rungs, capacity, caps[0]);
      RemovedAllKeepsInv(Removed(rungs, caps[0]), capacity, caps[1..]);
    }
  }

  lemma AppendKeepsInv(rungs: Rungs<Engine>, capacity: nat, cap: nat, engine: Engine)
    requires CacheInv(rungs, capacity) && Lookup(rungs, cap).None? && Fit(cap, engine)
    ensures CacheInv(rungs + [(cap, engine)], capacity + 1)
  {
    var r := rungs + [(cap, engine)];
    forall i, j | 0 <= i < j < |r| ensures r[i].0 != r[j].0 {
      assert r[i] == rungs[i];
      if j < |rungs| {
        assert r[j] == rungs[j];
      }
    }
  }

  lemma TouchedKeepsInv(rungs: Rungs<Engine>, capacity: nat, cap: nat)
    requires CacheInv(rungs, capacity)
    ensures CacheInv(Touched(rungs, cap), capacity)
    ensures Lookup(rungs, cap).Some? ==> NewestCap(Touched(rungs, cap)) == cap
    ensures Lookup(rungs, cap).None? ==> Touched(rungs, cap) == rungs
  {
    if Lookup(rungs, cap).Some? {
      var engine := Lookup(rungs, cap).value;
      RemovedKeepsInv(rungs, capacity, cap);
      TouchedMovesToTheEnd(rungs, cap);
      AppendKeepsInv(Removed(rungs, cap), capacity, cap, engine);
      assert |Touched(rungs, cap)| == |rungs|;
    }
  }

  lemma InsertedKeepsInv(rungs: Rungs<Engine>, capacity: nat, cap: nat, engine: Engine)
    requires CacheInv(rungs, capacity) && Lookup(rungs, cap).None? && Fit(cap, engine)
    ensures CacheInv(Inserted(rungs, capacity, cap, engine).0, capacity)
    ensures NewestCap(Inserted(rungs, capacity, cap, engine).0) == cap
  {
    WithoutIsRemoved(rungs, cap);
    AppendKeepsInv(rungs, capacity, cap, engine);
    var grown := rungs + [(cap, engine)];
    assert Without(rungs, cap) == rungs;
    if |grown| > capacity {
      forall i, j | 0 <= i < j < |grown[1..]| ensures grown[1..][i].0 != grown[1..][j].0 {
        assert grown[1..][i] == grown[i + 1] && grown[1..][j] == grown[j + 1];
      }
      EachFits(grown, grown[1..]);
    }
  }

  lemma NewestIsThere(rungs: Rungs<Engine>, cap: nat)
    requires NewestCap(rungs) == cap > 0
    ensures Lookup(rungs, cap).Some?
  {
  }

  // ---------- one step ----------

  lemma StepKeepsCache(s: State, a: Action)
    requires Inv(s) && Enabled(s, a)
    ensures CacheInv(Apply(s, a).rungs, s.capacity) && Apply(s, a).capacity == s.capacity
  {
    var p := s.threads[a.t];
    match a {
      case Find(t) => TouchedKeepsInv(s.rungs, s.capacity, p.cap);
      case File(t) => InsertedKeepsInv(s.rungs, s.capacity, p.cap, p.engine);
      case Take(t) => RemovedAllKeepsInv(s.rungs, s.capacity, if p.full then [] else p.caps);
      case Use(t) => TouchedKeepsInv(s.rungs, s.capacity, p.cap);
      case _ =>
    }
  }

  lemma BuildIsFit(first: Canary.Session, second: Canary.Session, cacheConfigured: bool, cap: nat)
    requires cap > 0 && Canary.Validated(first, second, cacheConfigured).Some?
    ensures Fit(cap, Engine(cap, Canary.Validated(first, second, cacheConfigured).value))
  {
  }

  lemma StepKeepsHolder(s: State, a: Action)
    requires Inv(s) && Enabled(s, a)
    ensures var s' := Apply(s, a);
            && (s'.lock.Some? ==>
                  s'.lock.value < |s'.threads| && !s'.poisoned && HolderInv(s', s'.threads[s'.lock.value]))
            && (s'.lock.None? && !s'.poisoned ==> s'.committed == NewestCap(s'.rungs))
  {
    var p := s.threads[a.t];
    match a {
      case Find(t) =>
        TouchedKeepsInv(s.rungs, s.capacity, p.cap);
      case Build(t, first, second, cacheConfigured) =>
        if Canary.Validated(first, second, cacheConfigured).Some? {
          BuildIsFit(first, second, cacheConfigured, p.cap);
        }
      case File(t) =>
        InsertedKeepsInv(s.rungs, s.capacity, p.cap, p.engine);
      case Use(t) =>
        NewestIsThere(s.rungs, p.cap);
        TouchedKeepsInv(s.rungs, s.capacity, p.cap);
      case _ =>
    }
  }

  lemma StepKeepsThread(s: State, a: Action, t: nat)
    requires Inv(s) && Enabled(s, a) && t < |s.threads|
    ensures |Apply(s, a).threads| == |s.threads|
    ensures Holds(Apply(s, a).threads[t]) <==> Apply(s, a).lock == Some(t)
    ensures Apply(s, a).threads[t].Wants? ==> Apply(s, a).threads[t].cap > 0
  {
    assert Holds(s.threads[t]) <==> s.lock == Some(t);
    assert Holds(s.threads[a.t]) <==> s.lock == Some(a.t);
    hide CacheInv, HolderInv, Touched, Inserted, RemovedAll, Lookup, NewestCap, Inv;
  }

  lemma StepKeepsThreads(s: State, a: Action)
    requires Inv(s) && Enabled(s, a)
    ensures var s' := Apply(s, a);
            && |s'.threads| == |s.threads|
            && (forall t | 0 <= t < |s'.threads| :: Holds(s'.threads[t]) <==> s'.lock == Some(t))
            && (forall t | 0 <= t < |s'.threads| && s'.threads[t].Wants? :: s'.threads[t].cap > 0)
  {
    StepOfThread(s, a, a.t);
    hide Apply, Enabled, Inv;
    var s' := Apply(s, a);
    forall t | 0 <= t < |s'.threads|
      ensures Holds(s'.threads[t]) <==> s'.lock == Some(t)
      ensures s'.threads[t].Wants? ==> s'.threads[t].cap > 0
    {
      StepKeepsThread(s, a, t);
    }
  }

  lemma StepKeepsInv(s: State, a: Action)
    requires Inv(s) && Enabled(s, a)
    ensures Inv(Apply(s, a))
  {
    hide Apply, Enabled, CacheInv, HolderInv;
    StepKeepsCache(s, a);
    StepKeepsHolder(s, a);
    StepKeepsThreads(s, a);
  }

  lemma InvAtStart(r: Run)
    ensures Inv(At(r, 0)) && |At(r, 0).threads| == r.n
  {
  }

  lemma InvStep(r: Run, k: nat)
    requires k < |r.steps| && Inv(At(r, k))
    ensures Inv(At(r, k + 1)) && |At(r, k + 1).threads| == |At(r, k).threads|
  {
    hide Apply, Enabled, Inv;
    var s, a := At(r, k), r.steps[k];
    if Enabled(s, a) {
      StepKeepsInv(s, a);
      StepKeepsThreads(s, a);
    }
  }

  lemma {:induction false} InvAt(r: Run, k: nat)
    requires k <= |r.steps|
    ensures Inv(At(r, k)) && |At(r, k).threads| == r.n
  {
    hide At, Inv;
    if k == 0 {
      InvAtStart(r);
    } else {
      InvAt(r, k - 1);
      InvStep(r, k - 1);
    }
  }

  // ---------- main results ----------

  /** Over every run: while the mutex is free and unpoisoned the mirror names the most recently used resident
      rung, 0 if none; while a build is under way it names the cap being built. */
  lemma MirrorFollowsTheCache(r: Run, k: nat)
    requires k <= |r.steps|
    ensures At(r, k).lock.None? && !At(r, k).poisoned ==> At(r, k).committed == NewestCap(At(r, k).rungs)
    ensures forall t | 0 <= t < |At(r, k).threads| && (At(r, k).threads[t].Building? || At(r, k).threads[t].Built?) ::
              At(r, k).committed == At(r, k).threads[t].cap
  {
    InvAt(r, k);
  }

  /** A pass always finds its rung, so `expect("just loaded")` never fires, and the mirror names that rung. */
  lemma RunningRungIsResident(r: Run, k: nat, t: nat)
    requires k <= |r.steps| && t < |At(r, k).threads| && At(r, k).threads[t].Running?
    ensures Lookup(At(r, k).rungs, At(r, k).threads[t].cap).Some?
    ensures At(r, k).committed == At(r, k).threads[t].cap == NewestCap(At(r, k).rungs)
  {
    InvAt(r, k);
    NewestIsThere(At(r, k).rungs, At(r, k).threads[t].cap);
  }

  /** Whatever fails, panics, heals or unloads, every resident engine was built for its own rung and passed its
      canary in the build that produced it, and the cache stays within its capacity with one engine per cap. */
  lemma ResidentEnginesPassedTheirCanary(r: Run, k: nat)
    requires k <= |r.steps|
    ensures |At(r, k).rungs| <= At(r, k).capacity && DistinctCaps(At(r, k).rungs)
    ensures forall i | 0 <= i < |At(r, k).rungs| ::
              At(r, k).rungs[i].1.cap == At(r, k).rungs[i].0 && Canary.Verified(At(r, k).rungs[i].1.session)
  {
    InvAt(r, k);
    assert forall i | 0 <= i < |At(r, k).rungs| :: Fit(At(r, k).rungs[i].0, At(r, k).rungs[i].1);
  }

  // ---------- the cap a query runs at ----------

  /** This step files an engine under `cap`. */
  predicate Files(s: State, a: Action, cap: nat) {
    Enabled(s, a) && a.File? && s.threads[a.t].cap == cap
  }

  /** This step takes the engine of `cap` away if there is one: a heal discards every rung, an unload takes all or
      names this one, or a build files another rung into a full cache whose oldest rung this is. */
  predicate Drops(s: State, a: Action, cap: nat) {
    Enabled(s, a)
    && var p := s.threads[a.t];
    || (a.Acquire? && s.poisoned)
    || (a.Take? && (p.full || cap in p.caps))
    || (a.File? && p.cap != cap && |s.rungs| >= s.capacity && s.rungs != [] && s.rungs[0].0 == cap)
  }

  lemma LookupIsHas(rungs: Rungs<Engine>, cap: nat)
    ensures Lookup(rungs, cap).Some? <==> Has(rungs, cap)
  {
    var at := Position(rungs, cap);
    if at < |rungs| {
      assert rungs[at].0 == cap;
    }
  }

  lemma RemovedResidents(rungs: Rungs<Engine>, cap: nat, x: nat)
    requires DistinctCaps(rungs)
    ensures Has(Removed(rungs, cap), x) <==> Has(rungs, x) && x != cap
  {
    var r := Removed(rungs, cap);
    if x != cap && Has(rungs, x) {
      var k :| 0 <= k < |rungs| && rungs[k].0 == x;
      StillThere(rungs, cap, k);
    }
    if Has(r, x) {
      var k :| 0 <= k < |r| && r[k].0 == x;
      RemovedAt(rungs, cap, k);
    }
    hide Removed;
    if Position(rungs, cap) < |rungs| {
      forall k | 0 <= k < |r| ensures r[k].0 != cap {
        RemovedAt(rungs, cap, k);
      }
    }
  }

  lemma {:induction false} RemovedAllResidents(rungs: Rungs<Engine>, capacity: nat, caps: seq<nat>, x: nat)
    requires CacheInv(rungs, capacity)
    ensures Has(RemovedAll(rungs, caps), x) <==> Has(rungs, x) && x !in caps
  {
    if caps != [] {
      RemovedResidents(rungs, caps[0], x);
      RemovedKeepsInv(rungs, capacity, caps[0]);
      RemovedAllResidents(Removed(rungs, caps[0]), capacity, caps[1..], x);
    }
  }

  lemma TouchedResidents(rungs: Rungs<Engine>, cap: nat, x: nat)
    requires DistinctCaps(rungs)
    ensures Has(Touched(rungs, cap), x) <==> Has(rungs, x)
  {
    LookupIsHas(rungs, cap);
    if Lookup(rungs, cap).Some? {
      TouchedMovesToTheEnd(rungs, cap);
      RemovedResidents(rungs, cap, x);
      AppendedResidents(Removed(rungs, cap), cap, Lookup(rungs, cap).value, x);
    }
    hide Removed;
  }

  lemma AppendedResidents(rungs: Rungs<Engine>, cap: nat, engine: Engine, x: nat)
    ensures Has(rungs + [(cap, engine)], x) <==> Has(rungs, x) || x == cap
  {
    var r := rungs + [(cap, engine)];
    if Has(rungs, x) {
      var k :| 0 <= k < |rungs| && rungs[k].0 == x;
      assert r[k].0 == x;
    }
    assert r[|rungs|].0 == cap;
  }

  lemma InsertedResidents(rungs: Rungs<Engine>, capacity: nat, cap: nat, engine: Engine, x: nat)
    requires CacheInv(rungs, capacity) && Lookup(rungs, cap).None?
    ensures Has(Inserted(rungs, capacity, cap, engine).0, x)
            <==> x == cap || (Has(rungs, x) && !(|rungs| >= capacity && rungs != [] && rungs[0].0 == x))
  {
    WithoutIsRemoved(rungs, cap);
    LookupIsHas(rungs, cap);
    var grown := rungs + [(cap, engine)];
    assert Inserted(rungs, capacity, cap, engine).0 == if |grown| > capacity then grown[1..] else grown;
    hide Inserted, Without, Removed, Lookup;
    AppendedResidents(rungs, cap, engine, x);
    if |grown| > capacity {
      assert grown[1..] == rungs[1..] + [(cap, engine)];
      AppendedResidents(rungs[1..], cap, engine, x);
      TailResidents(rungs, x);
    }
  }

  lemma TailResidents(rungs: Rungs<Engine>, x: nat)
    requires rungs != [] && DistinctCaps(rungs)
    ensures Has(rungs[1..], x) <==> Has(rungs, x) && rungs[0].0 != x
  {
    if Has(rungs[1..], x) {
      var k :| 0 <= k < |rungs[1..]| && rungs[1..][k].0 == x;
      assert rungs[k + 1].0 == x;
    }
    if Has(rungs, x) && rungs[0].0 != x {
      var k :| 0 <= k < |rungs| && rungs[k].0 == x;
      assert rungs[1..][k - 1].0 == x;
    }
  }

  /** One step makes a rung resident by filing it, and keeps it unless it drops it. */
  lemma ResidencyStep(s: State, a: Action, cap: nat)
    requires Inv(s) && Enabled(s, a)
    ensures Has(Apply(s, a).rungs, cap) <==> Files(s, a, cap) || (Has(s.rungs, cap) && !Drops(s, a, cap))
  {
    var p := s.threads[a.t];
    match a {
      case Find(t) => TouchedResidents(s.rungs, p.cap, cap);
      case Use(t) => TouchedResidents(s.rungs, p.cap, cap);
      case File(t) => InsertedResidents(s.rungs, s.capacity, p.cap, p.engine, cap);
      case Take(t) => RemovedAllResidents(s.rungs, s.capacity, if p.full then [] else p.caps, cap);
      case _ =>
    }
    hide Touched, Inserted, RemovedAll, NewestCap, Lookup;
  }

  ghost predicate FiledAt(r: Run, j: nat, cap: nat)
    requires j < |r.steps|
  {
    Files(At(r, j), r.steps[j], cap)
  }

  ghost predicate DroppedAt(r: Run, j: nat, cap: nat)
    requires j < |r.steps|
  {
    Drops(At(r, j), r.steps[j], cap)
  }

  /** A build filed this rung before step `k`, and no step since has evicted, taken or healed it away. */
  ghost predicate FiledAndKept(r: Run, k: nat, cap: nat)
    requires k <= |r.steps|
  {
    exists j :: 0 <= j < k && FiledAt(r, j, cap) && forall l | j < l < k :: !DroppedAt(r, l, cap)
  }

  /** Residency is a matter of history alone. */
  lemma {:induction false} ResidentIffFiledAndKept(r: Run, k: nat, cap: nat)
    requires k <= |r.steps|
    ensures Has(At(r, k).rungs, cap) <==> FiledAndKept(r, k, cap)
  {
    hide At, FiledAt, DroppedAt;
    if k == 0 {
      NothingFiled(r, cap);
    } else {
      ResidentIffFiledAndKept(r, k - 1, cap);
      ResidencyStepAt(r, k - 1, cap);
      KeptOneMore(r, k - 1, cap);
    }
  }

  lemma NothingFiled(r: Run, cap: nat)
    ensures !Has(At(r, 0).rungs, cap)
  {
  }

  lemma ResidencyStepAt(r: Run, k: nat, cap: nat)
    requires k < |r.steps|
    ensures Has(At(r, k + 1).rungs, cap) <==> FiledAt(r, k, cap) || (Has(At(r, k).rungs, cap) && !DroppedAt(r, k, cap))
  {
    hide Apply, Inv;
    InvAt(r, k);
    if Enabled(At(r, k), r.steps[k]) {
      ResidencyStep(At(r, k), r.steps[k], cap);
    }
    hide Enabled;
  }

  lemma KeptOneMore(r: Run, k: nat, cap: nat)
    requires k < |r.steps|
    ensures FiledAndKept(r, k + 1, cap) <==> FiledAt(r, k, cap) || (FiledAndKept(r, k, cap) && !DroppedAt(r, k, cap))
  {
    hide FiledAt, DroppedAt;
    if FiledAndKept(r, k, cap) && !DroppedAt(r, k, cap) {
      var j :| 0 <= j < k && FiledAt(r, j, cap) && forall l | j < l < k :: !DroppedAt(r, l, cap);
      assert forall l | j < l < k + 1 :: !DroppedAt(r, l, cap);
    }
  }

  /** After its arrival at step `i` the thread's only step before `k` is to acquire the mutex. */
  ghost predicate OnlyAcquires(r: Run, t: nat, i: nat, k: nat)
    requires i < k <= |r.steps|
    decreases k
  {
    k == i + 1
    || (OnlyAcquires(r, t, i, k - 1)
        && (r.steps[k - 1].t == t && Enabled(At(r, k - 1), r.steps[k - 1]) ==> r.steps[k - 1].Acquire?))
  }

  lemma {:induction false} WaiterKeepsItsCap(r: Run, t: nat, cap: nat, i: nat, k: nat)
    requires i < k <= |r.steps| && t < r.n && |At(r, i).threads| == r.n
    requires r.steps[i].Arrive? && r.steps[i].t == t && Enabled(At(r, i), r.steps[i])
    requires cap == CapFor(r.steps[i].query, r.steps[i].requested, At(r, i).committed)
    requires OnlyAcquires(r, t, i, k)
    ensures |At(r, k).threads| == r.n
    ensures At(r, k).threads[t] == Wants(cap) || At(r, k).threads[t] == Holding(cap)
  {
    hide Enabled, Apply;
    var s, a := At(r, k - 1), r.steps[k - 1];
    if i + 1 < k {
      WaiterKeepsItsCap(r, t, cap, i, k - 1);
    }
    if Enabled(s, a) {
      StepOfThread(s, a, t);
    }
  }

  lemma StepOfThread(s: State, a: Action, t: nat)
    requires Enabled(s, a) && t < |s.threads|
    ensures |Apply(s, a).threads| == |s.threads|
    ensures a.t != t ==> Apply(s, a).threads[t] == s.threads[t]
    ensures a.Acquire? && a.t == t && s.threads[t].Wants? ==> Apply(s, a).threads[t] == Holding(s.threads[t].cap)
    ensures a.Arrive? && a.t == t ==> Apply(s, a).threads[t] == Wants(CapFor(a.query, a.requested, s.committed))
    ensures a.Acquire? && a.t == t ==> s.threads[t].Wants? || s.threads[t].WantsUnload?
  {
  }

  /** A request arrives at step `i`, takes the mutex, and looks for its engine at step `k`. */
  ghost predicate LooksUp(r: Run, t: nat, i: nat, k: nat) {
    && i < k < |r.steps|
    && r.steps[i].Arrive? && r.steps[i].t == t && Enabled(At(r, i), r.steps[i])
    && OnlyAcquires(r, t, i, k)
    && r.steps[k] == Find(t) && Enabled(At(r, k), r.steps[k])
  }

  /** The cap the request settled on when it arrived. */
  ghost function SettledCap(r: Run, i: nat): nat
    requires i < |r.steps| && r.steps[i].Arrive?
  {
    CapFor(r.steps[i].query, r.steps[i].requested, At(r, i).committed)
  }

  /** A document, and a query that arrives with no cap committed, settles on its own requested cap; any other query on
      the committed one. */
  lemma ArrivalSettlesTheCap(r: Run, i: nat)
    requires i < |r.steps| && r.steps[i].Arrive? && Enabled(At(r, i), r.steps[i])
    ensures r.steps[i].t < |At(r, i + 1).threads| && At(r, i + 1).threads[r.steps[i].t] == Wants(SettledCap(r, i))
    ensures !r.steps[i].query || At(r, i).committed == 0 ==> SettledCap(r, i) == r.steps[i].requested
    ensures r.steps[i].query && At(r, i).committed != 0 ==> SettledCap(r, i) == At(r, i).committed
  {
    StepOfThread(At(r, i), r.steps[i], r.steps[i].t);
    hide Enabled, Apply;
  }

  /** A request, query or document, has to build if and only if the cap it settled on at arrival was never filed, or
      has since been evicted, taken or healed away; otherwise it finds its engine. */
  lemma RequestBuildsIff(r: Run, t: nat, i: nat, k: nat)
    requires LooksUp(r, t, i, k)
    ensures t < |At(r, k + 1).threads|
    ensures At(r, k + 1).threads[t] == Missed(SettledCap(r, i)) <==> !FiledAndKept(r, k, SettledCap(r, i))
    ensures At(r, k + 1).threads[t] == Unsettled(SettledCap(r, i)) <==> FiledAndKept(r, k, SettledCap(r, i))
  {
    hide FiledAndKept, Inv;
    var cap := SettledCap(r, i);
    InvAt(r, i);
    InvAt(r, k);
    WaiterKeepsItsCap(r, t, cap, i, k);
    ResidentIffFiledAndKept(r, k, cap);
    LookupIsHas(At(r, k).rungs, cap);
    hide Lookup, Has;
  }

  /** A query that arrives while the committed rung is resident finds that rung, provided no step in between drops
      it; it builds nothing. */
  lemma UndisturbedQueryNeverBuilds(r: Run, t: nat, i: nat, k: nat)
    requires LooksUp(r, t, i, k) && r.steps[i].query
    requires At(r, i).committed != 0 && Has(At(r, i).rungs, At(r, i).committed)
    requires forall j | i <= j < k :: !DroppedAt(r, j, At(r, i).committed)
    ensures t < |At(r, k + 1).threads| && At(r, k + 1).threads[t] == Unsettled(At(r, i).committed)
  {
    hide At, FiledAt, DroppedAt, Enabled;
    var cap := At(r, i).committed;
    ResidentIffFiledAndKept(r, i, cap);
    var j :| 0 <= j < i && FiledAt(r, j, cap) && forall l | j < l < i :: !DroppedAt(r, l, cap);
    assert forall l | j < l < k :: !DroppedAt(r, l, cap);
    RequestBuildsIff(r, t, i, k);
  }

  /** The cap is read before the mutex, so a query can still be the one that builds: it inherits 256 from a build
      in flight, the build fails, and the query then finds nothing resident at 256 and builds it itself. */
  function OrphanedQuery(): Run {
    var bad := Canary.Session(false, []);
    Run(2, 1, [
      Arrive(0, false, 256), Acquire(0), Find(0), Commit(0),
      Arrive(1, true, 1024),
      Build(0, bad, bad, false), Settle(0), Release(0),
      Acquire(1), Find(1)])
  }

  lemma OrphanedSteps()
    ensures var r, bad := OrphanedQuery(), Canary.Session(false, []);
            && |r.steps| == 10 && At(r, 0) == State([Idle, Idle], None, false, [], 1, 0)
            && r.steps[0] == Arrive(0, false, 256)
            && r.steps[1] == Acquire(0)
            && r.steps[2] == Find(0)
            && r.steps[3] == Commit(0)
            && r.steps[4] == Arrive(1, true, 1024)
            && r.steps[5] == Build(0, bad, bad, false)
            && r.steps[6] == Settle(0)
            && r.steps[7] == Release(0)
            && r.steps[8] == Acquire(1)
            && r.steps[9] == Find(1)
  {
  }

  lemma Advance(r: Run, k: nat)
    requires k < |r.steps| && Enabled(At(r, k), r.steps[k])
    ensures At(r, k + 1) == Apply(At(r, k), r.steps[k])
  {
  }

  lemma DocumentCommits()
    ensures var r := OrphanedQuery();
            && |r.steps| == 10
            && Enabled(At(r, 0), r.steps[0])
            && Enabled(At(r, 1), r.steps[1])
            && Enabled(At(r, 2), r.steps[2])
            && Enabled(At(r, 3), r.steps[3])
            && At(r, 4) == State([Building(256), Idle], Some(0), false, [], 1, 256)
  {
    hide At, OrphanedQuery;
    OrphanedSteps();
    var r := OrphanedQuery();
    Advance(r, 0);
    Advance(r, 1);
    Advance(r, 2);
    Advance(r, 3);
  }

  lemma BuildFails()
    ensures var r := OrphanedQuery();
            && |r.steps| == 10
            && Enabled(At(r, 4), r.steps[4])
            && Enabled(At(r, 5), r.steps[5])
            && Enabled(At(r, 6), r.steps[6])
            && Enabled(At(r, 7), r.steps[7])
            && At(r, 8) == State([Idle, Wants(256)], None, false, [], 1, 0)
  {
    hide At, OrphanedQuery;
    OrphanedSteps();
    DocumentCommits();
    var r := OrphanedQuery();
    Advance(r, 4);
    Advance(r, 5);
    Advance(r, 6);
    Advance(r, 7);
  }

  lemma QueryMisses()
    ensures var r := OrphanedQuery();
            && |r.steps| == 10
            && Enabled(At(r, 8), r.steps[8])
            && Enabled(At(r, 9), r.steps[9])
            && At(r, 10) == State([Idle, Missed(256)], Some(1), false, [], 1, 0)
  {
    hide At, OrphanedQuery;
    OrphanedSteps();
    BuildFails();
    var r := OrphanedQuery();
    Advance(r, 8);
    Advance(r, 9);
  }

  lemma QueryCanBuild()
    ensures var r := OrphanedQuery(); Legal(r) && At(r, 10).threads == [Idle, Missed(256)] && At(r, 10).rungs == []
  {
    hide At, OrphanedQuery, Enabled;
    OrphanedSteps();
    DocumentCommits();
    BuildFails();
    QueryMisses();
    EachEnabledIsLegal(OrphanedQuery(), 10);
  }

  // ---------- whether a query moves the mirror ----------

  /** The thread takes no step of the stretch from `i` to `k`. */
  ghost predicate Rests(r: Run, t: nat, i: nat, k: nat)
    requires i <= k <= |r.steps|
    decreases k
  {
    k == i || (Rests(r, t, i, k - 1) && !(r.steps[k - 1].t == t && Enabled(At(r, k - 1), r.steps[k - 1])))
  }

  /** The steps of a request that finds its engine, up to the one that settles the mirror. */
  datatype Turn = Turn(t: nat, arrive: nat, acquire: nat, find: nat, settle: nat)

  ghost predicate Taken(r: Run, k: nat, a: Action) {
    k < |r.steps| && r.steps[k] == a && Enabled(At(r, k), a)
  }

  ghost predicate IsHitTurn(r: Run, u: Turn) {
    && u.arrive < u.acquire < u.find < u.settle < |r.steps|
    && r.steps[u.arrive].Arrive? && r.steps[u.arrive].t == u.t && Taken(r, u.arrive, r.steps[u.arrive])
    && Rests(r, u.t, u.arrive + 1, u.acquire)
    && Taken(r, u.acquire, Acquire(u.t))
    && Rests(r, u.t, u.acquire + 1, u.find)
    && Taken(r, u.find, Find(u.t))
    && u.t < |At(r, u.find + 1).threads| && At(r, u.find + 1).threads[u.t].Unsettled?
    && Rests(r, u.t, u.find + 1, u.settle)
    && Taken(r, u.settle, Settle(u.t))
  }

  lemma RestingStep(r: Run, t: nat, k: nat)
    requires k < |r.steps| && t < |At(r, k).threads| && !(r.steps[k].t == t && Enabled(At(r, k), r.steps[k]))
    ensures t < |At(r, k + 1).threads| && At(r, k + 1).threads[t] == At(r, k).threads[t]
  {
    hide Enabled, Apply;
    if Enabled(At(r, k), r.steps[k]) {
      StepOfThread(At(r, k), r.steps[k], t);
    }
  }

  lemma {:induction false} RestingKeepsThread(r: Run, t: nat, i: nat, k: nat)
    requires i <= k <= |r.steps| && Rests(r, t, i, k) && t < |At(r, i).threads|
    ensures t < |At(r, k).threads| && At(r, k).threads[t] == At(r, i).threads[t]
  {
    hide At, Enabled;
    if i < k {
      RestingKeepsThread(r, t, i, k - 1);
      RestingStep(r, t, k - 1);
    }
  }

  /** Only the thread that holds the mutex moves the mirror. */
  lemma MirrorStep(s: State, a: Action, t: nat)
    requires Inv(s) && Enabled(s, a) && t < |s.threads| && Holds(s.threads[t]) && a.t != t
    ensures Apply(s, a).committed == s.committed
  {
    assert Holds(s.threads[t]) <==> s.lock == Some(t);
    assert Holds(s.threads[a.t]) <==> s.lock == Some(a.t);
    hide Inv;
  }

  lemma HeldMirrorStep(r: Run, t: nat, k: nat)
    requires k < |r.steps| && t < |At(r, k).threads| && Holds(At(r, k).threads[t])
    requires !(r.steps[k].t == t && Enabled(At(r, k), r.steps[k]))
    ensures At(r, k + 1).committed == At(r, k).committed
  {
    hide Enabled, Apply, Inv;
    InvAt(r, k);
    if Enabled(At(r, k), r.steps[k]) {
      MirrorStep(At(r, k), r.steps[k], t);
    }
  }

  lemma {:induction false} HeldMirrorStays(r: Run, t: nat, i: nat, k: nat)
    requires i <= k <= |r.steps| && Rests(r, t, i, k) && t < |At(r, i).threads| && Holds(At(r, i).threads[t])
    ensures At(r, k).committed == At(r, i).committed
  {
    hide At, Enabled;
    if i < k {
      HeldMirrorStays(r, t, i, k - 1);
      RestingKeepsThread(r, t, i, k - 1);
      HeldMirrorStep(r, t, k - 1);
    }
  }

  lemma OwnStep(r: Run, k: nat)
    requires k < |r.steps| && Enabled(At(r, k), r.steps[k])
    ensures var s, s', a := At(r, k), At(r, k + 1), r.steps[k];
            && (a.Arrive? ==> s'.threads[a.t] == Wants(CapFor(a.query, a.requested, s.committed)))
            && (a.Acquire? && s.threads[a.t].Wants? ==> s'.threads[a.t] == Holding(s.threads[a.t].cap))
            && (a.Acquire? || a.Find? ==> s'.committed == s.committed)
            && (a.Find? ==> s'.threads[a.t] == Unsettled(s.threads[a.t].cap) || s'.threads[a.t].Missed?)
            && (a.Settle? ==> s'.committed == NewestCap(s.rungs))
            && a.t < |s.threads| == |s'.threads|
  {
    hide Lookup, Touched, NewestCap, Inserted, RemovedAll;
  }

  /** What the mirror names before and after the turn, from the settled cap alone. */
  lemma HitTurnSettles(r: Run, u: Turn)
    requires IsHitTurn(r, u)
    ensures At(r, u.settle).committed == At(r, u.acquire).committed
    ensures At(r, u.settle + 1).committed == SettledCap(r, u.arrive)
  {
    hide At, Enabled, Apply, NewestCap, Inv, CapFor;
    var t := u.t;
    OwnStep(r, u.arrive);
    RestingKeepsThread(r, t, u.arrive + 1, u.acquire);
    OwnStep(r, u.acquire);
    RestingKeepsThread(r, t, u.acquire + 1, u.find);
    HeldMirrorStays(r, t, u.acquire + 1, u.find);
    OwnStep(r, u.find);
    RestingKeepsThread(r, t, u.find + 1, u.settle);
    HeldMirrorStays(r, t, u.find + 1, u.settle);
    OwnStep(r, u.settle);
    UnsettledIsNewest(r, u.settle, t);
  }

  lemma UnsettledIsNewest(r: Run, k: nat, t: nat)
    requires k <= |r.steps| && t < |At(r, k).threads| && At(r, k).threads[t].Unsettled?
    ensures NewestCap(At(r, k).rungs) == At(r, k).threads[t].cap
  {
    hide At, NewestCap;
    InvAt(r, k);
  }

  /** A request that finds its engine moves the mirror if and only if the mirror no longer names the cap the request
      settled on when it takes the mutex. For a query that inherited its cap: if and only if the mirror was moved
      between its arrival and its taking the mutex. No build is needed for that. */
  lemma HitMovesTheMirrorIff(r: Run, u: Turn)
    requires IsHitTurn(r, u)
    ensures At(r, u.settle + 1).committed != At(r, u.settle).committed
            <==> At(r, u.acquire).committed != SettledCap(r, u.arrive)
    ensures r.steps[u.arrive].query && At(r, u.arrive).committed != 0 ==>
              (At(r, u.settle + 1).committed != At(r, u.settle).committed
               <==> At(r, u.acquire).committed != At(r, u.arrive).committed)
  {
    hide At, Enabled, Rests;
    HitTurnSettles(r, u);
  }

  /** Rungs 256 and 1024 are built and resident. A query inherits 1024; while it waits a document runs on 256 and
      moves the mirror there; then the query, which builds nothing, moves it back to 1024. */
  function MovingQuery(): Run {
    Run(2, 2, seq(25, k requires 0 <= k < 25 => MovingStep(k)))
  }

  /** Steps 0 to 7 and 8 to 15 build the two rungs; the query arrives at step 16. */
  function MovingStep(k: nat): Action {
    if k < 16 then BuildingStep(if k < 8 then 256 else 1024, k % 8)
    else if k == 16 then Arrive(1, true, 512)
    else if k == 17 then Arrive(0, false, 256)
    else if k == 18 then Acquire(0)
    else if k == 19 then Find(0)
    else if k == 20 then Settle(0)
    else if k == 21 then Release(0)
    else if k == 22 then Acquire(1)
    else if k == 23 then Find(1)
    else Settle(1)
  }

  function BuildingStep(cap: nat, k: nat): Action {
    if k == 0 then Arrive(0, false, cap)
    else if k == 1 then Acquire(0)
    else if k == 2 then Find(0)
    else if k == 3 then Commit(0)
    else if k == 4 then Build(0, Good(), Good(), false)
    else if k == 5 then File(0)
    else if k == 6 then Settle(0)
    else Release(0)
  }

  function Good(): Canary.Session {
    Canary.Session(true, [Canary.Scored(1.0)])
  }

  function Rung(cap: nat): (nat, Engine) {
    (cap, Engine(cap, Good()))
  }

  lemma GoodPasses()
    ensures Canary.Validated(Good(), Good(), false) == Some(Good())
  {
    assert Canary.Clears(Good().passes[0]);
  }

  lemma MovingSteps()
    ensures var r := MovingQuery();
            && |r.steps| == 25 && At(r, 0) == State([Idle, Idle], None, false, [], 2, 0)
            && r.steps[0] == Arrive(0, false, 256) && r.steps[8] == Arrive(0, false, 1024)
            && r.steps[16] == Arrive(1, true, 512) && r.steps[17] == Arrive(0, false, 256)
            && r.steps[1] == r.steps[9] == r.steps[18] == Acquire(0)
            && r.steps[2] == r.steps[10] == r.steps[19] == Find(0)
            && r.steps[3] == r.steps[11] == Commit(0)
            && r.steps[4] == r.steps[12] == Build(0, Good(), Good(), false)
            && r.steps[5] == r.steps[13] == File(0)
            && r.steps[6] == r.steps[14] == r.steps[20] == Settle(0)
            && r.steps[7] == r.steps[15] == r.steps[21] == Release(0)
            && r.steps[22] == Acquire(1) && r.steps[23] == Find(1) && r.steps[24] == Settle(1)
  {
  }

  lemma TwoRungs(x: (nat, Engine), y: (nat, Engine))
    requires x.0 != y.0
    ensures Touched([x, y], x.0) == [y, x] && Lookup([x, y], x.0) == Some(x.1) && Lookup([x], y.0) == None
    ensures Inserted([x], 2, y.0, y.1).0 == [x, y] && Inserted([], 2, y.0, y.1).0 == [y]
    ensures Lookup<Engine>([], y.0) == None && Touched([x], y.0) == [x] && Touched<Engine>([], y.0) == []
    ensures NewestCap([x, y]) == y.0 && NewestCap([y]) == y.0
  {
    assert [x, y][1..] == [y] && [x][1..] == [] && [y][1..] == [];
    assert Position([x, y], x.0) == 0 && Position([x], y.0) == 1;
    assert Without([x], y.0) == [x];
  }

  lemma FirstIsCommitted()
    ensures var r := MovingQuery();
            && |r.steps| == 25
            && Enabled(At(r, 0), r.steps[0])
            && Enabled(At(r, 1), r.steps[1])
            && Enabled(At(r, 2), r.steps[2])
            && Enabled(At(r, 3), r.steps[3])
            && At(r, 4) == State([Building(256), Idle], Some(0), false, [], 2, 256)
  {
    hide At, MovingQuery, Touched, Lookup;
    MovingSteps();
    TwoRungs(Rung(1024), Rung(256));
    var r := MovingQuery();
    Advance(r, 0);
    Advance(r, 1);
    Advance(r, 2);
    Advance(r, 3);
  }

  lemma FirstIsFiled()
    ensures var r := MovingQuery();
            && |r.steps| == 25
            && Enabled(At(r, 4), r.steps[4])
            && Enabled(At(r, 5), r.steps[5])
            && Enabled(At(r, 6), r.steps[6])
            && Enabled(At(r, 7), r.steps[7])
            && At(r, 8) == State([Idle, Idle], None, false, [Rung(256)], 2, 256)
  {
    hide At, MovingQuery, Inserted, NewestCap, Good;
    MovingSteps();
    FirstIsCommitted();
    GoodPasses();
    TwoRungs(Rung(1024), Rung(256));
    var r := MovingQuery();
    Advance(r, 4);
    Advance(r, 5);
    Advance(r, 6);
    Advance(r, 7);
  }

  lemma SecondIsCommitted()
    ensures var r := MovingQuery();
            && |r.steps| == 25
            && Enabled(At(r, 8), r.steps[8])
            && Enabled(At(r, 9), r.steps[9])
            && Enabled(At(r, 10), r.steps[10])
            && Enabled(At(r, 11), r.steps[11])
            && At(r, 12) == State([Building(1024), Idle], Some(0), false, [Rung(256)], 2, 1024)
  {
    hide At, MovingQuery, Touched, Lookup, Good;
    MovingSteps();
    FirstIsFiled();
    TwoRungs(Rung(256), Rung(1024));
    var r := MovingQuery();
    Advance(r, 8);
    Advance(r, 9);
    Advance(r, 10);
    Advance(r, 11);
  }

  lemma SecondIsFiled()
    ensures var r := MovingQuery();
            && |r.steps| == 25
            && Enabled(At(r, 12), r.steps[12])
            && Enabled(At(r, 13), r.steps[13])
            && Enabled(At(r, 14), r.steps[14])
            && Enabled(At(r, 15), r.steps[15])
            && At(r, 16) == State([Idle, Idle], None, false, [Rung(256), Rung(1024)], 2, 1024)
  {
    hide At, MovingQuery, Inserted, NewestCap, Good;
    MovingSteps();
    SecondIsCommitted();
    GoodPasses();
    TwoRungs(Rung(256), Rung(1024));
    var r := MovingQuery();
    Advance(r, 12);
    Advance(r, 13);
    Advance(r, 14);
    Advance(r, 15);
  }

  lemma QueryInherits()
    ensures var r := MovingQuery();
            && |r.steps| == 25
            && Enabled(At(r, 16), r.steps[16])
            && Enabled(At(r, 17), r.steps[17])
            && Enabled(At(r, 18), r.steps[18])
            && At(r, 17).threads == [Idle, Wants(1024)]
            && At(r, 19) == State([Holding(256), Wants(1024)], Some(0), false, [Rung(256), Rung(1024)], 2, 1024)
  {
    hide At, MovingQuery, Good;
    MovingSteps();
    SecondIsFiled();
    var r := MovingQuery();
    Advance(r, 16);
    Advance(r, 17);
    Advance(r, 18);
  }

  lemma DocumentMovesTheMirror()
    ensures var r := MovingQuery();
            && |r.steps| == 25
            && Enabled(At(r, 19), r.steps[19])
            && Enabled(At(r, 20), r.steps[20])
            && Enabled(At(r, 21), r.steps[21])
            && At(r, 22) == State([Idle, Wants(1024)], None, false, [Rung(1024), Rung(256)], 2, 256)
  {
    hide At, MovingQuery, Touched, Lookup, NewestCap, Good;
    MovingSteps();
    QueryInherits();
    TwoRungs(Rung(256), Rung(1024));
    TwoRungs(Rung(1024), Rung(256));
    var r := MovingQuery();
    Advance(r, 19);
    Advance(r, 20);
    Advance(r, 21);
  }

  lemma QueryMovesItBack()
    ensures var r := MovingQuery();
            && |r.steps| == 25
            && Enabled(At(r, 22), r.steps[22])
            && Enabled(At(r, 23), r.steps[23])
            && Enabled(At(r, 24), r.steps[24])
            && At(r, 24).committed == 256 && At(r, 25).committed == 1024
  {
    hide At, MovingQuery, Touched, Lookup, NewestCap, Good;
    MovingSteps();
    DocumentMovesTheMirror();
    TwoRungs(Rung(1024), Rung(256));
    TwoRungs(Rung(256), Rung(1024));
    var r := MovingQuery();
    Advance(r, 22);
    Advance(r, 23);
    Advance(r, 24);
  }

  lemma QueryCanMoveTheMirror()
    ensures var r := MovingQuery();
            && Legal(r) && |r.steps| == 25
            && r.steps[16] == Arrive(1, true, 512) && At(r, 16).committed == 1024
            && (forall k | 16 <= k < 25 :: !r.steps[k].Build? && !r.steps[k].Take? && !r.steps[k].Panic?)
            && r.steps[24] == Settle(1) && At(r, 24).committed == 256 && At(r, 25).committed == 1024
  {
    hide At, MovingQuery, Enabled, Good;
    MovingSteps();
    FirstIsCommitted();
    FirstIsFiled();
    SecondIsCommitted();
    SecondIsFiled();
    QueryInherits();
    DocumentMovesTheMirror();
    QueryMovesItBack();
    EachEnabledIsLegal(MovingQuery(), 25);
  }
}
