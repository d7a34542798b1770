/** The compiled-model cache path (src/compile_cache.rs, src/inference.rs, src/provider.rs) with a cache
    configured: one mutex and one process-wide variable decide which directory a session's first kernel launch
    reads, while any number of embed, rerank and unload threads interleave. */
module CacheLease {
  import opened Wrappers

  datatype Engine = Embed | Rerank

  /** `CacheShape`: batch 0 stands for a batch that is not pinned at build time. */
  datatype Shape = Shape(batch: nat, seqLen: nat)

  /** One engine's slice of the cache, at one shape. */
  datatype Slice = Slice(engine: Engine, shape: Shape)

  datatype Session = Session(launched: bool, builtAt: nat)

  /** One thread inside `embed_natural`, `rerank_blocking` or `drain_engines`. */
  datatype Pc =
    | Idle
    | Wants(job: Slice)                       // queued on the engine's mutex
    | Holding(job: Slice)                     // engine mutex held
    | WantsLease(job: Slice)                  // engine missing: queued on the cache-path mutex
    | Claiming(job: Slice)                    // cache-path mutex held, variable not set yet
    | Leased(job: Slice)                      // variable set to this job's slice
    | Checking(job: Slice, session: Session)  // embed only: built, the canary has not passed yet
    | Passing(job: Slice)                     // engine filed in its slot, lease still held
    | Resident(job: Slice)                    // engine in its slot, no lease
    | Leaving(job: Slice, panicked: bool)     // about to release the engine mutex

  datatype State = State(
    threads: seq<Pc>,
    embedLock: Option<nat>, embedPoisoned: bool, rungs: map<nat, Session>,
    rerankLock: Option<nat>, rerankPoisoned: bool, rerank: Option<Session>,
    lease: Option<nat>, path: Option<Slice>)

  datatype Action =
    | Arrive(t: nat, job: Slice)
    | Refuse(t: nat)                     // the wedge ceiling ends the wait
    | Acquire(t: nat)
    | Lookup(t: nat)
    | TakeLease(t: nat)
    | SetPath(t: nat)
    | Build(t: nat)
    | Rebuild(t: nat)                    // embed only: wipe and build once more after a failed canary
    | File(t: nat)                       // embed only: the canary passed
    | Evict(t: nat, cap: nat)
    | Launch(t: nat)
    | DropLease(t: nat)                  // after a pass over at least one text
    | Drain(t: nat)                      // a full unload empties the slot it locked
    | DrainSome(t: nat, caps: set<nat>)  // embed only: an unload takes out the rungs it names
    | Finish(t: nat)
    | Fail(t: nat, panicked: bool)       // an error return or a panic at any point inside the guards
    | Leave(t: nat)

  /** The reranker is built at one configured length, and its batch is never pinned. */
  predicate ValidJob(job: Slice, rerankSeq: nat) {
    job.engine == Rerank ==> job.shape == Shape(0, rerankSeq)
  }

  predicate HoldsLease(p: Pc) {
    p.Claiming? || p.Leased? || p.Checking? || p.Passing?
  }

  predicate HoldsEngine(p: Pc, e: Engine) {
    !p.Idle? && !p.Wants? && p.job.engine == e
  }

  function LockOf(s: State, e: Engine): Option<nat> {
    if e == Embed then s.embedLock else s.rerankLock
  }

  function Filed(s: State, job: Slice): Option<Session> {
    match job.engine
    case Embed => if job.shape.seqLen in s.rungs then Some(s.rungs[job.shape.seqLen]) else None
    case Rerank => s.rerank
  }

  function FileAs(s: State, job: Slice, session: Session): (r: State)
    ensures r.threads == s.threads && r.embedLock == s.embedLock && r.rerankLock == s.rerankLock && r.lease == s.lease
  {
    match job.engine
    case Embed => s.(rungs := s.rungs[job.shape.seqLen := session])
    case Rerank => s.(rerank := Some(session))
  }

  predicate Enabled(s: State, a: Action, rerankSeq: nat) {
    a.t < |s.threads|
    && var p := s.threads[a.t];
    match a
    case Arrive(_, job) => p.Idle? && ValidJob(job, rerankSeq)
    case Refuse(_) => p.Wants?
    case Acquire(_) => p.Wants? && LockOf(s, p.job.engine).None?
    case Lookup(_) => p.Holding?
    case TakeLease(_) => p.WantsLease? && s.lease.None?
    case SetPath(_) => p.Claiming?
    case Build(_) => p.Leased?
    case Rebuild(_) => p.Checking?
    case File(_) => p.Checking? && p.session.launched   // a canary passes on rows a launch returned
    case Evict(_, cap) => p.Passing? && p.job.engine == Embed && cap != p.job.shape.seqLen
    case Launch(_) => p.Checking? || p.Passing? || p.Resident?
    case DropLease(_) => p.Passing? && Filed(s, p.job).Some? && Filed(s, p.job).value.launched
    case Drain(_) => p.Holding?
    case DrainSome(_, _) => p.Holding? && p.job.engine == Embed
    case Finish(_) => p.Resident?
    case Fail(_, _) => p.Holding? || HoldsLease(p) || p.Resident?
    case Leave(_) => p.Leaving?
  }

  function Goto(s: State, t: nat, p: Pc): State
    requires t < |s.threads|
  {
    s.(threads := s.threads[t := p])
  }

  function Apply(s: State, a: Action, rerankSeq: nat, now: nat): State
    requires Enabled(s, a, rerankSeq)
  {
    var p := s.threads[a.t];
    match a
    case Arrive(t, job) => Goto(s, t, Wants(job))
    case Refuse(t) => Goto(s, t, Idle)
    case Acquire(t) =>
      // a poisoned engine mutex is healed by discarding whatever it guarded
      var locked := if p.job.engine == Embed
                    then s.(embedLock := Some(t), embedPoisoned := false,
                            rungs := if s.embedPoisoned then map[] else s.rungs)
                    else s.(rerankLock := Some(t), rerankPoisoned := false,
                            rerank := if s.rerankPoisoned then None else s.rerank);
      Goto(locked, t, Holding(p.job))
    case Lookup(t) => Goto(s, t, if Filed(s, p.job).Some? then Resident(p.job) else WantsLease(p.job))
    case TakeLease(t) => Goto(s.(lease := Some(t)), t, Claiming(p.job))
    case SetPath(t) => Goto(s.(path := Some(p.job)), t, Leased(p.job))
    case Build(t) =>
      if p.job.engine == Embed then Goto(s, t, Checking(p.job, Session(false, now)))
      else Goto(FileAs(s, p.job, Session(false, now)), t, Passing(p.job))
    case Rebuild(t) => Goto(s, t, Checking(p.job, Session(false, now)))
    case File(t) => Goto(FileAs(s, p.job, p.session), t, Passing(p.job))
    case Evict(t, cap) => s.(rungs := s.rungs - {cap})
    case Launch(t) =>
      if p.Checking? then Goto(s, t, Checking(p.job, p.session.(launched := true)))
      else if Filed(s, p.job).Some? then FileAs(s, p.job, Filed(s, p.job).value.(launched := true))
      else s
    case DropLease(t) => Goto(s.(lease := None), t, Resident(p.job))
    case Drain(t) =>
      var emptied := if p.job.engine == Embed then s.(rungs := map[]) else s.(rerank := None);
      Goto(emptied, t, Leaving(p.job, false))
    case DrainSome(t, caps) => Goto(s.(rungs := s.rungs - caps), t, Leaving(p.job, false))
    case Finish(t) => Goto(s, t, Leaving(p.job, false))
    case Fail(t, panicked) =>
      Goto(if HoldsLease(p) then s.(lease := None) else s, t, Leaving(p.job, panicked))
    case Leave(t) =>
      var unlocked := if p.job.engine == Embed
                      then s.(embedLock := None, embedPoisoned := p.panicked)
                      else s.(rerankLock := None, rerankPoisoned := p.panicked);
      Goto(unlocked, t, Idle)
  }

  // ---------- runs ----------

  datatype Run = Run(n: nat, rerankSeq: nat, steps: seq<Action>)

  function Init(n: nat): State {
    State(seq(n, _ => Idle), None, false, map[], None, false, None, None, None)
  }

  ghost function At(r: Run, k: nat): State
    requires k <= |r.steps|
  {
    if k == 0 then Init(r.n)
    else
      var s := At(r, k - 1);
      if Enabled(s, r.steps[k - 1], r.rerankSeq) then Apply(s, r.steps[k - 1], r.rerankSeq, k - 1) else s
  }

  /** The first `k` steps were each enabled when they were taken. */
  ghost predicate LegalUpTo(r: Run, k: nat)
    requires k <= |r.steps|
  {
    k == 0 || (LegalUpTo(r, k - 1) && Enabled(At(r, k - 1), r.steps[k - 1], r.rerankSeq))
  }

  ghost predicate Legal(r: Run) {
    LegalUpTo(r, |r.steps|)
  }

  lemma {:induction false} EachEnabledIsLegal(r: Run, n: nat)
    requires n <= |r.steps| && forall k | 0 <= k < n :: Enabled(At(r, k), r.steps[k], r.rerankSeq)
    ensures LegalUpTo(r, n)
  {
    hide At, Enabled;
    if n > 0 {
      EachEnabledIsLegal(r, n - 1);
    }
  }

  /** What an unload takes: a full one everything in the slot it locked, one that names rungs exactly those, and neither
      anything of the other engine. A poisoned slot is emptied the same way by whoever takes its mutex next. */
  lemma UnloadsEmptyTheirSlot(s: State, a: Action, rerankSeq: nat, now: nat)
    requires Enabled(s, a, rerankSeq) && (a.Drain? || a.DrainSome? || a.Acquire?) && a.t < |s.threads|
    ensures var s', e := Apply(s, a, rerankSeq, now), s.threads[a.t].job.engine;
            && (a.Drain? && e == Embed ==> s'.rungs == map[] && s'.rerank == s.rerank)
            && (a.Drain? && e == Rerank ==> s'.rerank == None && s'.rungs == s.rungs)
            && (a.DrainSome? ==> s'.rerank == s.rerank && forall cap ::
                  (cap in s'.rungs <==> cap in s.rungs && cap !in a.caps)
                  && (cap in s'.rungs ==> s'.rungs[cap] == s.rungs[cap]))
            && (a.Acquire? && e == Embed ==>
                  !s'.embedPoisoned && s'.rungs == if s.embedPoisoned then map[] else s.rungs)
            && (a.Acquire? && e == Rerank ==>
                  !s'.rerankPoisoned && s'.rerank == if s.rerankPoisoned then None else s.rerank)
  {
    hide ValidJob;
  }

  // ---------- what every state keeps ----------

  ghost predicate ThreadInv(s: State, t: nat, rerankSeq: nat)
    requires t < |s.threads|
  {
    var p := s.threads[t];
    && (!p.Idle? ==> ValidJob(p.job, rerankSeq))
    && (HoldsEngine(p, Embed) <==> s.embedLock == Some(t))
    && (HoldsEngine(p, Rerank) <==> s.rerankLock == Some(t))
    && (HoldsLease(p) <==> s.lease == Some(t))
    && (p.Leased? || p.Checking? || p.Passing? ==> s.path == Some(p.job))
    && (p.Checking? ==> p.job.engine == Embed)
    && (p.Passing? || p.Resident? ==> Filed(s, p.job).Some?)
    && ((p.WantsLease? || p.Claiming? || p.Leased?) && p.job.engine == Rerank ==> s.rerank.None?)
  }

  ghost predicate Inv(s: State, rerankSeq: nat) {
    && (forall t | 0 <= t < |s.threads| :: ThreadInv(s, t, rerankSeq))
    && (s.embedLock.Some? ==> s.embedLock.value < |s.threads|)
    && (s.rerankLock.Some? ==> s.rerankLock.value < |s.threads|)
    && (s.lease.Some? ==> s.lease.value < |s.threads|)
    && (forall cap | cap in s.rungs :: s.rungs[cap].launched)
  }

  /** The steps up to and including the build. */
  predicate ComesIn(a: Action) {
    a.Arrive? || a.Refuse? || a.Acquire? || a.Lookup? || a.TakeLease? || a.SetPath? || a.Build?
  }

  lemma ComingInKeepsMover(s: State, a: Action, rerankSeq: nat, now: nat)
    requires Enabled(s, a, rerankSeq) && ThreadInv(s, a.t, rerankSeq) && ComesIn(a)
    ensures ThreadInv(Apply(s, a, rerankSeq, now), a.t, rerankSeq)
  {
    hide ValidJob;
  }

  lemma GoingOnKeepsMover(s: State, a: Action, rerankSeq: nat, now: nat)
    requires Enabled(s, a, rerankSeq) && ThreadInv(s, a.t, rerankSeq) && !ComesIn(a)
    ensures ThreadInv(Apply(s, a, rerankSeq, now), a.t, rerankSeq)
  {
    hide ValidJob;
  }

  lemma StepKeepsMover(s: State, a: Action, rerankSeq: nat, now: nat)
    requires Enabled(s, a, rerankSeq) && ThreadInv(s, a.t, rerankSeq) && a.t < |s.threads|
    ensures a.t < |Apply(s, a, rerankSeq, now).threads|
    ensures ThreadInv(Apply(s, a, rerankSeq, now), a.t, rerankSeq)
  {
    SameThreads(s, a, rerankSeq, now);
    hide ThreadInv, Enabled, Apply;
    if ComesIn(a) {
      ComingInKeepsMover(s, a, rerankSeq, now);
    } else {
      GoingOnKeepsMover(s, a, rerankSeq, now);
    }
  }

  /** An engine mutex somebody else holds is not touched, and neither is the slot behind it. */
  lemma EngineFrame(s: State, a: Action, rerankSeq: nat, now: nat, e: Engine, u: nat)
    requires Enabled(s, a, rerankSeq) && ThreadInv(s, a.t, rerankSeq) && u != a.t
    ensures var s' := Apply(s, a, rerankSeq, now);
            && (LockOf(s', e) == Some(u) <==> LockOf(s, e) == Some(u))
            && (LockOf(s, e) == Some(u) ==> if e == Embed then s'.rungs == s.rungs else s'.rerank == s.rerank)
  {
    hide ValidJob;
  }

  lemma LeaseFrame(s: State, a: Action, rerankSeq: nat, now: nat, u: nat)
    requires Enabled(s, a, rerankSeq) && ThreadInv(s, a.t, rerankSeq) && u != a.t
    ensures var s' := Apply(s, a, rerankSeq, now);
            && (s'.lease == Some(u) <==> s.lease == Some(u))
            && (s.lease == Some(u) ==> s'.path == s.path)
  {
    hide ValidJob, Filed;
  }

  lemma SameThreads(s: State, a: Action, rerankSeq: nat, now: nat)
    requires Enabled(s, a, rerankSeq)
    ensures |Apply(s, a, rerankSeq, now).threads| == |s.threads|
  {
    hide ValidJob, Filed, FileAs;
  }

  lemma OnlyTheMoverMoves(s: State, a: Action, rerankSeq: nat, now: nat, t: nat)
    requires Enabled(s, a, rerankSeq) && t < |s.threads| && t != a.t
    ensures |Apply(s, a, rerankSeq, now).threads| == |s.threads|
    ensures Apply(s, a, rerankSeq, now).threads[t] == s.threads[t]
  {
    hide ValidJob, Filed, FileAs;
  }

  /** The mutexes keep the threads apart: what one thread relies on, no other thread's step touches. */
  lemma StepKeepsOthers(s: State, a: Action, rerankSeq: nat, now: nat, t: nat)
    requires Enabled(s, a, rerankSeq) && t < |s.threads| && t != a.t
    requires ThreadInv(s, a.t, rerankSeq) && ThreadInv(s, t, rerankSeq)
    ensures |Apply(s, a, rerankSeq, now).threads| == |s.threads|
    ensures ThreadInv(Apply(s, a, rerankSeq, now), t, rerankSeq)
  {
    OnlyTheMoverMoves(s, a, rerankSeq, now, t);
    EngineFrame(s, a, rerankSeq, now, Embed, t);
    EngineFrame(s, a, rerankSeq, now, Rerank, t);
    LeaseFrame(s, a, rerankSeq, now, t);
    hide Apply, Enabled;
  }

  lemma StepKeepsRungs(s: State, a: Action, rerankSeq: nat, now: nat)
    requires Enabled(s, a, rerankSeq)
    requires forall cap | cap in s.rungs :: s.rungs[cap].launched
    ensures var s' := Apply(s, a, rerankSeq, now); forall cap | cap in s'.rungs :: s'.rungs[cap].launched
  {
  }

  /** A mutex changes hands only to the thread that moves. */
  lemma LocksGoToTheMover(s: State, a: Action, rerankSeq: nat, now: nat)
    requires Enabled(s, a, rerankSeq)
    ensures var s' := Apply(s, a, rerankSeq, now);
            && (s'.embedLock == s.embedLock || s'.embedLock == None || s'.embedLock == Some(a.t))
            && (s'.rerankLock == s.rerankLock || s'.rerankLock == None || s'.rerankLock == Some(a.t))
  {
    hide ValidJob, Filed, FileAs;
  }

  lemma LeaseGoesToTheMover(s: State, a: Action, rerankSeq: nat, now: nat)
    requires Enabled(s, a, rerankSeq)
    ensures var s' := Apply(s, a, rerankSeq, now);
            s'.lease == s.lease || s'.lease == None || s'.lease == Some(a.t)
  {
    hide ValidJob, Filed, FileAs;
  }

  lemma StepKeepsInv(s: State, a: Action, rerankSeq: nat, now: nat)
    requires Inv(s, rerankSeq) && Enabled(s, a, rerankSeq)
    ensures Inv(Apply(s, a, rerankSeq, now), rerankSeq)
  {
    SameThreads(s, a, rerankSeq, now);
    LocksGoToTheMover(s, a, rerankSeq, now);
    LeaseGoesToTheMover(s, a, rerankSeq, now);
    StepKeepsRungs(s, a, rerankSeq, now);
    MoverIsThere(s, a, rerankSeq);
    hide Apply, Enabled, ThreadInv;
    var s' := Apply(s, a, rerankSeq, now);
    forall t | 0 <= t < |s'.threads| ensures ThreadInv(s', t, rerankSeq) {
      if t == a.t {
        StepKeepsMover(s, a, rerankSeq, now);
      } else {
        StepKeepsOthers(s, a, rerankSeq, now, t);
      }
    }
  }

  lemma MoverIsThere(s: State, a: Action, rerankSeq: nat)
    requires Enabled(s, a, rerankSeq)
    ensures a.t < |s.threads|
  {
  }

  lemma {:induction false} InvAt(r: Run, k: nat)
    requires k <= |r.steps|
    ensures Inv(At(r, k), r.rerankSeq) && |At(r, k).threads| == r.n
  {
    hide At, Inv;
    if k == 0 {
      InvAtStart(r);
    } else {
      InvAt(r, k - 1);
      InvStep(r, k - 1);
    }
  }

  lemma InvAtStart(r: Run)
    ensures Inv(At(r, 0), r.rerankSeq) && |At(r, 0).threads| == r.n
  {
  }

  lemma InvStep(r: Run, k: nat)
    requires k < |r.steps| && Inv(At(r, k), r.rerankSeq)
    ensures Inv(At(r, k + 1), r.rerankSeq) && |At(r, k + 1).threads| == |At(r, k).threads|
  {
    hide Enabled, Apply, Inv;
    if Enabled(At(r, k), r.steps[k], r.rerankSeq) {
      StepKeepsInv(At(r, k), r.steps[k], r.rerankSeq, k);
      SameThreads(At(r, k), r.steps[k], r.rerankSeq, k);
    }
  }

  // ---------- launches ----------

  /** The session thread `t` would launch. */
  function SessionOf(s: State, t: nat): Option<Session>
    requires t < |s.threads|
  {
    var p := s.threads[t];
    if p.Checking? then Some(p.session)
    else if p.Passing? || p.Resident? then Filed(s, p.job)
    else None
  }

  /** Step `k` is the first kernel launch of its session: the moment the runtime reads the path. */
  ghost predicate FirstLaunchAt(r: Run, k: nat) {
    && k < |r.steps| && r.steps[k].Launch? && Enabled(At(r, k), r.steps[k], r.rerankSeq)
    && SessionOf(At(r, k), r.steps[k].t).Some?
    && !SessionOf(At(r, k), r.steps[k].t).value.launched
  }

  ghost function JobAt(r: Run, k: nat): Slice
    requires FirstLaunchAt(r, k)
  {
    At(r, k).threads[r.steps[k].t].job
  }

  /** Every launch made under the lease, the canary's included, reads the launching job's own slice. */
  lemma LeasedLaunchReadsOwnSlice(r: Run, k: nat)
    requires k < |r.steps| && r.steps[k].Launch? && Enabled(At(r, k), r.steps[k], r.rerankSeq)
    requires HoldsLease(At(r, k).threads[r.steps[k].t])
    ensures At(r, k).path == Some(At(r, k).threads[r.steps[k].t].job)
  {
    InvAt(r, k);
    assert ThreadInv(At(r, k), r.steps[k].t, r.rerankSeq);
  }

  /** An embedding session's first launch always happens under its lease, because the canary is that launch. */
  lemma EmbedFirstLaunchReadsOwnSlice(r: Run, k: nat)
    requires FirstLaunchAt(r, k) && JobAt(r, k).engine == Embed
    ensures HoldsLease(At(r, k).threads[r.steps[k].t])
    ensures At(r, k).path == Some(JobAt(r, k))
  {
    InvAt(r, k);
    assert ThreadInv(At(r, k), r.steps[k].t, r.rerankSeq);
  }

  // ---------- the reranker's session over time ----------

  ghost predicate PathSetAt(r: Run, j: nat, e: Engine)
    requires j < |r.steps|
  {
    && r.steps[j].SetPath? && Enabled(At(r, j), r.steps[j], r.rerankSeq)
    && At(r, j).threads[r.steps[j].t].job.engine == e
  }

  function RerankSlice(r: Run): Slice {
    Slice(Rerank, Shape(0, r.rerankSeq))
  }

  /** The filed session was built at `builtAt`, while the path named the reranker's slice, and has been filed
      ever since. */
  ghost predicate RerankPast(r: Run, k: nat)
    requires k <= |r.steps|
  {
    At(r, k).rerank.Some? ==>
      var b := At(r, k).rerank.value.builtAt;
      && b < k && r.steps[b].Build? && At(r, b).path == Some(RerankSlice(r)) && !r.steps[b].SetPath?
      && forall j | b < j <= k :: At(r, j).rerank.Some? && At(r, j).rerank.value.builtAt == b
  }

  /** What one step does to the reranker's slot and to the path. */
  lemma RerankStep(s: State, a: Action, rerankSeq: nat, now: nat)
    requires Enabled(s, a, rerankSeq) && ThreadInv(s, a.t, rerankSeq)
    ensures var s' := Apply(s, a, rerankSeq, now);
            && (s'.rerank.Some? ==>
                  || (s.rerank.Some? && s'.rerank.value.builtAt == s.rerank.value.builtAt)
                  || (a.Build? && s'.rerank.value.builtAt == now && s.path == Some(Slice(Rerank, Shape(0, rerankSeq)))))
            && (if a.SetPath?
                then s'.path == Some(s.threads[a.t].job)
                     && (s.threads[a.t].job.engine == Rerank ==>
                           s.rerank.None? && s.threads[a.t].job == Slice(Rerank, Shape(0, rerankSeq)))
                else s'.path == s.path)
  {
  }

  lemma RerankStepAt(r: Run, k: nat)
    requires k < |r.steps|
    ensures var s, s' := At(r, k), At(r, k + 1);
            var a := r.steps[k];
            && (s'.rerank.Some? ==>
                  || (s.rerank.Some? && s'.rerank.value.builtAt == s.rerank.value.builtAt)
                  || (a.Build? && s'.rerank.value.builtAt == k && s.path == Some(RerankSlice(r))))
            && (PathSetAt(r, k, Embed) ==> s'.path.Some? && s'.path.value.engine == Embed)
            && (PathSetAt(r, k, Rerank) ==> s'.path == Some(RerankSlice(r)) && s.rerank.None?)
            && (!PathSetAt(r, k, Embed) && !PathSetAt(r, k, Rerank) ==> s'.path == s.path)
  {
    InvAt(r, k);
    if Enabled(At(r, k), r.steps[k], r.rerankSeq) {
      assert ThreadInv(At(r, k), r.steps[k].t, r.rerankSeq);
      RerankStep(At(r, k), r.steps[k], r.rerankSeq, k);
      hide Apply, Inv, ThreadInv;
    }
  }

  lemma {:induction false} RerankPastAt(r: Run, k: nat)
    requires k <= |r.steps|
    ensures RerankPast(r, k)
  {
    if k > 0 {
      RerankPastAt(r, k - 1);
      SlotStepAt(r, k - 1);
      hide At, Enabled;
      if At(r, k).rerank.Some? {
        var b := At(r, k).rerank.value.builtAt;
        forall j | b < j <= k ensures At(r, j).rerank.Some? && At(r, j).rerank.value.builtAt == b {
          assert j == k || j <= k - 1;
        }
      }
    }
  }

  lemma SlotStepAt(r: Run, k: nat)
    requires k < |r.steps|
    ensures At(r, k + 1).rerank.Some? ==>
              var b := At(r, k + 1).rerank.value.builtAt;
              || (At(r, k).rerank.Some? && At(r, k).rerank.value.builtAt == b)
              || (b == k && r.steps[k].Build? && At(r, k).path == Some(RerankSlice(r)))
  {
    hide At, Enabled;
    RerankStepAt(r, k);
  }

  /** From the build on, the path still names the reranker's slice exactly until an embed claim sets it. */
  lemma {:induction false} PathSinceBuild(r: Run, b: nat, k: nat)
    requires b < k <= |r.steps| && r.steps[b].Build? && At(r, b).path == Some(RerankSlice(r))
    requires forall j | b < j < k :: At(r, j).rerank.Some?
    ensures At(r, k).path.Some?
    ensures At(r, k).path == Some(RerankSlice(r)) <==> forall j | b < j < k :: !PathSetAt(r, j, Embed)
    ensures At(r, k).path.value.engine == Rerank ==> At(r, k).path == Some(RerankSlice(r))
  {
    hide At, Enabled;
    RerankStepAt(r, k - 1);
    if k == b + 1 {
      assert !PathSetAt(r, b, Embed) && !PathSetAt(r, b, Rerank);
    } else {
      hide PathSetAt;
      PathSinceBuild(r, b, k - 1);
    }
  }

  /** A reranker's first launch reads its own slice if and only if no embed claim has set the path since its
      session was built. Under the lease none can have. */
  lemma RerankFirstLaunch(r: Run, k: nat)
    requires FirstLaunchAt(r, k) && JobAt(r, k).engine == Rerank
    ensures At(r, k).rerank.Some? && At(r, k).rerank.value.builtAt < k
    ensures At(r, k).path == Some(JobAt(r, k))
            <==> forall j | At(r, k).rerank.value.builtAt < j < k :: !PathSetAt(r, j, Embed)
    ensures HoldsLease(At(r, k).threads[r.steps[k].t]) ==> At(r, k).path == Some(JobAt(r, k))
  {
    InvAt(r, k);
    assert ThreadInv(At(r, k), r.steps[k].t, r.rerankSeq);
    RerankPastAt(r, k);
    PathSinceBuild(r, At(r, k).rerank.value.builtAt, k);
  }

  // ---------- when no pass dies before its launch ----------

  /** A rerank request returns an error between building its session and launching it, and leaves the session
      filed. A panic there abandons nothing: it poisons the mutex, and whoever takes it next discards the session. */
  ghost predicate Abandons(s: State, a: Action, rerankSeq: nat) {
    && Enabled(s, a, rerankSeq) && a.Fail? && !a.panicked
    && s.threads[a.t].Passing? && s.threads[a.t].job.engine == Rerank
    && s.rerank.Some? && !s.rerank.value.launched
  }

  ghost predicate AbandonedAt(r: Run, j: nat)
    requires j < |r.steps|
  {
    Abandons(At(r, j), r.steps[j], r.rerankSeq)
  }

  /** While no build was abandoned, an unlaunched reranker is in the hands of the thread that built it, or that
      thread panicked and the session is bound to be discarded. */
  ghost predicate UnlaunchedIsHeld(s: State) {
    s.rerank.Some? && !s.rerank.value.launched ==>
      match s.rerankLock
      case None => s.rerankPoisoned
      case Some(u) =>
        u < |s.threads| && !s.threads[u].Idle? && s.threads[u].job.engine == Rerank
        && (s.threads[u].Passing? || (s.threads[u].Leaving? && s.threads[u].panicked))
  }

  lemma OthersKeepHeld(s: State, a: Action, rerankSeq: nat, now: nat, u: nat)
    requires Enabled(s, a, rerankSeq) && ThreadInv(s, a.t, rerankSeq) && UnlaunchedIsHeld(s)
    requires s.rerankLock == Some(u) && u < |s.threads| && u != a.t
    ensures UnlaunchedIsHeld(Apply(s, a, rerankSeq, now))
  {
    OnlyTheMoverMoves(s, a, rerankSeq, now, u);
    EngineFrame(s, a, rerankSeq, now, Rerank, u);
    hide Apply, Enabled, ThreadInv;
  }

  lemma MoverKeepsHeld(s: State, a: Action, rerankSeq: nat, now: nat)
    requires Enabled(s, a, rerankSeq) && ThreadInv(s, a.t, rerankSeq) && UnlaunchedIsHeld(s)
    requires s.rerankLock.None? || s.rerankLock == Some(a.t)
    requires !Abandons(s, a, rerankSeq)
    ensures UnlaunchedIsHeld(Apply(s, a, rerankSeq, now))
  {
    hide ValidJob;
  }

  lemma StepKeepsHeld(s: State, a: Action, rerankSeq: nat, now: nat)
    requires Enabled(s, a, rerankSeq) && Inv(s, rerankSeq) && UnlaunchedIsHeld(s)
    requires !Abandons(s, a, rerankSeq)
    ensures UnlaunchedIsHeld(Apply(s, a, rerankSeq, now))
  {
    MoverIsThere(s, a, rerankSeq);
    hide Apply, Enabled, ThreadInv, UnlaunchedIsHeld, Abandons;
    assert ThreadInv(s, a.t, rerankSeq);
    if s.rerankLock.Some? && s.rerankLock.value != a.t {
      OthersKeepHeld(s, a, rerankSeq, now, s.rerankLock.value);
    } else {
      MoverKeepsHeld(s, a, rerankSeq, now);
    }
  }

  lemma {:induction false} HeldAt(r: Run, k: nat)
    requires k <= |r.steps|
    requires forall j | 0 <= j < k :: !AbandonedAt(r, j)
    ensures UnlaunchedIsHeld(At(r, k))
  {
    hide At, UnlaunchedIsHeld, AbandonedAt;
    if k == 0 {
      NothingIsHeld(r);
    } else {
      HeldAt(r, k - 1);
      HeldStep(r, k - 1);
    }
  }

  lemma NothingIsHeld(r: Run)
    ensures UnlaunchedIsHeld(At(r, 0))
  {
  }

  lemma HeldStep(r: Run, k: nat)
    requires k < |r.steps| && !AbandonedAt(r, k) && UnlaunchedIsHeld(At(r, k))
    ensures UnlaunchedIsHeld(At(r, k + 1))
  {
    hide Apply, Enabled, Inv, UnlaunchedIsHeld, Abandons;
    InvAt(r, k);
    if Enabled(At(r, k), r.steps[k], r.rerankSeq) {
      StepKeepsHeld(At(r, k), r.steps[k], r.rerankSeq, k);
    }
  }

  /** With a cache configured, every first launch of every session reads its own engine's slice at its own
      shape, as long as no rerank request returned an error between its build and its launch. */
  lemma FirstLaunchReadsOwnSlice(r: Run, k: nat)
    requires FirstLaunchAt(r, k)
    requires forall j | 0 <= j < k :: !AbandonedAt(r, j)
    ensures HoldsLease(At(r, k).threads[r.steps[k].t])
    ensures At(r, k).path == Some(JobAt(r, k))
  {
    if JobAt(r, k).engine == Embed {
      EmbedFirstLaunchReadsOwnSlice(r, k);
    } else {
      HeldAt(r, k);
      InvAt(r, k);
      assert ThreadInv(At(r, k), r.steps[k].t, r.rerankSeq);
      LeasedLaunchReadsOwnSlice(r, k);
    }
  }

  /** A rerank request builds, fails before its kernel launch and leaves the session filed; an embed build then
      claims the path; the next rerank request finds the session resident, takes no lease, and its first launch
      reads the embedder's directory. */
  function AbandonedRun(): Run {
    var embed := Slice(Embed, Shape(64, 256));
    var rerank := Slice(Rerank, Shape(0, 512));
    Run(2, 512, [
      Arrive(0, rerank), Acquire(0), Lookup(0), TakeLease(0), SetPath(0), Build(0), Fail(0, false), Leave(0),
      Arrive(1, embed), Acquire(1), Lookup(1), TakeLease(1), SetPath(1),
      Arrive(0, rerank), Acquire(0), Lookup(0), Launch(0)])
  }

  lemma Advance(r: Run, k: nat)
    requires k < |r.steps| && Enabled(At(r, k), r.steps[k], r.rerankSeq)
    ensures At(r, k + 1) == Apply(At(r, k), r.steps[k], r.rerankSeq, k)
  {
  }

  lemma AbandonedSteps()
    ensures var r, e, q := AbandonedRun(), Slice(Embed, Shape(64, 256)), Slice(Rerank, Shape(0, 512));
            && r.n == 2 && r.rerankSeq == 512 && |r.steps| == 17
            && r.steps[0] == Arrive(0, q)
            && r.steps[1] == Acquire(0)
            && r.steps[2] == Lookup(0)
            && r.steps[3] == TakeLease(0)
            && r.steps[4] == SetPath(0)
            && r.steps[5] == Build(0)
            && r.steps[6] == Fail(0, false)
            && r.steps[7] == Leave(0)
            && r.steps[8] == Arrive(1, e)
            && r.steps[9] == Acquire(1)
            && r.steps[10] == Lookup(1)
            && r.steps[11] == TakeLease(1)
            && r.steps[12] == SetPath(1)
            && r.steps[13] == Arrive(0, q)
            && r.steps[14] == Acquire(0)
            && r.steps[15] == Lookup(0)
            && r.steps[16] == Launch(0)
  {
  }

  lemma AbandonedStart()
    ensures At(AbandonedRun(), 0) == State([Idle, Idle], None, false, map[], None, false, None, None, None)
  {
  }

  lemma RerankQueues()
    ensures var r, e, q := AbandonedRun(), Slice(Embed, Shape(64, 256)), Slice(Rerank, Shape(0, 512));
            && |r.steps| == 17
            && Enabled(At(r, 0), r.steps[0], 512)
            && Enabled(At(r, 1), r.steps[1], 512)
            && Enabled(At(r, 2), r.steps[2], 512)
            && At(r, 3) == State([WantsLease(q), Idle], None, false, map[], Some(0), false, None, None, None)
  {
    hide At, AbandonedRun;
    AbandonedSteps();
    AbandonedStart();
    var r := AbandonedRun();
    Advance(r, 0);
    Advance(r, 1);
    Advance(r, 2);
  }

  lemma RerankClaims()
    ensures var r, e, q := AbandonedRun(), Slice(Embed, Shape(64, 256)), Slice(Rerank, Shape(0, 512));
            && |r.steps| == 17
            && Enabled(At(r, 3), r.steps[3], 512)
            && Enabled(At(r, 4), r.steps[4], 512)
            && At(r, 5) == State([Leased(q), Idle], None, false, map[], Some(0), false, None, Some(0), Some(q))
  {
    hide At, AbandonedRun;
    AbandonedSteps();
    RerankQueues();
    var r := AbandonedRun();
    Advance(r, 3);
    Advance(r, 4);
  }

  lemma RerankGivesUp()
    ensures var r, e, q := AbandonedRun(), Slice(Embed, Shape(64, 256)), Slice(Rerank, Shape(0, 512));
            && |r.steps| == 17
            && Enabled(At(r, 5), r.steps[5], 512)
            && Enabled(At(r, 6), r.steps[6], 512)
            && Enabled(At(r, 7), r.steps[7], 512)
            && At(r, 8) == State([Idle, Idle], None, false, map[], None, false, Some(Session(false, 5)), None, Some(q))
  {
    hide At, AbandonedRun;
    AbandonedSteps();
    RerankClaims();
    var r := AbandonedRun();
    Advance(r, 5);
    Advance(r, 6);
    Advance(r, 7);
  }

  lemma EmbedQueues()
    ensures var r, e, q := AbandonedRun(), Slice(Embed, Shape(64, 256)), Slice(Rerank, Shape(0, 512));
            && |r.steps| == 17
            && Enabled(At(r, 8), r.steps[8], 512)
            && Enabled(At(r, 9), r.steps[9], 512)
            && Enabled(At(r, 10), r.steps[10], 512)
            && At(r, 11) == State([Idle, WantsLease(e)], Some(1), false, map[],
                                  None, false, Some(Session(false, 5)), None, Some(q))
  {
    hide At, AbandonedRun;
    AbandonedSteps();
    RerankGivesUp();
    var r := AbandonedRun();
    Advance(r, 8);
    Advance(r, 9);
    Advance(r, 10);
  }

  lemma EmbedClaimsThePath()
    ensures var r, e, q := AbandonedRun(), Slice(Embed, Shape(64, 256)), Slice(Rerank, Shape(0, 512));
            && |r.steps| == 17
            && Enabled(At(r, 11), r.steps[11], 512)
            && Enabled(At(r, 12), r.steps[12], 512)
            && At(r, 13) == State([Idle, Leased(e)], Some(1), false, map[],
                                  None, false, Some(Session(false, 5)), Some(1), Some(e))
  {
    hide At, AbandonedRun;
    AbandonedSteps();
    EmbedQueues();
    var r := AbandonedRun();
    Advance(r, 11);
    Advance(r, 12);
  }

  lemma RerankReturns()
    ensures var r, e, q := AbandonedRun(), Slice(Embed, Shape(64, 256)), Slice(Rerank, Shape(0, 512));
            && |r.steps| == 17
            && Enabled(At(r, 13), r.steps[13], 512)
            && Enabled(At(r, 14), r.steps[14], 512)
            && Enabled(At(r, 15), r.steps[15], 512)
            && At(r, 16) == State([Resident(q), Leased(e)], Some(1), false, map[],
                                  Some(0), false, Some(Session(false, 5)), Some(1), Some(e))
  {
    hide At, AbandonedRun;
    AbandonedSteps();
    EmbedClaimsThePath();
    var r := AbandonedRun();
    Advance(r, 13);
    Advance(r, 14);
    Advance(r, 15);
  }

  lemma RerankLaunches()
    ensures var r := AbandonedRun();
            && |r.steps| == 17 && Enabled(At(r, 16), r.steps[16], 512) && FirstLaunchAt(r, 16)
            && JobAt(r, 16) == Slice(Rerank, Shape(0, 512))
  {
    hide At, AbandonedRun;
    AbandonedSteps();
    RerankReturns();
  }

  lemma AbandonedBuildReadsAnotherSlice()
    ensures var r := AbandonedRun();
            && Legal(r) && FirstLaunchAt(r, 16)
            && JobAt(r, 16) == Slice(Rerank, Shape(0, 512))
            && At(r, 16).path == Some(Slice(Embed, Shape(64, 256)))
  {
    hide At, AbandonedRun, Enabled, FirstLaunchAt, JobAt;
    AbandonedSteps();
    RerankQueues();
    RerankClaims();
    RerankGivesUp();
    EmbedQueues();
    EmbedClaimsThePath();
    RerankReturns();
    RerankLaunches();
    EachEnabledIsLegal(AbandonedRun(), 17);
  }

  // ---------- no deadlock ----------

  /** How far a thread is from leaving. */
  function Rank(s: State, t: nat): nat
    requires t < |s.threads|
  {
    var p := s.threads[t];
    match p
    case Idle => 0
    case Leaving(_, _) => 1
    case Resident(_) => 2
    case Passing(job) => if Filed(s, job).Some? && Filed(s, job).value.launched then 3 else 4
    case Checking(_, session) => if session.launched then 5 else 6
    case Leased(_) => 7
    case Claiming(_) => 8
    case WantsLease(_) => 9
    case Holding(_) => 10
    case Wants(_) => 11
  }

  predicate Works(a: Action) {
    !a.Arrive? && !a.Refuse? && !a.Fail? && !a.Drain? && !a.DrainSome? && !a.Evict? && !a.Rebuild?
  }

  /** The step a thread takes next when nothing goes wrong. */
  function NextStep(s: State, t: nat): Action
    requires t < |s.threads|
  {
    match s.threads[t]
    case Idle => Refuse(t)
    case Wants(_) => Acquire(t)
    case Holding(_) => Lookup(t)
    case WantsLease(_) => TakeLease(t)
    case Claiming(_) => SetPath(t)
    case Leased(_) => Build(t)
    case Checking(_, session) => if session.launched then File(t) else Launch(t)
    case Passing(job) => if Filed(s, job).Some? && Filed(s, job).value.launched then DropLease(t) else Launch(t)
    case Resident(_) => Finish(t)
    case Leaving(_, _) => Leave(t)
  }

  lemma NextStepIsEnabled(s: State, t: nat, rerankSeq: nat)
    requires t < |s.threads| && !s.threads[t].Idle? && ThreadInv(s, t, rerankSeq)
    requires s.threads[t].Wants? ==> LockOf(s, s.threads[t].job.engine).None?
    requires s.threads[t].WantsLease? ==> s.lease.None?
    ensures Enabled(s, NextStep(s, t), rerankSeq) && Works(NextStep(s, t)) && NextStep(s, t).t == t
    ensures s.threads[t].Passing? ==> Filed(s, s.threads[t].job).Some?
  {
    hide ValidJob, LockOf, Filed;
  }

  lemma NextStepAdvances(s: State, t: nat, rerankSeq: nat, now: nat)
    requires t < |s.threads| && !s.threads[t].Idle?
    requires s.threads[t].Passing? ==> Filed(s, s.threads[t].job).Some?
    requires Enabled(s, NextStep(s, t), rerankSeq) && NextStep(s, t).t == t
    ensures t < |Apply(s, NextStep(s, t), rerankSeq, now).threads|
    ensures Rank(Apply(s, NextStep(s, t), rerankSeq, now), t) < Rank(s, t)
  {
    hide ValidJob;
  }

  /** In every reachable state with somebody inside, some thread can take a working step that brings it nearer
      to leaving: the engine mutexes and the lease never wait for each other in a cycle. */
  lemma NoDeadlock(r: Run, k: nat, t: nat) returns (u: nat)
    requires k <= |r.steps| && t < r.n && t < |At(r, k).threads| && !At(r, k).threads[t].Idle?
    ensures u < |At(r, k).threads| && Enabled(At(r, k), NextStep(At(r, k), u), r.rerankSeq)
    ensures Works(NextStep(At(r, k), u))
    ensures Rank(Apply(At(r, k), NextStep(At(r, k), u), r.rerankSeq, k), u) < Rank(At(r, k), u)
  {
    InvAt(r, k);
    var s := At(r, k);
    hide At, Apply, Rank, Works, NextStep, Enabled, Filed, ValidJob;
    u := t;
    assert ThreadInv(s, t, r.rerankSeq);
    if s.threads[u].Wants? && LockOf(s, s.threads[u].job.engine).Some? {
      u := LockOf(s, s.threads[u].job.engine).value;
      assert ThreadInv(s, u, r.rerankSeq);
    }
    if s.threads[u].WantsLease? && s.lease.Some? {
      u := s.lease.value;
      assert ThreadInv(s, u, r.rerankSeq);
    }
    NextStepIsEnabled(s, u, r.rerankSeq);
    NextStepAdvances(s, u, r.rerankSeq, k);
  }
}

/** The cache directory's text (src/compile_cache.rs): two slices never share a directory. */
module CacheSlug {
  import opened CacheLease
  import opened DecimalText

  function Slug(shape: Shape): string {
    if shape.batch == 0 then "s" + Decimal(shape.seqLen)
    else "b" + Decimal(shape.batch) + "s" + Decimal(shape.seqLen)
  }

  function EngineName(e: Engine): string {
    match e
    case Embed => "dual"
    case Rerank => "rerank"
  }

  function TrimSlashes(base: string): string {
    if base != [] && base[|base| - 1] == '/' then TrimSlashes(base[..|base| - 1]) else base
  }

  function EngineCacheDir(base: string, slice: Slice): string {
    TrimSlashes(base) + "/" + EngineName(slice.engine) + "-" + Slug(slice.shape)
  }

  lemma DecimalInjective(m: nat, n: nat)
    requires Decimal(m) == Decimal(n)
    ensures m == n
  {
    PaddedReadsBack(m, 1);
    PaddedReadsBack(n, 1);
  }

  /** A run of digits ends where the digits end, so `b<batch>s<seq>` splits one way only. */
  lemma DigitsThenS(a: string, b: string, x: string, y: string)
    requires AllDigits(a) && AllDigits(b) && a + "s" + x == b + "s" + y
    ensures a == b && x == y
  {
    FirstS(a, x);
    FirstS(b, y);
    assert a == (a + "s" + x)[..|a|] && b == (b + "s" + y)[..|b|];
    assert x == (a + "s" + x)[|a| + 1..] && y == (b + "s" + y)[|b| + 1..];
  }

  lemma FirstS(a: string, x: string)
    requires AllDigits(a)
    ensures (a + "s" + x)[|a|] == 's'
    ensures forall k | 0 <= k < |a| :: (a + "s" + x)[k] != 's'
  {
    forall k | 0 <= k < |a| ensures (a + "s" + x)[k] != 's' {
      assert (a + "s" + x)[k] == a[k] && a[k] in a;
    }
  }

  lemma SlugInjective(a: Shape, b: Shape)
    requires Slug(a) == Slug(b)
    ensures a == b
  {
    hide Decimal;
    assert a.batch == 0 <==> Slug(a)[0] == 's';
    assert b.batch == 0 <==> Slug(b)[0] == 's';
    if a.batch == 0 {
      SameHead("s", Decimal(a.seqLen), Decimal(b.seqLen));
    } else {
      PinnedSlug(a);
      PinnedSlug(b);
      SameHead("b", Decimal(a.batch) + "s" + Decimal(a.seqLen), Decimal(b.batch) + "s" + Decimal(b.seqLen));
      DecimalIsDigits(a.batch);
      DecimalIsDigits(b.batch);
      DigitsThenS(Decimal(a.batch), Decimal(b.batch), Decimal(a.seqLen), Decimal(b.seqLen));
      DecimalInjective(a.batch, b.batch);
    }
    DecimalInjective(a.seqLen, b.seqLen);
  }

  lemma PinnedSlug(a: Shape)
    requires a.batch > 0
    ensures Slug(a) == "b" + (Decimal(a.batch) + "s" + Decimal(a.seqLen))
  {
  }

  lemma DecimalIsDigits(n: nat)
    ensures AllDigits(Decimal(n))
  {
    PaddedReadsBack(n, 1);
  }

  lemma SameHead(head: string, x: string, y: string)
    requires head + x == head + y
    ensures x == y
  {
    assert x == (head + x)[|head|..] && y == (head + y)[|head|..];
  }

  lemma EngineNamesDiffer(a: Engine, b: Engine, x: string, y: string)
    requires EngineName(a) + "-" + x == EngineName(b) + "-" + y
    ensures a == b
  {
    assert (EngineName(a) + "-" + x)[0] == EngineName(a)[0] && (EngineName(b) + "-" + y)[0] == EngineName(b)[0];
  }

  lemma SpelledBatch()
    ensures Decimal(64) == "64"
  {
  }

  lemma SpelledLength()
    ensures Decimal(256) == "256"
  {
    assert Padded(25, 0) == "25";
  }

  lemma SpelledLongLength()
    ensures Decimal(1024) == "1024"
  {
    assert Padded(10, 0) == "10";
    assert Padded(102, 0) == "102";
  }

  lemma SlashIsTrimmed()
    ensures TrimSlashes("/cache") == "/cache" == TrimSlashes("/cache/")
  {
    assert "/cache/"[..6] == "/cache";
  }

  /** How the directories are spelled, with and without a pinned batch. */
  lemma DirectoriesAreSpelled()
    ensures EngineCacheDir("/cache/", Slice(Embed, Shape(64, 256))) == "/cache/dual-b64s256"
    ensures EngineCacheDir("/cache", Slice(Rerank, Shape(0, 1024))) == "/cache/rerank-s1024"
  {
    hide Decimal, TrimSlashes;
    SpelledBatch();
    SpelledLength();
    SpelledLongLength();
    SlashIsTrimmed();
  }

  /** A cache hit means "my program, at my shape": the directory text determines engine, batch and length. */
  lemma NoTwoSlicesShareADirectory(base: string, a: Slice, b: Slice)
    ensures EngineCacheDir(base, a) == EngineCacheDir(base, b) <==> a == b
  {
    hide TrimSlashes, EngineName, Slug;
    if EngineCacheDir(base, a) == EngineCacheDir(base, b) {
      var head := TrimSlashes(base) + "/";
      var x := EngineName(a.engine) + "-" + Slug(a.shape);
      var y := EngineName(b.engine) + "-" + Slug(b.shape);
      assert EngineCacheDir(base, a) == head + x && EngineCacheDir(base, b) == head + y;
      SameHead(head, x, y);
      EngineNamesDiffer(a.engine, b.engine, Slug(a.shape), Slug(b.shape));
      SameHead(EngineName(a.engine) + "-", Slug(a.shape), Slug(b.shape));
      SlugInjective(a.shape, b.shape);
    }
  }
}
