/** Concurrent build accounting (src/vram.rs, bracketed by src/provider.rs): any number of threads build
    sessions at once, two process-wide atomics decide whether a memory delta belongs to one build.
    Every atomic access is one step; the steps of all threads interleave freely. */
module BuildWindows {
  import opened Wrappers

  /** Where an AtomicU64 wraps. */
  const TWO64: nat := 0x1_0000_0000_0000_0000

  datatype Attribution = Measured(bytes: nat) | Overlapped | NotSampled | NoGrowth

  function Attribute(aloneAtStart: bool, marksAtStart: nat, marksAtEnd: nat,
                     before: Option<nat>, after: Option<nat>): Attribution
  {
    if before.None? || after.None? then NotSampled
    else if !aloneAtStart || marksAtStart != marksAtEnd then Overlapped
    else if after.value > before.value then Measured(after.value - before.value)
    else NoGrowth
  }

  // ---------- the machine ----------

  /** One build's window, with the step numbers at which it was sampled, marked and counted in. */
  datatype Window = Window(before: Option<nat>, sampledAt: nat,
                           marksAtStart: nat, bumpsAtMark: nat, markedAt: nat,
                           alone: bool, countedAt: nat)

  /** Where one thread stands between taking its first sample and dropping its window. */
  datatype Pc =
    | Idle
    | Sampled(before: Option<nat>, sampledAt: nat)
    | Marked(before: Option<nat>, sampledAt: nat, marks: nat, bumps: nat, markedAt: nat)
    | Owing(w: Window)                                    // counted in, mark not bumped yet
    | Building(w: Window)
    | SampledAfter(w: Window, after: Option<nat>, afterAt: nat)
    | Closed(w: Window, after: Option<nat>, afterAt: nat, verdict: Attribution, closedAt: nat)

  /** `bumps` counts every increment of the overlap mark; the 64-bit counter itself is `Marks`. */
  datatype State = State(threads: seq<Pc>, inFlight: int, bumps: nat, usage: nat)

  datatype Action =
    | SampleBefore(t: nat, visible: bool)
    | ReadMark(t: nat)
    | CountIn(t: nat)
    | BumpMark(t: nat)
    | Allocate(t: nat, delta: int)      // this thread's build grows or shrinks the process's usage
    | SampleAfter(t: nat, visible: bool)
    | Close(t: nat)
    | Unwind(t: nat)                    // the build panics: only the window's Drop runs
    | DropWindow(t: nat)
    | Foreign(delta: int)               // a pass or a teardown moves the usage outside any build

  function Marks(s: State): nat { s.bumps % TWO64 }

  predicate Live(p: Pc) {
    p.Owing? || p.Building? || p.SampledAfter? || p.Closed?
  }

  function LiveCount(threads: seq<Pc>): nat {
    if threads == [] then 0
    else LiveCount(threads[..|threads| - 1]) + (if Live(threads[|threads| - 1]) then 1 else 0)
  }

  function Sample(s: State, visible: bool): Option<nat> {
    if visible then Some(s.usage) else None
  }

  predicate Enabled(s: State, a: Action) {
    match a
    case Foreign(delta) => s.usage + delta >= 0
    case SampleBefore(t, _) => t < |s.threads| && s.threads[t].Idle?
    case ReadMark(t) => t < |s.threads| && s.threads[t].Sampled?
    case CountIn(t) => t < |s.threads| && s.threads[t].Marked?
    case BumpMark(t) => t < |s.threads| && s.threads[t].Owing?
    case Allocate(t, delta) => t < |s.threads| && s.threads[t].Building? && s.usage + delta >= 0
    case SampleAfter(t, _) => t < |s.threads| && s.threads[t].Building?
    case Close(t) => t < |s.threads| && s.threads[t].SampledAfter?
    case Unwind(t) => t < |s.threads| && s.threads[t].Building?
    case DropWindow(t) => t < |s.threads| && s.threads[t].Closed?
  }

  /** One step, taken as step number `now`. */
  function Apply(s: State, a: Action, now: nat): State
    requires Enabled(s, a)
  {
    match a
    case Foreign(delta) => s.(usage := s.usage + delta)
    case SampleBefore(t, visible) =>
      s.(threads := s.threads[t := Sampled(Sample(s, visible), now)])
    case ReadMark(t) =>
      var p := s.threads[t];
      s.(threads := s.threads[t := Marked(p.before, p.sampledAt, Marks(s), s.bumps, now)])
    case CountIn(t) =>
      var p := s.threads[t];
      var alone := s.inFlight == 0;
      var w := Window(p.before, p.sampledAt, p.marks, p.bumps, p.markedAt, alone, now);
      s.(inFlight := s.inFlight + 1, threads := s.threads[t := if alone then Building(w) else Owing(w)])
    case BumpMark(t) =>
      s.(bumps := s.bumps + 1, threads := s.threads[t := Building(s.threads[t].w)])
    case Allocate(_, delta) => s.(usage := s.usage + delta)
    case SampleAfter(t, visible) =>
      s.(threads := s.threads[t := SampledAfter(s.threads[t].w, Sample(s, visible), now)])
    case Close(t) =>
      var p := s.threads[t];
      var verdict := Attribute(p.w.alone, p.w.marksAtStart, Marks(s), p.w.before, p.after);
      s.(threads := s.threads[t := Closed(p.w, p.after, p.afterAt, verdict, now)])
    case Unwind(t) => s.(inFlight := s.inFlight - 1, threads := s.threads[t := Idle])
    case DropWindow(t) => s.(inFlight := s.inFlight - 1, threads := s.threads[t := Idle])
  }

  function Init(n: nat, usage: nat): State {
    State(seq(n, _ => Idle), 0, 0, usage)
  }

  // ---------- runs ----------

  datatype Run = Run(n: nat, usage: nat, steps: seq<Action>)

  /** The state after the first `k` steps. */
  ghost function At(r: Run, k: nat): State
    requires k <= |r.steps|
  {
    if k == 0 then Init(r.n, r.usage)
    else
      var s := At(r, k - 1);
      if Enabled(s, r.steps[k - 1]) then Apply(s, r.steps[k - 1], k - 1) else s
  }

  /** The first `k` steps were each enabled when they were taken. */
  ghost predicate LegalUpTo(r: Run, k: nat)
    requires k <= |r.steps|
  {
    k == 0 || (LegalUpTo(r, k - 1) && Enabled(At(r, k - 1), r.steps[k - 1]))
  }

  ghost predicate Legal(r: Run) {
    LegalUpTo(r, |r.steps|)
  }

  /** The thread's program counter after `k` steps; thread numbers outside the machine are idle. */
  ghost function PcAt(r: Run, k: nat, t: nat): Pc
    requires k <= |r.steps|
  {
    if t < |At(r, k).threads| then At(r, k).threads[t] else Idle
  }

  lemma {:induction false} EnabledWhenTaken(r: Run, k: nat, n: nat)
    requires k < n <= |r.steps| && LegalUpTo(r, n)
    ensures Enabled(At(r, k), r.steps[k])
  {
    hide At, Enabled;
    if k < n - 1 {
      EnabledWhenTaken(r, k, n - 1);
    }
  }

  lemma {:induction false} EachEnabledIsLegal(r: Run, n: nat)
    requires n <= |r.steps| && forall k | 0 <= k < n :: Enabled(At(r, k), r.steps[k])
    ensures LegalUpTo(r, n)
  {
    hide At, Enabled;
    if n > 0 {
      EachEnabledIsLegal(r, n - 1);
    }
  }

  // ---------- counting live windows ----------

  lemma {:induction false} CountAfterUpdate(threads: seq<Pc>, t: nat, p: Pc)
    requires t < |threads|
    ensures LiveCount(threads[t := p])
            == LiveCount(threads) + (if Live(p) then 1 else 0) - (if Live(threads[t]) then 1 else 0)
  {
    var last := |threads| - 1;
    if t == last {
      assert threads[t := p][..last] == threads[..last];
    } else {
      assert threads[t := p][..last] == threads[..last][t := p];
      CountAfterUpdate(threads[..last], t, p);
    }
  }

  lemma {:induction false} CountOfIdle(n: nat)
    ensures LiveCount(seq(n, _ => Idle)) == 0
  {
    if n > 0 {
      assert seq<Pc>(n, _ => Idle)[..n - 1] == seq(n - 1, _ => Idle);
      CountOfIdle(n - 1);
    }
  }

  lemma {:induction false} SomebodyIsLive(threads: seq<Pc>) returns (u: nat)
    requires LiveCount(threads) > 0
    ensures u < |threads| && Live(threads[u])
  {
    if Live(threads[|threads| - 1]) {
      u := |threads| - 1;
    } else {
      u := SomebodyIsLive(threads[..|threads| - 1]);
    }
  }

  lemma {:induction false} LiveCounts(threads: seq<Pc>, u: nat)
    requires u < |threads| && Live(threads[u])
    ensures LiveCount(threads) > 0
  {
    if u < |threads| - 1 {
      LiveCounts(threads[..|threads| - 1], u);
    }
  }

  // ---------- what every state keeps ----------

  predicate Constructed(p: Pc) {
    p.Building? || p.SampledAfter? || p.Closed?
  }

  /** A window opened alone is outrun by every other window that has been constructed beside it. */
  ghost predicate OutrunBy(s: State, t: nat, u: nat)
    requires t < |s.threads| && u < |s.threads|
  {
    t != u && Live(s.threads[t]) && s.threads[t].w.alone && Constructed(s.threads[u])
    ==> s.bumps > s.threads[t].w.bumpsAtMark
  }

  ghost predicate ThreadInv(s: State, p: Pc, now: nat) {
    match p
    case Idle => true
    case Sampled(_, at) => at < now
    case Marked(_, at, marks, bumps, markedAt) =>
      at < markedAt < now && bumps <= s.bumps && marks == bumps % TWO64
    case Owing(w) => WindowInv(s, w, now) && !w.alone
    case Building(w) => WindowInv(s, w, now)
    case SampledAfter(w, _, afterAt) => WindowInv(s, w, now) && w.countedAt < afterAt < now
    case Closed(w, _, afterAt, _, closedAt) => WindowInv(s, w, now) && w.countedAt < afterAt < closedAt < now
  }

  ghost predicate WindowInv(s: State, w: Window, now: nat) {
    && w.sampledAt < w.markedAt < w.countedAt < now
    && w.bumpsAtMark <= s.bumps
    && w.marksAtStart == w.bumpsAtMark % TWO64
  }

  ghost predicate Inv(s: State, now: nat) {
    && s.inFlight == LiveCount(s.threads)
    && s.bumps <= now
    && (forall t | 0 <= t < |s.threads| :: ThreadInv(s, s.threads[t], now))
    && (forall t, u | 0 <= t < |s.threads| && 0 <= u < |s.threads| :: OutrunBy(s, t, u))
  }

  lemma StepKeepsCount(s: State, a: Action, now: nat)
    requires s.inFlight == LiveCount(s.threads) && Enabled(s, a)
    ensures Apply(s, a, now).inFlight == LiveCount(Apply(s, a, now).threads)
  {
    var s' := Apply(s, a, now);
    if !a.Foreign? && !a.Allocate? {
      CountAfterUpdate(s.threads, a.t, s'.threads[a.t]);
    }
  }

  lemma StepKeepsThread(s: State, a: Action, now: nat, t: nat)
    requires Enabled(s, a) && t < |s.threads| && ThreadInv(s, s.threads[t], now)
    ensures ThreadInv(Apply(s, a, now), Apply(s, a, now).threads[t], now + 1)
  {
  }

  lemma StepKeepsPair(s: State, a: Action, now: nat, t: nat, u: nat)
    requires Enabled(s, a) && t < |s.threads| && u < |s.threads|
    requires OutrunBy(s, t, u) && ThreadInv(s, s.threads[t], now) && s.inFlight == LiveCount(s.threads)
    ensures OutrunBy(Apply(s, a, now), t, u)
  {
    if a.CountIn? && t != u {
      // whoever counts in beside a live window reads a non-zero counter, so it is not alone
      if a.t == t && Live(s.threads[u]) {
        LiveCounts(s.threads, u);
      } else if a.t == u && Live(s.threads[t]) {
        LiveCounts(s.threads, t);
      }
    }
  }

  lemma StepKeepsInv(s: State, a: Action, now: nat)
    requires Inv(s, now) && Enabled(s, a)
    ensures Inv(Apply(s, a, now), now + 1)
  {
    var s' := Apply(s, a, now);
    StepKeepsCount(s, a, now);
    forall t | 0 <= t < |s'.threads| ensures ThreadInv(s', s'.threads[t], now + 1) {
      StepKeepsThread(s, a, now, t);
    }
    forall t, u | 0 <= t < |s'.threads| && 0 <= u < |s'.threads| ensures OutrunBy(s', t, u) {
      StepKeepsPair(s, a, now, t, u);
    }
  }

  lemma InvAtStart(r: Run)
    ensures Inv(At(r, 0), 0) && |At(r, 0).threads| == r.n
  {
    CountOfIdle(r.n);
  }

  lemma InvStep(r: Run, k: nat)
    requires k < |r.steps| && Inv(At(r, k), k)
    ensures Inv(At(r, k + 1), k + 1) && |At(r, k + 1).threads| == |At(r, k).threads|
  {
    if Enabled(At(r, k), r.steps[k]) {
      StepKeepsInv(At(r, k), r.steps[k], k);
    } else {
      LaterInv(At(r, k), k);
    }
    hide Inv;
  }

  lemma {:induction false} InvAt(r: Run, k: nat)
    requires k <= |r.steps|
    ensures Inv(At(r, k), k) && |At(r, k).threads| == r.n
  {
    hide At, Inv;
    if k == 0 {
      InvAtStart(r);
    } else {
      InvAt(r, k - 1);
      InvStep(r, k - 1);
    }
  }

  lemma LaterInv(s: State, now: nat)
    requires Inv(s, now)
    ensures Inv(s, now + 1)
  {
    forall t | 0 <= t < |s.threads| ensures ThreadInv(s, s.threads[t], now + 1) {
      assert ThreadInv(s, s.threads[t], now);
    }
  }

  /** In every reachable state the in-flight counter is the number of live windows. */
  lemma InFlightIsTheNumberOfLiveWindows(r: Run, k: nat)
    requires k <= |r.steps|
    ensures At(r, k).inFlight == LiveCount(At(r, k).threads)
  {
    InvAt(r, k);
  }

  // ---------- what a program counter says about the past ----------

  ghost predicate SampledThere(r: Run, t: nat, value: Option<nat>, at: nat)
    requires at < |r.steps|
  {
    r.steps[at].SampleBefore? && r.steps[at].t == t && value == Sample(At(r, at), r.steps[at].visible)
  }

  /** Between its first sample and counting in, a thread owns no window. */
  ghost predicate QuietBetween(r: Run, t: nat, i: nat, k: nat)
    requires k <= |r.steps|
  {
    forall j | i < j <= k :: !Live(PcAt(r, j, t))
  }

  ghost predicate WindowPast(r: Run, k: nat, t: nat, w: Window)
    requires k <= |r.steps|
  {
    && w.sampledAt < w.markedAt < w.countedAt < k
    && SampledThere(r, t, w.before, w.sampledAt)
    && r.steps[w.markedAt] == ReadMark(t) && At(r, w.markedAt).bumps == w.bumpsAtMark
    && r.steps[w.countedAt] == CountIn(t) && w.alone == (At(r, w.countedAt).inFlight == 0)
    && QuietBetween(r, t, w.sampledAt, w.countedAt)
    && forall j | w.countedAt < j <= k :: Live(PcAt(r, j, t)) && PcAt(r, j, t).w == w
  }

  ghost predicate AfterPast(r: Run, k: nat, t: nat, after: Option<nat>, afterAt: nat)
    requires k <= |r.steps|
  {
    afterAt < k && r.steps[afterAt].SampleAfter? && r.steps[afterAt].t == t
    && after == Sample(At(r, afterAt), r.steps[afterAt].visible)
  }

  ghost predicate Past(r: Run, k: nat, t: nat)
    requires k <= |r.steps|
  {
    match PcAt(r, k, t)
    case Idle => true
    case Sampled(before, at) => at < k && SampledThere(r, t, before, at) && QuietBetween(r, t, at, k)
    case Marked(before, at, _, bumps, markedAt) =>
      && at < markedAt < k && SampledThere(r, t, before, at) && QuietBetween(r, t, at, k)
      && r.steps[markedAt] == ReadMark(t) && At(r, markedAt).bumps == bumps
    case Owing(w) => WindowPast(r, k, t, w)
    case Building(w) => WindowPast(r, k, t, w)
    case SampledAfter(w, after, afterAt) => WindowPast(r, k, t, w) && AfterPast(r, k, t, after, afterAt)
    case Closed(w, after, afterAt, verdict, closedAt) =>
      && WindowPast(r, k, t, w) && AfterPast(r, k, t, after, afterAt)
      && w.countedAt < afterAt < closedAt < k && r.steps[closedAt] == Close(t)
      && verdict == Attribute(w.alone, w.marksAtStart, Marks(At(r, closedAt)), w.before, after)
  }

  /** The thread did not move: what was true of its past stays true. */
  lemma PastStays(r: Run, k: nat, t: nat)
    requires k < |r.steps| && Past(r, k, t) && PcAt(r, k + 1, t) == PcAt(r, k, t)
    ensures Past(r, k + 1, t)
  {
    hide At, PcAt, Attribute, Sample, Marks;
  }

  lemma StepOfThread(r: Run, k: nat, t: nat)
    requires k < |r.steps|
    ensures var a, p := r.steps[k], PcAt(r, k, t);
            PcAt(r, k + 1, t)
            == if !Enabled(At(r, k), a) || a.Foreign? || a.t != t then p
               else match a
                 case SampleBefore(_, visible) => Sampled(Sample(At(r, k), visible), k)
                 case ReadMark(_) => Marked(p.before, p.sampledAt, Marks(At(r, k)), At(r, k).bumps, k)
                 case CountIn(_) =>
                   var alone := At(r, k).inFlight == 0;
                   var w := Window(p.before, p.sampledAt, p.marks, p.bumps, p.markedAt, alone, k);
                   if alone then Building(w) else Owing(w)
                 case BumpMark(_) => Building(p.w)
                 case Allocate(_, _) => p
                 case SampleAfter(_, visible) => SampledAfter(p.w, Sample(At(r, k), visible), k)
                 case Close(_) =>
                   Closed(p.w, p.after, p.afterAt,
                          Attribute(p.w.alone, p.w.marksAtStart, Marks(At(r, k)), p.w.before, p.after), k)
                 case _ => Idle
    ensures Enabled(At(r, k), r.steps[k]) && !r.steps[k].Foreign? ==> r.steps[k].t < |At(r, k).threads|
  {
  }

  lemma {:induction false} PastAt(r: Run, k: nat, t: nat)
    requires k <= |r.steps|
    ensures Past(r, k, t)
  {
    if k > 0 {
      PastAt(r, k - 1, t);
      StepOfThread(r, k - 1, t);
      InvAt(r, k - 1);
      if PcAt(r, k, t) == PcAt(r, k - 1, t) {
        PastStays(r, k - 1, t);
      } else {
        PastMoves(r, k - 1, t);
      }
    }
  }

  /** The thread took the last step: each transition hands its past on and adds the step just taken. */
  lemma PastMoves(r: Run, k: nat, t: nat)
    requires k < |r.steps| && Past(r, k, t) && Inv(At(r, k), k)
    requires Enabled(At(r, k), r.steps[k]) && !r.steps[k].Foreign? && r.steps[k].t == t
    ensures Past(r, k + 1, t)
  {
    StepOfThread(r, k, t);
    assert PcAt(r, k, t) == At(r, k).threads[t];
    assert ThreadInv(At(r, k), PcAt(r, k, t), k);
    hide At, PcAt, Attribute, Sample, Marks, Inv, ThreadInv;
  }

  lemma {:induction false} BumpsOnlyGrow(r: Run, i: nat, k: nat)
    requires i <= k <= |r.steps|
    ensures At(r, i).bumps <= At(r, k).bumps
    ensures At(r, i).bumps < At(r, k).bumps ==>
              exists j | i <= j < k :: r.steps[j].BumpMark? && Enabled(At(r, j), r.steps[j])
  {
    if i < k {
      BumpsOnlyGrow(r, i, k - 1);
    }
  }

  // ---------- main results ----------

  predicate Attributed(p: Pc) {
    p.Closed? && (p.verdict.Measured? || p.verdict.NoGrowth?)
  }

  ghost predicate NobodyElse(r: Run, j: nat, t: nat)
    requires j <= |r.steps|
  {
    forall u | u != t :: !Live(PcAt(r, j, u))
  }

  ghost predicate MarkUntouched(r: Run, i: nat, k: nat)
    requires i <= k <= |r.steps|
  {
    forall j | i <= j < k :: !r.steps[j].BumpMark?
  }

  /** A sampled window is attributed if and only if no other window was live at its count-in and nobody bumped the
      mark between its own read of the mark and its close. The hypothesis on the run's length keeps the 64-bit mark
      from coming all the way round. */
  lemma AttributedIff(r: Run, k: nat, t: nat)
    requires Legal(r) && k <= |r.steps| < TWO64
    requires PcAt(r, k, t).Closed? && PcAt(r, k, t).w.before.Some? && PcAt(r, k, t).after.Some?
    ensures var p := PcAt(r, k, t);
            && p.w.markedAt < p.w.countedAt < p.closedAt < k
            && (Attributed(p) <==>
                NobodyElse(r, p.w.countedAt, t) && MarkUntouched(r, p.w.markedAt, p.closedAt))
  {
    hide At, Legal, PcAt, NobodyElse, MarkUntouched;
    var p := PcAt(r, k, t);
    PastAt(r, k, t);
    AloneIff(r, k, t);
    WindowMarks(r, k, t);
    MarkUntouchedIff(r, p.w.markedAt, p.closedAt);
  }

  /** The four verdicts, each exactly under its condition: a sample is missing; both are there and the window was
      overlapped; both are there, it was attributed, and the usage grew by the figure, or did not grow. */
  lemma VerdictIff(r: Run, k: nat, t: nat)
    requires Legal(r) && k <= |r.steps| < TWO64 && PcAt(r, k, t).Closed?
    ensures var p := PcAt(r, k, t);
            && p.w.markedAt < p.w.countedAt < p.closedAt < k
            && var sampled := p.w.before.Some? && p.after.Some?;
               var undisturbed := NobodyElse(r, p.w.countedAt, t) && MarkUntouched(r, p.w.markedAt, p.closedAt);
               && (p.verdict == NotSampled <==> !sampled)
               && (p.verdict == Overlapped <==> sampled && !undisturbed)
               && (p.verdict == NoGrowth <==> sampled && undisturbed && p.after.value <= p.w.before.value)
               && (forall bytes: nat :: p.verdict == Measured(bytes) <==>
                     sampled && undisturbed && bytes > 0 && p.after.value == p.w.before.value + bytes)
  {
    hide At, Legal, PcAt, NobodyElse, MarkUntouched;
    var p := PcAt(r, k, t);
    VerdictOf(r, k, t);
    PastAt(r, k, t);
    if p.w.before.Some? && p.after.Some? {
      AttributedIff(r, k, t);
    }
  }

  /** The counter read at the count-in says whether another window was live then. */
  lemma AloneIff(r: Run, k: nat, t: nat)
    requires Legal(r) && k <= |r.steps| && PcAt(r, k, t).Closed?
    ensures PcAt(r, k, t).w.countedAt < |r.steps|
    ensures PcAt(r, k, t).w.alone <==> NobodyElse(r, PcAt(r, k, t).w.countedAt, t)
  {
    PastAt(r, k, t);
    var c := PcAt(r, k, t).w.countedAt;
    InvAt(r, c);
    assert !Live(PcAt(r, c, t));
    hide At, Inv;
    if LiveCount(At(r, c).threads) > 0 {
      var u := SomebodyIsLive(At(r, c).threads);
      assert Live(PcAt(r, c, u));
    } else if u :| u != t && Live(PcAt(r, c, u)) {
      LiveCounts(At(r, c).threads, u);
    }
  }

  /** The two readings of the mark agree exactly when nobody bumped it in between. */
  lemma MarkUntouchedIff(r: Run, i: nat, k: nat)
    requires Legal(r) && i <= k <= |r.steps| < TWO64
    ensures At(r, i).bumps % TWO64 == Marks(At(r, k)) <==> MarkUntouched(r, i, k)
  {
    hide At, Inv;
    BumpsOnlyGrow(r, i, k);
    InvBumps(r, k);
    if !MarkUntouched(r, i, k) {
      var j :| i <= j < k && r.steps[j].BumpMark?;
      BumpCounts(r, j);
      BumpsOnlyGrow(r, i, j);
      BumpsOnlyGrow(r, j + 1, k);
      MarksTellApart(At(r, i).bumps, At(r, k).bumps);
    }
  }

  lemma InvBumps(r: Run, k: nat)
    requires k <= |r.steps|
    ensures At(r, k).bumps <= k
  {
    InvAt(r, k);
  }

  lemma BumpCounts(r: Run, j: nat)
    requires Legal(r) && j < |r.steps| && r.steps[j].BumpMark?
    ensures At(r, j).bumps < At(r, j + 1).bumps
  {
    EnabledWhenTaken(r, j, |r.steps|);
  }

  /** Whoever is live beside an attributed window is counted in and has not bumped the mark, then and still at the
      close. */
  lemma CompanyStillOwes(r: Run, k: nat, t: nat, j: nat, u: nat)
    requires Legal(r) && k <= |r.steps| < TWO64 && Attributed(PcAt(r, k, t))
    requires PcAt(r, k, t).w.countedAt <= j <= PcAt(r, k, t).closedAt && j <= |r.steps|
    requires u != t && Live(PcAt(r, j, u))
    ensures PcAt(r, k, t).closedAt < |r.steps|
    ensures PcAt(r, j, u).Owing? && PcAt(r, PcAt(r, k, t).closedAt, u) == PcAt(r, j, u)
  {
    hide At, Legal, PcAt, NobodyElse, MarkUntouched;
    var p := PcAt(r, k, t);
    PastAt(r, k, t);
    AttributedIff(r, k, t);
    NotAtTheCountIn(r, p.w.countedAt, j, t, u);
    MarkUntouchedIff(r, p.w.markedAt, p.closedAt);
    BumpsOnlyGrow(r, p.w.markedAt, j);
    BumpsOnlyGrow(r, j, p.closedAt);
    UntouchedCounts(r, p.w.markedAt, p.closedAt);
    NotConstructedBeside(r, j, t, u);
    StaysOwing(r, p.w.markedAt, j, p.closedAt, u);
  }

  lemma NotAtTheCountIn(r: Run, c: nat, j: nat, t: nat, u: nat)
    requires c <= |r.steps| && NobodyElse(r, c, t) && j <= |r.steps| && u != t && Live(PcAt(r, j, u))
    ensures j != c
  {
    hide PcAt;
  }

  lemma UntouchedCounts(r: Run, i: nat, k: nat)
    requires Legal(r) && i <= k <= |r.steps| && MarkUntouched(r, i, k)
    ensures At(r, i).bumps == At(r, k).bumps
  {
    hide At, Legal;
    BumpsOnlyGrow(r, i, k);
  }

  lemma NotConstructedBeside(r: Run, j: nat, t: nat, u: nat)
    requires j <= |r.steps| && t != u && Live(PcAt(r, j, t)) && Live(PcAt(r, j, u))
    requires PcAt(r, j, t).w.alone && At(r, j).bumps <= PcAt(r, j, t).w.bumpsAtMark
    ensures PcAt(r, j, u).Owing?
  {
    InvAt(r, j);
    assert OutrunBy(At(r, j), t, u);
  }

  /** Only a bump pays the debt: a window that owes its bump does nothing else. */
  lemma {:induction false} StaysOwing(r: Run, i: nat, j: nat, k: nat, u: nat)
    requires Legal(r) && i <= j <= k <= |r.steps| && MarkUntouched(r, i, k) && PcAt(r, j, u).Owing?
    ensures PcAt(r, k, u) == PcAt(r, j, u)
  {
    hide At, Legal, PcAt;
    if j < k {
      StaysOwing(r, i, j, k - 1, u);
      OwingStep(r, k - 1, u);
    }
  }

  lemma OwingStep(r: Run, k: nat, u: nat)
    requires Legal(r) && k < |r.steps| && PcAt(r, k, u).Owing? && !r.steps[k].BumpMark?
    ensures PcAt(r, k + 1, u) == PcAt(r, k, u)
  {
    StepOfThread(r, k, u);
    EnabledWhenTaken(r, k, |r.steps|);
    hide At;
  }

  /** A verdict that publishes or reports no growth comes from a window alone from its count-in to its close if and
      only if at the close nobody else is counted in and yet to bump the mark. */
  lemma AttributedBuildWasAloneIff(r: Run, k: nat, t: nat)
    requires Legal(r) && k <= |r.steps| < TWO64 && Attributed(PcAt(r, k, t))
    ensures var p := PcAt(r, k, t);
            && p.w.countedAt < p.closedAt < k
            && ((forall j | p.w.countedAt <= j <= p.closedAt :: NobodyElse(r, j, t))
                <==> forall u | u != t :: !PcAt(r, p.closedAt, u).Owing?)
  {
    hide At, Legal, PcAt;
    var p := PcAt(r, k, t);
    VerdictOf(r, k, t);
    AttributedIff(r, k, t);
    if forall u | u != t :: !PcAt(r, p.closedAt, u).Owing? {
      forall j, u | p.w.countedAt <= j <= p.closedAt && u != t ensures !Live(PcAt(r, j, u)) {
        if Live(PcAt(r, j, u)) {
          CompanyStillOwes(r, k, t, j, u);
          assert false;
        }
      }
    } else {
      assert !NobodyElse(r, p.closedAt, t);
    }
  }

  /** In any case an attributed build was the only one allocating between its count-in and its close. */
  lemma AttributedBuildAllocatedAlone(r: Run, k: nat, t: nat, j: nat)
    requires Legal(r) && k <= |r.steps| < TWO64 && Attributed(PcAt(r, k, t))
    requires PcAt(r, k, t).w.countedAt <= j <= PcAt(r, k, t).closedAt && j < |r.steps| && r.steps[j].Allocate?
    ensures r.steps[j].t == t
  {
    hide At, Legal, PcAt;
    AllocatorIsBuilding(r, j);
    if r.steps[j].t != t {
      CompanyStillOwes(r, k, t, j, r.steps[j].t);
      assert false;
    }
  }

  lemma AllocatorIsBuilding(r: Run, j: nat)
    requires Legal(r) && j < |r.steps| && r.steps[j].Allocate?
    ensures r.steps[j].t < |At(r, j).threads| && PcAt(r, j, r.steps[j].t).Building?
  {
    EnabledWhenTaken(r, j, |r.steps|);
  }

  lemma WindowMarks(r: Run, k: nat, t: nat)
    requires k <= |r.steps| && PcAt(r, k, t).Closed?
    ensures PcAt(r, k, t).w.marksAtStart == PcAt(r, k, t).w.bumpsAtMark % TWO64
  {
    InvAt(r, k);
    assert ThreadInv(At(r, k), At(r, k).threads[t], k);
  }

  /** Fewer than 2^64 increments never bring the counter back to the same value. */
  lemma MarksTellApart(a: nat, b: nat)
    requires a < b < TWO64
    ensures a % TWO64 != b % TWO64
  {
  }

  /** `Overlapped` is never a false alarm: another window was live at some moment between this build's read of
      the mark and its close. */
  lemma OverlappedMeansCompany(r: Run, k: nat, t: nat) returns (j: nat, u: nat)
    requires Legal(r) && k <= |r.steps|
    requires PcAt(r, k, t).Closed? && PcAt(r, k, t).verdict.Overlapped?
    ensures PcAt(r, k, t).w.markedAt <= j <= PcAt(r, k, t).closedAt && j <= |r.steps|
    ensures u != t && Live(PcAt(r, j, u))
  {
    hide At, Legal;
    var p := PcAt(r, k, t);
    var w := p.w;
    PastAt(r, k, t);
    if !w.alone {
      j := w.countedAt;
      InvAt(r, j);
      u := SomebodyIsLive(At(r, j).threads);
      assert !Live(PcAt(r, j, t));
    } else {
      WindowMarks(r, k, t);
      BumpsOnlyGrow(r, w.markedAt, p.closedAt);
      j :| w.markedAt <= j < p.closedAt && r.steps[j].BumpMark? && Enabled(At(r, j), r.steps[j]);
      u := r.steps[j].t;
      BumperJoinedLate(r, j, u);
    }
  }

  lemma BumperJoinedLate(r: Run, j: nat, u: nat)
    requires j < |r.steps| && r.steps[j] == BumpMark(u) && Enabled(At(r, j), r.steps[j])
    ensures PcAt(r, j, u).Owing? && !PcAt(r, j, u).w.alone
  {
    InvAt(r, j);
    assert ThreadInv(At(r, j), At(r, j).threads[u], j);
  }

  // ---------- where the bytes came from ----------

  datatype Mover = Own(t: nat) | Others(t: nat) | Outside

  function Delta(a: Action): int {
    if a.Allocate? || a.Foreign? then a.delta else 0
  }

  predicate Moves(a: Action, m: Mover) {
    match m
    case Own(t) => a.Allocate? && a.t == t
    case Others(t) => a.Allocate? && a.t != t
    case Outside => a.Foreign?
  }

  /** The bytes the steps `i..k` of one mover added to the process's usage. */
  function Moved(r: Run, m: Mover, i: nat, k: nat): int
    requires i <= k <= |r.steps|
    decreases k
  {
    if i == k then 0
    else Moved(r, m, i, k - 1) + (if Moves(r.steps[k - 1], m) then Delta(r.steps[k - 1]) else 0)
  }

  lemma StepMovesUsage(r: Run, k: nat)
    requires Legal(r) && k < |r.steps|
    ensures At(r, k + 1).usage == At(r, k).usage + Delta(r.steps[k])
  {
    EnabledWhenTaken(r, k, |r.steps|);
  }

  lemma {:induction false} UsageIsWhatMoved(r: Run, t: nat, i: nat, k: nat)
    requires Legal(r) && i <= k <= |r.steps|
    ensures At(r, k).usage - At(r, i).usage
            == Moved(r, Own(t), i, k) + Moved(r, Others(t), i, k) + Moved(r, Outside, i, k)
  {
    hide At, Legal;
    if i < k {
      UsageIsWhatMoved(r, t, i, k - 1);
      StepMovesUsage(r, k - 1);
    }
  }

  lemma {:induction false} MovedSplits(r: Run, m: Mover, i: nat, j: nat, k: nat)
    requires i <= j <= k <= |r.steps|
    ensures Moved(r, m, i, k) == Moved(r, m, i, j) + Moved(r, m, j, k)
  {
    if j < k {
      MovedSplits(r, m, i, j, k - 1);
    }
  }

  lemma {:induction false} NothingMoved(r: Run, m: Mover, i: nat, k: nat)
    requires i <= k <= |r.steps|
    requires forall j | i <= j < k :: !Moves(r.steps[j], m)
    ensures Moved(r, m, i, k) == 0
  {
    if i < k {
      NothingMoved(r, m, i, k - 1);
    }
  }

  /** A measured delta is this build's own allocation, plus what other builds moved in the gap between the
      before-sample and the count-in, plus what passes and teardowns moved meanwhile. Nothing else. */
  lemma MeasuredDelta(r: Run, k: nat, t: nat)
    requires Legal(r) && k <= |r.steps| < TWO64
    requires PcAt(r, k, t).Closed? && PcAt(r, k, t).verdict.Measured?
    ensures var p := PcAt(r, k, t);
            && p.w.sampledAt <= p.w.countedAt <= p.afterAt <= |r.steps|
            && p.verdict.bytes == Moved(r, Own(t), p.w.countedAt, p.afterAt)
                                  + Moved(r, Others(t), p.w.sampledAt, p.w.countedAt)
                                  + Moved(r, Outside, p.w.sampledAt, p.afterAt)
  {
    hide At, Legal, Moved;
    var p := PcAt(r, k, t);
    PastAt(r, k, t);
    var i, c, a := p.w.sampledAt, p.w.countedAt, p.afterAt;
    assert p.verdict.bytes == At(r, a).usage - At(r, i).usage;
    UsageIsWhatMoved(r, t, i, a);
    forall j | i <= j < c ensures !Moves(r.steps[j], Own(t)) {
      if r.steps[j].Allocate? {
        AllocatorIsBuilding(r, j);
      }
    }
    forall j | c <= j < a ensures !Moves(r.steps[j], Others(t)) {
      if r.steps[j].Allocate? {
        AttributedBuildAllocatedAlone(r, k, t, j);
      }
    }
    NothingMoved(r, Own(t), i, c);
    NothingMoved(r, Others(t), c, a);
    MovedSplits(r, Own(t), i, c, a);
    MovedSplits(r, Others(t), i, c, a);
  }

  /** The published figure is exactly what this build allocated if and only if the gap and the outside cancel;
      in particular when no other window is live from the before-sample to the count-in and nothing outside a
      build moves the usage. */
  lemma DeltaIsExact(r: Run, k: nat, t: nat)
    requires Legal(r) && k <= |r.steps| < TWO64
    requires PcAt(r, k, t).Closed? && PcAt(r, k, t).verdict.Measured?
    ensures var p := PcAt(r, k, t);
            && p.w.sampledAt <= p.w.countedAt <= p.afterAt <= |r.steps|
            && (p.verdict.bytes == Moved(r, Own(t), p.w.countedAt, p.afterAt)
                <==> Moved(r, Others(t), p.w.sampledAt, p.w.countedAt)
                     + Moved(r, Outside, p.w.sampledAt, p.afterAt) == 0)
            && ((forall j, u | p.w.sampledAt <= j <= p.w.countedAt && u != t :: !Live(PcAt(r, j, u)))
                && (forall j | p.w.sampledAt <= j < p.afterAt :: !r.steps[j].Foreign?)
                ==> p.verdict.bytes == Moved(r, Own(t), p.w.countedAt, p.afterAt))
  {
    MeasuredDelta(r, k, t);
    var p := PcAt(r, k, t);
    if (forall j, u | p.w.sampledAt <= j <= p.w.countedAt && u != t :: !Live(PcAt(r, j, u)))
       && (forall j | p.w.sampledAt <= j < p.afterAt :: !r.steps[j].Foreign?)
    {
      forall j | p.w.sampledAt <= j < p.w.countedAt ensures !Moves(r.steps[j], Others(t)) {
        if r.steps[j].Allocate? {
          AllocatorIsBuilding(r, j);
        }
      }
      NothingMoved(r, Others(t), p.w.sampledAt, p.w.countedAt);
      NothingMoved(r, Outside, p.w.sampledAt, p.afterAt);
    }
  }

  // ---------- exact whatever the builds allocate ----------

  /** The action with its number of bytes struck out. */
  function Shape(a: Action): Action {
    match a
    case Allocate(t, _) => Allocate(t, 0)
    case Foreign(_) => Foreign(0)
    case _ => a
  }

  /** The same steps of the same threads; only the bytes moved may differ. */
  ghost predicate SameShape(r: Run, q: Run) {
    r.n == q.n && |r.steps| == |q.steps| && forall k | 0 <= k < |r.steps| :: Shape(r.steps[k]) == Shape(q.steps[k])
  }

  function Seen(sample: Option<nat>): Option<nat> {
    if sample.Some? then Some(0) else None
  }

  /** The program counter with every sampled value and verdict struck out. */
  function Bare(p: Pc): Pc {
    match p
    case Idle => Idle
    case Sampled(before, at) => Sampled(Seen(before), at)
    case Marked(before, at, marks, bumps, markedAt) => Marked(Seen(before), at, marks, bumps, markedAt)
    case Owing(w) => Owing(BareWindow(w))
    case Building(w) => Building(BareWindow(w))
    case SampledAfter(w, after, at) => SampledAfter(BareWindow(w), Seen(after), at)
    case Closed(w, after, at, _, closedAt) => Closed(BareWindow(w), Seen(after), at, NotSampled, closedAt)
  }

  function BareWindow(w: Window): Window {
    w.(before := Seen(w.before))
  }

  /** The two states differ in bytes only. */
  ghost predicate Alike(s: State, z: State) {
    && |s.threads| == |z.threads| && s.inFlight == z.inFlight && s.bumps == z.bumps
    && forall t | 0 <= t < |s.threads| :: Bare(s.threads[t]) == Bare(z.threads[t])
  }

  lemma AlikeEnabled(s: State, z: State, a: Action, b: Action)
    requires Alike(s, z) && Shape(a) == Shape(b) && Enabled(s, a) && z.usage + Delta(b) >= 0
    ensures Enabled(z, b)
  {
    if !a.Foreign? && a.t < |s.threads| {
      assert Bare(s.threads[a.t]) == Bare(z.threads[a.t]);
    }
  }

  lemma AlikeStep(s: State, z: State, a: Action, b: Action, now: nat)
    requires Alike(s, z) && Shape(a) == Shape(b) && Enabled(s, a) && Enabled(z, b)
    ensures Alike(Apply(s, a, now), Apply(z, b, now))
  {
    if !a.Foreign? {
      assert Bare(s.threads[a.t]) == Bare(z.threads[a.t]);
    }
    hide Attribute;
  }

  lemma AlikeNext(r: Run, q: Run, k: nat)
    requires SameShape(r, q) && Legal(r) && Legal(q) && k < |r.steps| && Alike(At(r, k), At(q, k))
    ensures Alike(At(r, k + 1), At(q, k + 1))
  {
    assert Shape(r.steps[k]) == Shape(q.steps[k]);
    hide Alike, Enabled, Apply, Shape, SameShape;
    EnabledWhenTaken(r, k, |r.steps|);
    EnabledWhenTaken(q, k, |q.steps|);
    AlikeStep(At(r, k), At(q, k), r.steps[k], q.steps[k], k);
  }

  lemma AlikeAtStart(r: Run, q: Run)
    requires r.n == q.n
    ensures Alike(At(r, 0), At(q, 0))
  {
  }

  lemma {:induction false} AlikeThroughout(r: Run, q: Run, k: nat)
    requires SameShape(r, q) && Legal(r) && Legal(q) && k <= |r.steps|
    ensures Alike(At(r, k), At(q, k))
  {
    hide At, Alike, Legal;
    if k == 0 {
      AlikeAtStart(r, q);
    } else {
      AlikeThroughout(r, q, k - 1);
      AlikeNext(r, q, k - 1);
    }
  }

  /** The run of the same shape in which step `j` alone moves anything: one byte. */
  function OneByte(r: Run, j: nat): (q: Run)
    ensures |q.steps| == |r.steps|
  {
    Run(r.n, 0, seq(|r.steps|, k requires 0 <= k < |r.steps| => WithBytes(r.steps[k], if k == j then 1 else 0)))
  }

  function WithBytes(a: Action, bytes: int): Action {
    match a
    case Allocate(t, _) => Allocate(t, bytes)
    case Foreign(_) => Foreign(bytes)
    case _ => a
  }

  lemma {:induction false} OneByteIsLegal(r: Run, j: nat, k: nat)
    requires LegalUpTo(r, |r.steps|) && j < |r.steps| && k <= |r.steps|
    requires r.steps[j].Allocate? || r.steps[j].Foreign?
    ensures LegalUpTo(OneByte(r, j), k) && Alike(At(r, k), At(OneByte(r, j), k))
    ensures At(OneByte(r, j), k).usage == if k > j then 1 else 0
  {
    hide At, Alike, OneByte;
    if k == 0 {
      OneByteStart(r, j);
    } else {
      OneByteIsLegal(r, j, k - 1);
      OneByteStep(r, j, k - 1);
    }
  }

  lemma OneByteStart(r: Run, j: nat)
    ensures Alike(At(r, 0), At(OneByte(r, j), 0)) && At(OneByte(r, j), 0).usage == 0
  {
  }

  lemma OneByteStep(r: Run, j: nat, k: nat)
    requires LegalUpTo(r, |r.steps|) && j < |r.steps| && k < |r.steps|
    requires r.steps[j].Allocate? || r.steps[j].Foreign?
    requires LegalUpTo(OneByte(r, j), k) && Alike(At(r, k), At(OneByte(r, j), k))
    requires At(OneByte(r, j), k).usage == if k > j then 1 else 0
    ensures LegalUpTo(OneByte(r, j), k + 1) && Alike(At(r, k + 1), At(OneByte(r, j), k + 1))
    ensures At(OneByte(r, j), k + 1).usage == if k + 1 > j then 1 else 0
  {
    var q := OneByte(r, j);
    var a, b := r.steps[k], q.steps[k];
    assert Shape(a) == Shape(b) && Delta(b) == if k == j then 1 else 0;
    hide OneByte, Alike, Shape, WithBytes;
    EnabledWhenTaken(r, k, |r.steps|);
    AlikeEnabled(At(r, k), At(q, k), a, b);
    AlikeStep(At(r, k), At(q, k), a, b, k);
    UsageMoves(At(q, k), b, k);
    hide Enabled, Apply;
  }

  lemma UsageMoves(s: State, a: Action, now: nat)
    requires Enabled(s, a)
    ensures Apply(s, a, now).usage == s.usage + Delta(a)
  {
  }

  /** No other build allocates between the before-sample and the count-in, and nothing outside any build moves before
      the after-sample. */
  ghost predicate GapIsQuiet(r: Run, t: nat, w: Window, afterAt: nat) {
    forall j | w.sampledAt <= j < afterAt && j < |r.steps| :: !Spoils(r.steps[j], t, j < w.countedAt)
  }

  predicate Spoils(a: Action, t: nat, inTheGap: bool) {
    a.Foreign? || (a.Allocate? && a.t != t && inTheGap)
  }

  /** Thread `t` publishes a figure by step `k`. */
  ghost predicate Publishes(r: Run, k: nat, t: nat) {
    && Legal(r) && k <= |r.steps| < TWO64
    && PcAt(r, k, t).Closed? && PcAt(r, k, t).verdict.Measured?
  }

  /** The figure is what the build itself allocated. */
  ghost predicate IsExact(r: Run, k: nat, t: nat)
    requires k <= |r.steps| && PcAt(r, k, t).Closed? && PcAt(r, k, t).verdict.Measured?
  {
    var p := PcAt(r, k, t);
    p.w.countedAt <= p.afterAt <= |r.steps| && p.verdict.bytes == Moved(r, Own(t), p.w.countedAt, p.afterAt)
  }

  /** A schedule makes the figure exact for every choice of the bytes moved if and only if, from the before-sample
      on, no other build allocates until the count-in and nothing outside any build moves until the after-sample. */
  lemma ExactForEveryDeltaIff(r: Run, k: nat, t: nat)
    requires Publishes(r, k, t)
    ensures (forall q | SameShape(r, q) && Publishes(q, k, t) :: IsExact(q, k, t))
            <==> GapIsQuiet(r, t, PcAt(r, k, t).w, PcAt(r, k, t).afterAt)
  {
    hide Legal, PcAt, GapIsQuiet, SameShape, IsExact;
    var p := PcAt(r, k, t);
    if GapIsQuiet(r, t, p.w, p.afterAt) {
      forall q | SameShape(r, q) && Publishes(q, k, t) ensures IsExact(q, k, t) {
        QuietMeansExact(r, q, k, t);
      }
    } else {
      var q := NoisyMeansInexact(r, k, t);
    }
  }

  lemma SameTimes(r: Run, q: Run, k: nat, t: nat)
    requires SameShape(r, q) && Legal(r) && Legal(q) && k <= |r.steps| && PcAt(r, k, t).Closed?
    ensures PcAt(q, k, t).Closed?
    ensures PcAt(q, k, t).w.sampledAt == PcAt(r, k, t).w.sampledAt
    ensures PcAt(q, k, t).w.countedAt == PcAt(r, k, t).w.countedAt && PcAt(q, k, t).afterAt == PcAt(r, k, t).afterAt
    ensures |q.steps| == |r.steps|
  {
    hide At, Legal;
    AlikeThroughout(r, q, k);
    assert Bare(At(r, k).threads[t]) == Bare(At(q, k).threads[t]);
  }

  lemma QuietMeansExact(r: Run, q: Run, k: nat, t: nat)
    requires Publishes(r, k, t) && Publishes(q, k, t) && SameShape(r, q)
    requires GapIsQuiet(r, t, PcAt(r, k, t).w, PcAt(r, k, t).afterAt)
    ensures IsExact(q, k, t)
  {
    hide At, Legal, Moved, PcAt;
    SameTimes(r, q, k, t);
    MeasuredDelta(q, k, t);
    var p := PcAt(q, k, t);
    forall j | p.w.sampledAt <= j < p.afterAt
      ensures !Moves(q.steps[j], Outside) && (j < p.w.countedAt ==> !Moves(q.steps[j], Others(t)))
    {
      assert !Spoils(r.steps[j], t, j < p.w.countedAt);
      assert Shape(r.steps[j]) == Shape(q.steps[j]);
    }
    NothingMoved(q, Others(t), p.w.sampledAt, p.w.countedAt);
    NothingMoved(q, Outside, p.w.sampledAt, p.afterAt);
  }

  lemma NoisyMeansInexact(r: Run, k: nat, t: nat) returns (q: Run)
    requires Publishes(r, k, t) && !GapIsQuiet(r, t, PcAt(r, k, t).w, PcAt(r, k, t).afterAt)
    ensures SameShape(r, q) && Publishes(q, k, t) && !IsExact(q, k, t)
  {
    var p := PcAt(r, k, t);
    var j :| p.w.sampledAt <= j < p.afterAt && j < |r.steps| && Spoils(r.steps[j], t, j < p.w.countedAt);
    q := OneByte(r, j);
    OneByteShape(r, j);
    hide PcAt, GapIsQuiet, SameShape, LegalUpTo, Moved, OneByte;
    OneByteIsLegal(r, j, |r.steps|);
    OneBytePublished(r, q, j, k, t);
    NoByteOfItsOwn(r, q, j, k, t);
  }

  lemma NoByteOfItsOwn(r: Run, q: Run, j: nat, k: nat, t: nat)
    requires Publishes(q, k, t) && q == OneByte(r, j) && |q.steps| == |r.steps| && PcAt(q, k, t).verdict == Measured(1)
    requires j < |r.steps| && (r.steps[j].Allocate? || r.steps[j].Foreign?)
    requires Spoils(r.steps[j], t, j < PcAt(q, k, t).w.countedAt)
    ensures !IsExact(q, k, t)
  {
    hide PcAt, Legal, OneByte, Moved;
    var p := PcAt(q, k, t);
    if p.w.countedAt <= p.afterAt <= |q.steps| {
      OneByteNotOwn(r, j, t, p.w.countedAt, p.afterAt);
    }
  }

  lemma OneByteShape(r: Run, j: nat)
    ensures SameShape(r, OneByte(r, j))
  {
  }

  lemma {:induction false} OneByteNotOwn(r: Run, j: nat, t: nat, i: nat, k: nat)
    requires i <= k <= |r.steps| && j < |r.steps| && !Moves(r.steps[j], Own(t))
    ensures Moved(OneByte(r, j), Own(t), i, k) == 0
  {
    if i < k {
      OneByteNotOwn(r, j, t, i, k - 1);
    }
  }

  /** Where a published verdict comes from: the two counters and the usage at the two samples. */
  lemma VerdictOf(r: Run, k: nat, t: nat)
    requires k <= |r.steps| && PcAt(r, k, t).Closed?
    ensures var p := PcAt(r, k, t);
            && p.w.sampledAt < p.afterAt < p.closedAt < k
            && p.verdict == Attribute(p.w.alone, p.w.marksAtStart, Marks(At(r, p.closedAt)), p.w.before, p.after)
            && (p.w.before.Some? ==> p.w.before.value == At(r, p.w.sampledAt).usage)
            && (p.after.Some? ==> p.after.value == At(r, p.afterAt).usage)
  {
    PastAt(r, k, t);
    hide At, PcAt, Attribute, Marks;
  }

  /** The one byte is published as this build's. */
  lemma OneBytePublished(r: Run, q: Run, j: nat, k: nat, t: nat)
    requires Publishes(r, k, t) && q == OneByte(r, j) && SameShape(r, q) && Legal(q)
    requires j < |r.steps| && (r.steps[j].Allocate? || r.steps[j].Foreign?)
    requires PcAt(r, k, t).w.sampledAt <= j < PcAt(r, k, t).afterAt
    ensures PcAt(q, k, t).Closed? && PcAt(q, k, t).verdict == Measured(1)
    ensures PcAt(q, k, t).w.countedAt == PcAt(r, k, t).w.countedAt
  {
    hide At, PcAt, LegalUpTo, OneByte, SameShape;
    var p := PcAt(r, k, t);
    SameTimes(r, q, k, t);
    VerdictOf(r, k, t);
    VerdictOf(q, k, t);
    ClosedAlike(r, q, k, t);
    OneByteIsLegal(r, j, p.w.sampledAt);
    OneByteIsLegal(r, j, p.afterAt);
    AlikeThroughout(r, q, p.closedAt);
  }

  lemma ClosedAlike(r: Run, q: Run, k: nat, t: nat)
    requires SameShape(r, q) && Legal(r) && Legal(q) && k <= |r.steps| && PcAt(r, k, t).Closed? && PcAt(q, k, t).Closed?
    ensures Bare(PcAt(r, k, t)) == Bare(PcAt(q, k, t))
  {
    hide At, Legal;
    AlikeThroughout(r, q, k);
    assert Bare(At(r, k).threads[t]) == Bare(At(q, k).threads[t]);
  }

  // ---------- the gap, on a concrete run ----------

  /** The second build samples while the first is still allocating, then opens alone: it publishes 8 bytes for
      an allocation of 3. The before-sample is an argument, evaluated before `open` reads the mark. */
  function GapRun(): Run {
    Run(2, 0, [
      SampleBefore(0, true), ReadMark(0), CountIn(0),
      SampleBefore(1, true),
      Allocate(0, 5), SampleAfter(0, true), Close(0), DropWindow(0),
      ReadMark(1), CountIn(1), Allocate(1, 3), SampleAfter(1, true), Close(1)])
  }

  lemma GapSteps()
    ensures var r := GapRun();
            && r.n == 2 && r.usage == 0 && |r.steps| == 13
            && r.steps[0] == SampleBefore(0, true)
            && r.steps[1] == ReadMark(0)
            && r.steps[2] == CountIn(0)
            && r.steps[3] == SampleBefore(1, true)
            && r.steps[4] == Allocate(0, 5)
            && r.steps[5] == SampleAfter(0, true)
            && r.steps[6] == Close(0)
            && r.steps[7] == DropWindow(0)
            && r.steps[8] == ReadMark(1)
            && r.steps[9] == CountIn(1)
            && r.steps[10] == Allocate(1, 3)
            && r.steps[11] == SampleAfter(1, true)
            && r.steps[12] == Close(1)
  {
  }

  lemma Advance(r: Run, k: nat)
    requires k < |r.steps| && Enabled(At(r, k), r.steps[k])
    ensures At(r, k + 1) == Apply(At(r, k), r.steps[k], k)
  {
  }

  lemma TwoIdleThreads(r: Run)
    requires r.n == 2 && r.usage == 0
    ensures At(r, 0) == State([Idle, Idle], 0, 0, 0)
  {
  }

  lemma GapFirstOpens()
    ensures var r := GapRun();
            && |r.steps| == 13
            && Enabled(At(r, 0), r.steps[0])
            && Enabled(At(r, 1), r.steps[1])
            && Enabled(At(r, 2), r.steps[2])
            && Enabled(At(r, 3), r.steps[3])
            && At(r, 4) == State([Building(Window(Some(0), 0, 0, 0, 1, true, 2)), Sampled(Some(0), 3)], 1, 0, 0)
  {
    hide At, GapRun;
    GapSteps();
    var r := GapRun();
    TwoIdleThreads(r);
    Advance(r, 0);
    Advance(r, 1);
    Advance(r, 2);
    Advance(r, 3);
  }

  lemma GapFirstCloses()
    ensures var r := GapRun();
            && |r.steps| == 13
            && Enabled(At(r, 4), r.steps[4])
            && Enabled(At(r, 5), r.steps[5])
            && Enabled(At(r, 6), r.steps[6])
            && Enabled(At(r, 7), r.steps[7])
            && At(r, 8) == State([Idle, Sampled(Some(0), 3)], 0, 0, 5)
  {
    hide At, GapRun;
    GapSteps();
    GapFirstOpens();
    var r := GapRun();
    Advance(r, 4);
    Advance(r, 5);
    Advance(r, 6);
    Advance(r, 7);
  }

  lemma GapSecondBuilds()
    ensures var r := GapRun();
            && |r.steps| == 13
            && Enabled(At(r, 8), r.steps[8])
            && Enabled(At(r, 9), r.steps[9])
            && Enabled(At(r, 10), r.steps[10])
            && At(r, 11) == State([Idle, Building(Window(Some(0), 3, 0, 0, 8, true, 9))], 1, 0, 8)
  {
    hide At, GapRun;
    GapSteps();
    GapFirstCloses();
    var r := GapRun();
    Advance(r, 8);
    Advance(r, 9);
    Advance(r, 10);
  }

  lemma GapSecondCloses()
    ensures var r := GapRun();
            && |r.steps| == 13
            && Enabled(At(r, 11), r.steps[11])
            && Enabled(At(r, 12), r.steps[12])
            && At(r, 13) == State([Idle, Closed(Window(Some(0), 3, 0, 0, 8, true, 9), Some(8), 11, Measured(8), 12)],
                                  1, 0, 8)
  {
    hide At, GapRun;
    GapSteps();
    GapSecondBuilds();
    var r := GapRun();
    Advance(r, 11);
    Advance(r, 12);
  }

  lemma DeltaCanIncludeTheGap()
    ensures var r := GapRun();
            && Legal(r) && PcAt(r, 13, 1).Closed? && PcAt(r, 13, 1).verdict == Measured(8)
            && PcAt(r, 13, 1).w.countedAt <= PcAt(r, 13, 1).afterAt
            && Moved(r, Own(1), PcAt(r, 13, 1).w.countedAt, PcAt(r, 13, 1).afterAt) == 3
  {
    hide At, GapRun;
    GapSteps();
    GapFirstOpens();
    GapFirstCloses();
    GapSecondBuilds();
    GapSecondCloses();
    var r := GapRun();
    EachEnabledIsLegal(r, 13);
    assert Moved(r, Own(1), 9, 10) == 0;
    assert Moved(r, Own(1), 9, 11) == 3;
  }

  // ---------- an attributed build that was not alone ----------

  /** The second build is counted in behind the first and stops before it bumps the mark; the first allocates,
      samples and closes meanwhile. */
  function CompanyRun(): Run {
    Run(2, 0, [SampleBefore(0, true), ReadMark(0), CountIn(0), SampleBefore(1, true), ReadMark(1), CountIn(1),
               Allocate(0, 5), SampleAfter(0, true), Close(0)])
  }

  lemma CompanySteps()
    ensures var r := CompanyRun();
            r.n == 2 && r.usage == 0 && |r.steps| == 9
            && r.steps[0] == SampleBefore(0, true) && r.steps[1] == ReadMark(0) && r.steps[2] == CountIn(0)
            && r.steps[3] == SampleBefore(1, true) && r.steps[4] == ReadMark(1) && r.steps[5] == CountIn(1)
            && r.steps[6] == Allocate(0, 5) && r.steps[7] == SampleAfter(0, true) && r.steps[8] == Close(0)
  {
  }

  lemma CompanyFirstOpens()
    ensures var r := CompanyRun();
            && |r.steps| == 9
            && Enabled(At(r, 0), r.steps[0])
            && Enabled(At(r, 1), r.steps[1])
            && Enabled(At(r, 2), r.steps[2])
            && At(r, 3) == State([Building(Window(Some(0), 0, 0, 0, 1, true, 2)), Idle], 1, 0, 0)
  {
    hide At, CompanyRun;
    CompanySteps();
    var r := CompanyRun();
    TwoIdleThreads(r);
    Advance(r, 0);
    Advance(r, 1);
    Advance(r, 2);
  }

  lemma CompanyJoins()
    ensures var r := CompanyRun();
            && |r.steps| == 9
            && Enabled(At(r, 3), r.steps[3])
            && Enabled(At(r, 4), r.steps[4])
            && Enabled(At(r, 5), r.steps[5])
            && At(r, 6) == State([Building(Window(Some(0), 0, 0, 0, 1, true, 2)),
                                  Owing(Window(Some(0), 3, 0, 0, 4, false, 5))], 2, 0, 0)
  {
    hide At, CompanyRun;
    CompanySteps();
    CompanyFirstOpens();
    var r := CompanyRun();
    Advance(r, 3);
    Advance(r, 4);
    Advance(r, 5);
  }

  lemma CompanyFirstCloses()
    ensures var r := CompanyRun();
            && |r.steps| == 9
            && Enabled(At(r, 6), r.steps[6])
            && Enabled(At(r, 7), r.steps[7])
            && Enabled(At(r, 8), r.steps[8])
            && At(r, 9) == State([Closed(Window(Some(0), 0, 0, 0, 1, true, 2), Some(5), 7, Measured(5), 8),
                                  Owing(Window(Some(0), 3, 0, 0, 4, false, 5))], 2, 0, 5)
  {
    hide At, CompanyRun;
    CompanySteps();
    CompanyJoins();
    var r := CompanyRun();
    Advance(r, 6);
    Advance(r, 7);
    Advance(r, 8);
  }

  /** The first build publishes a figure although the second was live from before the allocation to the close. */
  lemma AttributedBesideAnotherBuild()
    ensures var r := CompanyRun();
            && Legal(r) && PcAt(r, 9, 0).Closed? && PcAt(r, 9, 0).verdict == Measured(5)
            && PcAt(r, 9, 0).w.countedAt < 6 && r.steps[6] == Allocate(0, 5)
            && Live(PcAt(r, 6, 1)) && Live(PcAt(r, 9, 1))
  {
    hide At, CompanyRun;
    CompanySteps();
    CompanyFirstOpens();
    CompanyJoins();
    CompanyFirstCloses();
    EachEnabledIsLegal(CompanyRun(), 9);
  }
}

/** The ledger of verdicts (src/vram.rs): per-engine figures and counted discards. */
module VramLedger {
  import opened Wrappers
  import opened BuildWindows

  datatype Engine = Embed | Rerank | Other

  datatype Entry = Entry(engine: Engine, verdict: Attribution)

  predicate Publishes(e: Entry, engine: Engine) {
    e.engine == engine && e.verdict.Measured? && !engine.Other?
  }

  /** The figure on the wire: the engine's latest measurement, if it ever had one. */
  function Figure(history: seq<Entry>, engine: Engine): Option<nat> {
    if history == [] then None
    else
      var last := history[|history| - 1];
      if Publishes(last, engine) then Some(last.verdict.bytes) else Figure(history[..|history| - 1], engine)
  }

  datatype Discard = OverlapDiscard | UnsampledDiscard | FlatDiscard

  /** Which discard counter an entry lands in; a measurement for an unknown engine counts as not sampled. */
  function DiscardOf(e: Entry): Option<Discard> {
    match e.verdict
    case Measured(_) => if e.engine.Other? then Some(UnsampledDiscard) else None
    case Overlapped => Some(OverlapDiscard)
    case NotSampled => Some(UnsampledDiscard)
    case NoGrowth => Some(FlatDiscard)
  }

  function Discards(history: seq<Entry>, d: Discard): nat {
    if history == [] then 0
    else Discards(history[..|history| - 1], d) + (if DiscardOf(history[|history| - 1]) == Some(d) then 1 else 0)
  }

  function Published(history: seq<Entry>, engine: Engine): nat {
    if history == [] then 0
    else Published(history[..|history| - 1], engine) + (if Publishes(history[|history| - 1], engine) then 1 else 0)
  }

  /** Every build is accounted for once: published for one of the two engines or counted as one discard. And a
      figure is on the wire exactly when its engine ever had a measurement. */
  lemma {:induction false} NoBuildIsLost(history: seq<Entry>)
    ensures |history| == Published(history, Embed) + Published(history, Rerank)
                         + Discards(history, OverlapDiscard) + Discards(history, UnsampledDiscard)
                         + Discards(history, FlatDiscard)
    ensures Figure(history, Embed).Some? <==> Published(history, Embed) > 0
    ensures Figure(history, Rerank).Some? <==> Published(history, Rerank) > 0
  {
    if history != [] {
      NoBuildIsLost(history[..|history| - 1]);
    }
  }

  /** Some engine was measured, so there is a figure to show. */
  predicate HasFigure(history: seq<Entry>) {
    Published(history, Embed) + Published(history, Rerank) > 0
  }

  /** When the ledger explains itself with "every build so far overlapped another". */
  predicate SaysEveryBuildOverlapped(history: seq<Entry>) {
    !HasFigure(history) && Discards(history, UnsampledDiscard) == 0 && Discards(history, OverlapDiscard) > 0
  }

  predicate EveryBuildOverlappedIn(history: seq<Entry>) {
    forall k | 0 <= k < |history| :: history[k].verdict.Overlapped?
  }

  /** The sentence is true if and only if no build was discarded for showing no growth. */
  lemma OverlapSentenceIsTrueIff(history: seq<Entry>)
    requires SaysEveryBuildOverlapped(history)
    ensures EveryBuildOverlappedIn(history) <==> Discards(history, FlatDiscard) == 0
  {
    AllOverlappedIff(history);
  }

  lemma {:induction false} AllOverlappedIff(history: seq<Entry>)
    ensures EveryBuildOverlappedIn(history)
            <==> Published(history, Embed) + Published(history, Rerank) + Discards(history, UnsampledDiscard)
                 + Discards(history, FlatDiscard) == 0
  {
    if history != [] {
      AllOverlappedIff(history[..|history| - 1]);
      NoBuildIsLost(history);
      NoBuildIsLost(history[..|history| - 1]);
      assert forall k | 0 <= k < |history| - 1 :: history[..|history| - 1][k] == history[k];
    }
  }

  /** It can be false: one build overlapped, the next was alone and showed no growth. */
  lemma OverlapSentenceCanBeFalse()
    ensures var history := [Entry(Embed, Overlapped), Entry(Rerank, NoGrowth)];
            SaysEveryBuildOverlapped(history) && !EveryBuildOverlappedIn(history)
  {
    var history := [Entry(Embed, Overlapped), Entry(Rerank, NoGrowth)];
    var first := [Entry(Embed, Overlapped)];
    assert history[..1] == first && first[..0] == [];
    assert Published(first, Embed) == Published(first, Rerank) == Discards(first, UnsampledDiscard) == 0;
    assert Discards(first, OverlapDiscard) == 1;
    assert !history[1].verdict.Overlapped?;
  }

  datatype Reason = NoSample | EveryBuildOverlapped | NoGrowthSeen | NothingBuilt

  class Ledger {
    var embed: Option<nat>
    var rerank: Option<nat>
    var discardedOverlaps: nat
    var discardedNotSampled: nat
    var discardedNoGrowth: nat
    ghost var history: seq<Entry>

    ghost predicate Valid()
      reads this
    {
      && embed == Figure(history, Embed)
      && rerank == Figure(history, Rerank)
      && discardedOverlaps == Discards(history, OverlapDiscard)
      && discardedNotSampled == Discards(history, UnsampledDiscard)
      && discardedNoGrowth == Discards(history, FlatDiscard)
    }

    constructor ()
      ensures Valid() && history == []
    {
      embed, rerank := None, None;
      discardedOverlaps, discardedNotSampled, discardedNoGrowth := 0, 0, 0;
      history := [];
    }

    method Record(engine: Engine, verdict: Attribution)
      requires Valid()
      modifies this
      ensures Valid() && history == old(history) + [Entry(engine, verdict)]
      ensures embed == if engine == Embed && verdict.Measured? then Some(verdict.bytes) else old(embed)
      ensures rerank == if engine == Rerank && verdict.Measured? then Some(verdict.bytes) else old(rerank)
      ensures discardedOverlaps == old(discardedOverlaps) + if verdict.Overlapped? then 1 else 0
      ensures discardedNoGrowth == old(discardedNoGrowth) + if verdict.NoGrowth? then 1 else 0
      ensures discardedNotSampled
              == old(discardedNotSampled)
                 + if verdict.NotSampled? || (verdict.Measured? && engine == Other) then 1 else 0
    {
      match verdict {
        case Measured(bytes) =>
          if engine == Embed {
            embed := Some(bytes);
          } else if engine == Rerank {
            rerank := Some(bytes);
          } else {
            discardedNotSampled := discardedNotSampled + 1;
          }
        case Overlapped => discardedOverlaps := discardedOverlaps + 1;
        case NotSampled => discardedNotSampled := discardedNotSampled + 1;
        case NoGrowth => discardedNoGrowth := discardedNoGrowth + 1;
      }
      ghost var before := history;
      history := history + [Entry(engine, verdict)];
      assert history[..|history| - 1] == before;
    }

    /** The reason on the wire is determined by the history: none while a figure exists, else the first that
        applies of "no sample", "every build overlapped", "no growth" and "nothing built". */
    method UnavailableReason() returns (reason: Option<Reason>)
      requires Valid()
      ensures reason.None? <==> HasFigure(history)
      ensures reason == Some(NoSample) <==> !HasFigure(history) && Discards(history, UnsampledDiscard) > 0
      ensures reason == Some(EveryBuildOverlapped) <==> SaysEveryBuildOverlapped(history)
      ensures reason == Some(NoGrowthSeen) <==>
                !HasFigure(history) && Discards(history, UnsampledDiscard) == 0
                && Discards(history, OverlapDiscard) == 0 && Discards(history, FlatDiscard) > 0
      ensures reason == Some(NothingBuilt) <==> history == []
    {
      NoBuildIsLost(history);
      if embed.Some? || rerank.Some? {
        return None;
      }
      reason := if discardedNotSampled > 0 then Some(NoSample)
                else if discardedOverlaps > 0 then Some(EveryBuildOverlapped)
                else if discardedNoGrowth > 0 then Some(NoGrowthSeen)
                else Some(NothingBuilt);
    }
  }
}
