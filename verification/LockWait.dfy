/** Waiting for an engine somebody else holds (src/inference.rs, src/wedge.rs): the waiter looks, is served, heals a
    poisoned lock, refuses, or sleeps and looks again. Times are ticks of one clock. */
module LockWait {
  import opened Division
  import opened Wrappers

  datatype Phase = Building | Running

  datatype Policy = Policy(runningAfter: nat, buildingAfter: nat, exitAfterWedged: Option<nat>)

  /** How long a phase may run before it counts as wedged. */
  function Ceiling(policy: Policy, phase: Phase): nat {
    match phase
    case Building => policy.buildingAfter
    case Running => policy.runningAfter
  }

  datatype Patience = UntilTheHolderIsWedged | AtMost(limit: nat)

  datatype Lock = Free | Poisoned | Held

  datatype Holder = Holder(phase: Phase, since: nat)

  /** What one turn of the loop sees: the time, the lock, and the holder's stamp if there is one to read. */
  datatype Look = Look(at: nat, lock: Lock, holder: Option<Holder>)

  datatype Outcome = Acquired | Healed | Refused(elapsed: nat, wedged: bool)

  function Elapsed(from: nat, at: nat): nat {
    if at >= from then at - from else 0
  }

  /** How long the holder has held: by its stamp, or by the waiter's own wait when nothing is stamped. */
  function HeldFor(look: Look, start: nat): nat {
    if look.holder.Some? then Elapsed(look.holder.value.since, look.at) else Elapsed(start, look.at)
  }

  function HolderCeiling(look: Look, policy: Policy): nat {
    if look.holder.Some? then Ceiling(policy, look.holder.value.phase) else policy.runningAfter
  }

  /** How one look ends the wait, if it does. */
  function Verdict(look: Look, start: nat, policy: Policy, patience: Patience): Option<Outcome> {
    match look.lock
    case Free => Some(Acquired)
    case Poisoned => Some(Healed)
    case Held =>
      if HeldFor(look, start) >= HolderCeiling(look, policy) then Some(Refused(HeldFor(look, start), true))
      else if patience.AtMost? && Elapsed(start, look.at) >= patience.limit
      then Some(Refused(Elapsed(start, look.at), false))
      else None
  }

  /** The holder has held for less than it may: by its stamp and its phase, or, unstamped, by the wait so far and the
      running ceiling. Clocks read earlier than they began count as no time. */
  predicate UnderItsCeiling(look: Look, start: nat, policy: Policy) {
    match look.holder
    case Some(Holder(Building, since)) => policy.buildingAfter > 0 && look.at < since + policy.buildingAfter
    case Some(Holder(Running, since)) => policy.runningAfter > 0 && look.at < since + policy.runningAfter
    case None => policy.runningAfter > 0 && look.at < start + policy.runningAfter
  }

  /** Every look finds a stamped holder within its own ceiling. */
  ghost predicate BehindHealthyHolders(looks: seq<Look>, start: nat, policy: Policy) {
    forall k | 0 <= k < |looks| ::
      looks[k].lock == Held && looks[k].holder.Some? && looks[k].at >= start && UnderItsCeiling(looks[k], start, policy)
  }

  lemma LookDecided(look: Look, start: nat, policy: Policy, patience: Patience)
    ensures var v := Verdict(look, start, policy, patience);
            var since := if look.holder.Some? then look.holder.value.since else start;
            && (v.None? ==> look.lock == Held && UnderItsCeiling(look, start, policy))
            && (v.Some? && v.value.Refused? && v.value.wedged ==>
                  && look.lock == Held && !UnderItsCeiling(look, start, policy)
                  && v.value.elapsed == if look.at < since then 0 else look.at - since)
            && (v.Some? && v.value.Refused? && !v.value.wedged ==>
                  && look.lock == Held && UnderItsCeiling(look, start, policy)
                  && patience.AtMost? && v.value.elapsed >= patience.limit
                  && v.value.elapsed == if look.at < start then 0 else look.at - start)
  {
  }

  /** Behind stamped holders within their ceilings a look is undecided before the caller's limit, for ever if there is
      none, and refused with exactly the time waited from the limit on. */
  lemma HealthyHoldersAreWaitedOut(looks: seq<Look>, start: nat, policy: Policy, patience: Patience, k: nat)
    requires BehindHealthyHolders(looks, start, policy) && k < |looks|
    ensures looks[k].at >= start
    ensures Verdict(looks[k], start, policy, patience)
            == if patience.AtMost? && looks[k].at >= start + patience.limit
               then Some(Refused(looks[k].at - start, false)) else None
  {
    assert looks[k].lock == Held && UnderItsCeiling(looks[k], start, policy);
  }

  /** `lock_or_refuse` over a finite stretch of looks: the first look with a verdict decides; with none the caller
      is still waiting. */
  method LockOrRefuse(looks: seq<Look>, start: nat, policy: Policy, patience: Patience)
    returns (r: Option<Outcome>, turns: nat)
    ensures turns <= |looks|
    ensures forall k | 0 <= k < turns :: Verdict(looks[k], start, policy, patience).None?
    ensures r.Some? ==> turns < |looks| && r == Verdict(looks[turns], start, policy, patience)
    ensures r.Some? ==> (r.value == Acquired <==> looks[turns].lock == Free)
    ensures r.Some? ==> (r.value == Healed <==> looks[turns].lock == Poisoned)
    ensures r.None? ==> turns == |looks|
    ensures forall k | 0 <= k < turns :: looks[k].lock == Held && UnderItsCeiling(looks[k], start, policy)
    ensures r.Some? && r.value.Refused? && r.value.wedged ==>
              && looks[turns].lock == Held && !UnderItsCeiling(looks[turns], start, policy)
              && var since := if looks[turns].holder.Some? then looks[turns].holder.value.since else start;
                 r.value.elapsed == if looks[turns].at < since then 0 else looks[turns].at - since
    ensures r.Some? && r.value.Refused? && !r.value.wedged ==>
              && looks[turns].lock == Held && UnderItsCeiling(looks[turns], start, policy)
              && patience.AtMost? && r.value.elapsed >= patience.limit
              && r.value.elapsed == if looks[turns].at < start then 0 else looks[turns].at - start
    ensures BehindHealthyHolders(looks, start, policy) && patience.AtMost? ==>
              && (forall k | 0 <= k < turns :: looks[k].at < start + patience.limit)
              && (r.Some? ==> looks[turns].at >= start + patience.limit
                              && r.value == Refused(looks[turns].at - start, false))
    ensures BehindHealthyHolders(looks, start, policy) && patience == UntilTheHolderIsWedged ==> r.None?
  {
    hide UnderItsCeiling, BehindHealthyHolders;
    turns := 0;
    while turns < |looks|
      invariant turns <= |looks|
      invariant forall k | 0 <= k < turns :: Verdict(looks[k], start, policy, patience).None?
      invariant forall k | 0 <= k < turns :: looks[k].lock == Held && UnderItsCeiling(looks[k], start, policy)
      invariant BehindHealthyHolders(looks, start, policy) && patience.AtMost? ==>
                  forall k | 0 <= k < turns :: looks[k].at < start + patience.limit
    {
      var look := looks[turns];
      LookDecided(look, start, policy, patience);
      if BehindHealthyHolders(looks, start, policy) {
        HealthyHoldersAreWaitedOut(looks, start, policy, patience, turns);
      }
      match look.lock
      case Free => return Some(Acquired), turns;
      case Poisoned => return Some(Healed), turns;
      case Held =>
        var heldFor := if look.holder.Some? then Elapsed(look.holder.value.since, look.at) else Elapsed(start, look.at);
        var ceiling := if look.holder.Some? then Ceiling(policy, look.holder.value.phase) else policy.runningAfter;
        if heldFor >= ceiling {
          return Some(Refused(heldFor, true)), turns;
        }
        if patience.AtMost? {
          var waited := Elapsed(start, look.at);
          if waited >= patience.limit {
            return Some(Refused(waited, false)), turns;
          }
        }
        turns := turns + 1;
    }
    r := None;
  }

  /** The first look is taken at once, and each sleep lasts at least one poll and at most `slack` more. */
  ghost predicate Paced(looks: seq<Look>, start: nat, poll: nat, slack: nat) {
    && (looks != [] ==> looks[0].at == start)
    && forall k, l | 0 <= k && l == k + 1 && l < |looks| ::
         looks[k].at + poll <= looks[l].at <= looks[k].at + poll + slack
  }

  lemma {:induction false} TimePasses(looks: seq<Look>, start: nat, poll: nat, slack: nat, k: nat)
    requires Paced(looks, start, poll, slack) && k < |looks|
    ensures k * poll >= 0 && looks[k].at >= start + k * poll
  {
    if k > 0 {
      TimePasses(looks, start, poll, slack, k - 1);
      assert looks[k - 1].at + poll <= looks[k].at;
      Distribute(k - 1, 1, poll);
    }
  }

  /** The first undecided stretch: `turns` looks went by without a verdict. */
  ghost predicate UndecidedFor(looks: seq<Look>, start: nat, policy: Policy, patience: Patience, turns: nat)
    requires turns <= |looks|
  {
    forall k | 0 <= k < turns :: Verdict(looks[k], start, policy, patience).None?
  }

  /** How many whole sleeps fit into a span. */
  function Sleeps(span: nat, poll: nat): (n: nat)
    requires poll > 0
    ensures n * poll <= span < n * poll + poll
  {
    span / poll
  }

  /** A bounded wait ends whatever the holders do: no look at or past the limit goes undecided, so the deciding
      one comes less than one sleep after the limit, within one turn more than the sleeps that fit into it. */
  lemma BoundedWaitEnds(looks: seq<Look>, start: nat, policy: Policy, limit: nat, poll: nat, slack: nat, turns: nat)
    requires poll > 0 && Paced(looks, start, poll, slack) && turns < |looks|
    requires UndecidedFor(looks, start, policy, AtMost(limit), turns)
    ensures turns > 0 ==> looks[turns].at < start + limit + poll + slack
    ensures turns <= Sleeps(limit, poll) + 1
    ensures looks[turns].at >= start + limit ==> Verdict(looks[turns], start, policy, AtMost(limit)).Some?
  {
    hide Sleeps;
    if turns > 0 {
      var k := turns - 1;
      assert Verdict(looks[k], start, policy, AtMost(limit)).None?;
      assert looks[k].at + poll <= looks[k + 1].at <= looks[k].at + poll + slack;
      TimePasses(looks, start, poll, slack, k);
      Turns(k, poll, limit);
    }
  }

  lemma Turns(k: nat, poll: nat, limit: nat)
    requires poll > 0 && k * poll <= limit
    ensures k <= Sleeps(limit, poll)
  {
    hide Sleeps;
    var n := Sleeps(limit, poll);
    if k > n {
      Monotone(n + 1, k, poll);
      Distribute(n, 1, poll);
    }
  }

  /** A stretch long enough to reach the limit is decided somewhere in it. */
  lemma BoundedWaitIsDecided(looks: seq<Look>, start: nat, policy: Policy, limit: nat, poll: nat, slack: nat)
    requires poll > 0 && Paced(looks, start, poll, slack) && |looks| >= Sleeps(limit, poll) + 3
    ensures !UndecidedFor(looks, start, policy, AtMost(limit), |looks|)
  {
    hide Sleeps;
    var k := Sleeps(limit, poll) + 2;
    if UndecidedFor(looks, start, policy, AtMost(limit), |looks|) {
      assert UndecidedFor(looks, start, policy, AtMost(limit), k);
      BoundedWaitEnds(looks, start, policy, limit, poll, slack, k);
    }
  }

  /** With unbounded patience, one stamped holder bounds the wait: while it holds, the waiter is undecided only
      before the holder's ceiling, so the refusal comes less than one sleep after it and within so many turns. */
  lemma FixedHolderBoundsTheWait(looks: seq<Look>, start: nat, policy: Policy, h: Holder, poll: nat, slack: nat,
                                 turns: nat)
    requires poll > 0 && Paced(looks, start, poll, slack) && turns < |looks| && h.since <= start
    requires forall k | 0 <= k <= turns :: looks[k].lock == Held && looks[k].holder == Some(h)
    requires UndecidedFor(looks, start, policy, UntilTheHolderIsWedged, turns)
    ensures turns > 0 ==> looks[turns].at < h.since + Ceiling(policy, h.phase) + poll + slack
    ensures turns <= Sleeps(Ceiling(policy, h.phase), poll) + 1
    ensures looks[turns].at >= h.since + Ceiling(policy, h.phase) ==>
              Verdict(looks[turns], start, policy, UntilTheHolderIsWedged)
              == Some(Refused(looks[turns].at - h.since, true))
  {
    hide Sleeps;
    TimePasses(looks, start, poll, slack, turns);
    if turns > 0 {
      var k := turns - 1;
      assert Verdict(looks[k], start, policy, UntilTheHolderIsWedged).None?;
      assert looks[k].at + poll <= looks[k + 1].at <= looks[k].at + poll + slack;
      TimePasses(looks, start, poll, slack, k);
      Turns(k, poll, Ceiling(policy, h.phase));
    }
  }

  /** A hold nobody stamped is bounded by the waiter's own wait: it is undecided only before the running ceiling, so
      the refusal comes less than one sleep after it and within so many turns. */
  lemma UnstampedHoldIsBounded(looks: seq<Look>, start: nat, policy: Policy, poll: nat, slack: nat, turns: nat)
    requires poll > 0 && Paced(looks, start, poll, slack) && turns < |looks|
    requires forall k | 0 <= k <= turns :: looks[k].lock == Held && looks[k].holder == None
    requires UndecidedFor(looks, start, policy, UntilTheHolderIsWedged, turns)
    ensures turns > 0 ==> looks[turns].at < start + policy.runningAfter + poll + slack
    ensures turns <= Sleeps(policy.runningAfter, poll) + 1
    ensures looks[turns].at >= start + policy.runningAfter ==>
              Verdict(looks[turns], start, policy, UntilTheHolderIsWedged)
              == Some(Refused(looks[turns].at - start, true))
  {
    hide Sleeps;
    TimePasses(looks, start, poll, slack, turns);
    if turns > 0 {
      var k := turns - 1;
      assert Verdict(looks[k], start, policy, UntilTheHolderIsWedged).None?;
      assert looks[k].at + poll <= looks[k + 1].at <= looks[k].at + poll + slack;
      TimePasses(looks, start, poll, slack, k);
      Turns(k, poll, policy.runningAfter);
    }
  }

  // ---------- the holder as it is, and as one look reads it ----------

  /** One hold of the engine: when it was taken, the phases its owner stamped, in order, and when the stamp was
      cleared. A request clears its stamp just before it lets go of the engine. An unload never stamps. */
  datatype Hold = Hold(taken: nat, phases: seq<Holder>, cleared: nat)

  ghost predicate InOrder(h: Hold) {
    && h.taken <= h.cleared && (h.phases == [] ==> h.cleared == h.taken)
    && (forall k | 0 <= k < |h.phases| :: h.taken <= h.phases[k].since <= h.cleared)
    && forall j, k | 0 <= j < k < |h.phases| :: h.phases[j].since <= h.phases[k].since
  }

  /** The phase entered last by `at`. */
  function PhaseAt(phases: seq<Holder>, at: nat): Option<Holder> {
    if phases == [] then None
    else
      var last := phases[|phases| - 1];
      if last.since <= at then Some(last) else PhaseAt(phases[..|phases| - 1], at)
  }

  function StampAt(h: Hold, at: nat): Option<Holder> {
    if at >= h.cleared then None else PhaseAt(h.phases, at)
  }

  lemma {:induction false} NoPhaseBefore(phases: seq<Holder>, at: nat)
    requires forall j, k | 0 <= j < k < |phases| :: phases[j].since <= phases[k].since
    ensures PhaseAt(phases, at) == None <==> phases == [] || at < phases[0].since
  {
    if phases != [] {
      NoPhaseBefore(phases[..|phases| - 1], at);
    }
  }

  /** A moment of a wait behind `hold`; `read` says whether this look got at the stamp, which it tries without
      blocking. */
  datatype Moment = Moment(at: nat, hold: Hold, read: bool)

  function ReadAt(m: Moment): Look {
    Look(m.at, Held, if m.read then StampAt(m.hold, m.at) else None)
  }

  function ReadAll(moments: seq<Moment>): seq<Look> {
    seq(|moments|, k requires 0 <= k < |moments| => ReadAt(moments[k]))
  }

  /** The holder really is past a ceiling: of the phase it is in, or, in no phase, the running one since it last
      was in none. */
  predicate TrulyWedged(m: Moment, policy: Policy) {
    var stamp := StampAt(m.hold, m.at);
    if stamp.Some? then Elapsed(stamp.value.since, m.at) >= Ceiling(policy, stamp.value.phase)
    else Elapsed(if m.at >= m.hold.cleared then m.hold.cleared else m.hold.taken, m.at) >= policy.runningAfter
  }

  predicate SaysWedged(v: Option<Outcome>) {
    v.Some? && v.value.Refused? && v.value.wedged
  }

  /** Why a look has no stamp to go by: it did not get at the record, or the owner never stamps, has taken the engine
      and not stamped yet, or has cleared its stamp and not let go yet. */
  predicate HasNoStamp(m: Moment) {
    !m.read || m.hold.phases == [] || m.at < m.hold.phases[0].since || m.at >= m.hold.cleared
  }

  lemma HasNoStampIff(m: Moment)
    requires InOrder(m.hold)
    ensures HasNoStamp(m) <==> ReadAt(m).holder.None?
  {
    NoPhaseBefore(m.hold.phases, m.at);
    hide PhaseAt;
  }

  /** The wedge verdict tells the truth about the holder if and only if there was a stamp to read, or the waiter's own
      wait happens to stand on the same side of the running ceiling as the holder stands of its own. */
  lemma WedgeVerdictIsTrueIff(m: Moment, start: nat, policy: Policy, patience: Patience)
    requires InOrder(m.hold)
    ensures (SaysWedged(Verdict(ReadAt(m), start, policy, patience)) <==> TrulyWedged(m, policy))
            <==> !HasNoStamp(m) || (TrulyWedged(m, policy) <==> Elapsed(start, m.at) >= policy.runningAfter)
  {
    HasNoStampIff(m);
    hide PhaseAt;
  }

  predicate UnstampedPastTheCeiling(m: Moment, start: nat, policy: Policy) {
    HasNoStamp(m) && Elapsed(start, m.at) >= policy.runningAfter
  }

  /** At one look: a holder within its ceiling is refused as wedged if and only if the look has no stamp to go by and
      the waiter is past the running ceiling. Any other refusal is the caller's own limit. */
  lemma HealthyHolderIsRefusedIff(m: Moment, start: nat, policy: Policy, patience: Patience)
    requires InOrder(m.hold) && !TrulyWedged(m, policy)
    ensures SaysWedged(Verdict(ReadAt(m), start, policy, patience)) <==> UnstampedPastTheCeiling(m, start, policy)
    ensures patience == UntilTheHolderIsWedged ==>
              (Verdict(ReadAt(m), start, policy, patience).Some? <==> UnstampedPastTheCeiling(m, start, policy))
  {
    HasNoStampIff(m);
    hide PhaseAt;
  }

  /** Behind healthy holders, whatever they do and however many they are, a patient waiter is refused if and only if
      some look past the running ceiling had no stamp to go by; the refusal then says "wedged" of a healthy holder. */
  lemma HealthyWaitIsRefusedIff(moments: seq<Moment>, start: nat, policy: Policy)
    requires forall k | 0 <= k < |moments| :: InOrder(moments[k].hold) && !TrulyWedged(moments[k], policy)
    ensures !UndecidedFor(ReadAll(moments), start, policy, UntilTheHolderIsWedged, |moments|)
            <==> exists k :: 0 <= k < |moments| && UnstampedPastTheCeiling(moments[k], start, policy)
    ensures forall k | 0 <= k < |moments| && UnstampedPastTheCeiling(moments[k], start, policy) ::
              Verdict(ReadAll(moments)[k], start, policy, UntilTheHolderIsWedged)
              == Some(Refused(Elapsed(start, moments[k].at), true))
  {
    hide StampAt, TrulyWedged, InOrder;
    var looks := ReadAll(moments);
    forall k | 0 <= k < |moments|
      ensures Verdict(looks[k], start, policy, UntilTheHolderIsWedged).Some?
              <==> UnstampedPastTheCeiling(moments[k], start, policy)
      ensures UnstampedPastTheCeiling(moments[k], start, policy) ==> looks[k].holder.None? && looks[k].lock == Held
    {
      assert looks[k] == ReadAt(moments[k]);
      HealthyHolderIsRefusedIff(moments[k], start, policy, UntilTheHolderIsWedged);
      HasNoStampIff(moments[k]);
    }
  }

  /** A waiter at tick 1000, ceilings 900 and 3600: a build begun at tick 0 and a pass begun at tick 995, each missed
      by one look; the engine just handed over, before the new owner stamps; the old owner's stamp cleared, the
      engine not let go yet; and an unload one tick old. */
  function HealthyMoments(): seq<Moment> {
    [Moment(1000, Hold(0, [Holder(Building, 0)], 2000), false),
     Moment(1000, Hold(995, [Holder(Running, 995)], 2000), false),
     Moment(1000, Hold(1000, [Holder(Running, 1001)], 2000), true),
     Moment(1000, Hold(995, [Holder(Running, 995)], 1000), true),
     Moment(1000, Hold(999, [], 999), true)]
  }

  /** Each of these holders is healthy and refused; a stamp that is read keeps the first two from it. */
  lemma MissedStampRefusesAHealthyHolder()
    ensures var policy := Policy(900, 3600, None);
            && (forall m | m in HealthyMoments() ::
                  InOrder(m.hold) && !TrulyWedged(m, policy)
                  && Verdict(ReadAt(m), 0, policy, UntilTheHolderIsWedged) == Some(Refused(1000, true)))
            && forall m | m in HealthyMoments()[..2] ::
                 Verdict(ReadAt(m.(read := true)), 0, policy, UntilTheHolderIsWedged) == None
  {
    var policy := Policy(900, 3600, None);
    forall m | m in HealthyMoments()
      ensures InOrder(m.hold) && !TrulyWedged(m, policy)
      ensures Verdict(ReadAt(m), 0, policy, UntilTheHolderIsWedged) == Some(Refused(1000, true))
    {
      assert m.hold.phases == [] || PhaseAt(m.hold.phases, 1000).Some? || m.hold.phases[0].since > 1000;
    }
  }

  /** Unbounded patience has no bound against successive holders: for every number of looks there is a stretch of
      freshly stamped holders that leaves the waiter undecided. */
  lemma SuccessiveHoldersCanStarve(n: nat, start: nat, poll: nat, policy: Policy)
    requires policy.runningAfter > 0
    ensures exists looks: seq<Look> ::
              |looks| == n && Paced(looks, start, poll, 0)
              && UndecidedFor(looks, start, policy, UntilTheHolderIsWedged, n)
  {
    var looks := seq(n, k requires 0 <= k =>
      Look(TickAt(start, poll, k), Held, Some(Holder(Running, TickAt(start, poll, k)))));
    forall k, l | 0 <= k && l == k + 1 && l < |looks| ensures looks[l].at == looks[k].at + poll {
      Distribute(k, 1, poll);
    }
    assert Paced(looks, start, poll, 0);
    assert UndecidedFor(looks, start, policy, UntilTheHolderIsWedged, n);
  }

  function TickAt(start: nat, poll: nat, k: nat): nat {
    start + k * poll
  }

  // ---------- the watchdog ----------

  datatype Action = Nothing | Report | Exit

  function WedgeAction(phase: Phase, elapsed: nat, policy: Policy): Action {
    var ceiling := Ceiling(policy, phase);
    if elapsed < ceiling then Nothing
    else if policy.exitAfterWedged.Some? && elapsed >= ceiling + policy.exitAfterWedged.value then Exit
    else Report
  }

  /** The watchdog reports exactly the holders a waiter looking at the same moment refuses as wedged, and it never
      exits before the ceiling and the exit delay have both passed, nor without the opt-in. */
  lemma WatchdogAgreesWithTheWaiter(look: Look, start: nat, policy: Policy, patience: Patience)
    requires look.lock == Held && look.holder.Some?
    ensures var h := look.holder.value;
            var action := WedgeAction(h.phase, Elapsed(h.since, look.at), policy);
            && (action != Nothing
                <==> Verdict(look, start, policy, patience) == Some(Refused(HeldFor(look, start), true)))
            && (action == Exit
                <==> (policy.exitAfterWedged.Some?
                      && Elapsed(h.since, look.at) >= Ceiling(policy, h.phase) + policy.exitAfterWedged.value))
  {
  }

  /** One tick's view of both engines: what each is doing and for how long. */
  type Tick = seq<Option<(Phase, nat)>>

  function ActionAt(ticks: seq<Tick>, policy: Policy, i: nat, engine: nat): Action
    requires i < |ticks| && engine < |ticks[i]|
  {
    var seen := ticks[i][engine];
    if seen.None? then Nothing else WedgeAction(seen.value.0, seen.value.1, policy)
  }

  /** A run of reported ticks begins: reported now, not reported at the tick before. */
  predicate Begins(ticks: seq<Tick>, policy: Policy, i: nat, engine: nat)
    requires i < |ticks| && forall k | 0 <= k < |ticks| :: |ticks[k]| == 2
    requires engine < 2
  {
    ActionAt(ticks, policy, i, engine) == Report && (i == 0 || ActionAt(ticks, policy, i - 1, engine) != Report)
  }

  predicate Earlier(x: (nat, nat), y: (nat, nat)) {
    x.0 < y.0 || (x.0 == y.0 && x.1 < y.1)
  }

  /** The lines written before `upTo` are the runs begun before it, each once, and no exit was due by then. */
  ghost predicate Reported(ticks: seq<Tick>, policy: Policy, lines: seq<(nat, nat)>, upTo: (nat, nat))
    requires forall k | 0 <= k < |ticks| :: |ticks[k]| == 2
  {
    && (forall i: nat, e: nat | i < |ticks| && e < 2 && Earlier((i, e), upTo) ::
          ((i, e) in lines <==> Begins(ticks, policy, i, e)) && ActionAt(ticks, policy, i, e) != Exit)
    && (forall x | x in lines :: x.0 < |ticks| && x.1 < 2 && Earlier(x, upTo))
    && forall j, k | 0 <= j < k < |lines| :: lines[j] != lines[k]
  }

  lemma EngineSeen(ticks: seq<Tick>, policy: Policy, lines: seq<(nat, nat)>, i: nat, e: nat, after: seq<(nat, nat)>)
    requires forall k | 0 <= k < |ticks| :: |ticks[k]| == 2
    requires i < |ticks| && e < 2 && Reported(ticks, policy, lines, (i, e)) && ActionAt(ticks, policy, i, e) != Exit
    requires after == if Begins(ticks, policy, i, e) then lines + [(i, e)] else lines
    ensures Reported(ticks, policy, after, (i, e + 1))
  {
    hide Begins, ActionAt;
    forall d: nat, f: nat | d < |ticks| && f < 2 && Earlier((d, f), (i, e + 1))
      ensures (d, f) in after <==> Begins(ticks, policy, d, f)
    {
      if Earlier((d, f), (i, e)) {
        assert (d, f) in lines <==> Begins(ticks, policy, d, f);
      } else {
        assert d == i && f == e;
        assert (i, e) !in lines;
      }
    }
  }

  lemma TickSeen(ticks: seq<Tick>, policy: Policy, lines: seq<(nat, nat)>, i: nat)
    requires forall k | 0 <= k < |ticks| :: |ticks[k]| == 2
    requires Reported(ticks, policy, lines, (i, 2))
    ensures Reported(ticks, policy, lines, (i + 1, 0))
  {
    hide Begins, ActionAt;
    forall d: nat, f: nat | d < |ticks| && f < 2 && Earlier((d, f), (i + 1, 0)) ensures Earlier((d, f), (i, 2)) {
    }
  }

  /** The watchdog loop: of each unbroken run of ticks that report an engine the first is announced, until an exit
      ends the loop at the first engine that is due one. The loop does not look at who the holder is, so another
      holder already wedged at the very next tick continues the run and gets no line. */
  method Watch(ticks: seq<Tick>, policy: Policy) returns (lines: seq<(nat, nat)>, exitAt: Option<(nat, nat)>)
    requires forall k | 0 <= k < |ticks| :: |ticks[k]| == 2
    ensures Reported(ticks, policy, lines, if exitAt.Some? then exitAt.value else (|ticks|, 0))
    ensures exitAt.Some? ==> exitAt.value.0 < |ticks| && exitAt.value.1 < 2
                             && ActionAt(ticks, policy, exitAt.value.0, exitAt.value.1) == Exit
  {
    hide Reported;
    lines := [];
    var announced := new bool[2](_ => false);
    NothingReported(ticks, policy);
    for i := 0 to |ticks|
      invariant Reported(ticks, policy, lines, (i, 0))
      invariant forall f | 0 <= f < 2 :: announced[f] <==> i > 0 && ActionAt(ticks, policy, i - 1, f) == Report
    {
      for e := 0 to 2
        invariant Reported(ticks, policy, lines, (i, e))
        invariant forall f | 0 <= f < e :: announced[f] <==> ActionAt(ticks, policy, i, f) == Report
        invariant forall f | e <= f < 2 :: announced[f] <==> i > 0 && ActionAt(ticks, policy, i - 1, f) == Report
      {
        ghost var before := lines;
        var seen := ticks[i][e];
        if seen.None? {
          announced[e] := false;
        } else {
          match WedgeAction(seen.value.0, seen.value.1, policy)
          case Nothing => announced[e] := false;
          case Report =>
            if !announced[e] {
              announced[e] := true;
              lines := lines + [(i, e)];
            }
          case Exit => return lines, Some((i, e));
        }
        EngineSeen(ticks, policy, before, i, e, lines);
      }
      TickSeen(ticks, policy, lines, i);
    }
    exitAt := None;
  }

  lemma NothingReported(ticks: seq<Tick>, policy: Policy)
    requires forall k | 0 <= k < |ticks| :: |ticks[k]| == 2
    ensures Reported(ticks, policy, [], (0, 0))
  {
  }
}
