/**
Does the raise of an expired fan lease last? A load replaces the fabric and writes the saved
registers back, so what it leaves of the raise depends on when it began and how it ends.
*/
module FanRaise {
  import opened Wrappers
  import opened RegisterAccess
  import opened FanLease

  /** An event that writes the fan duty from outside a load. */
  predicate FanChange(e: Event) {
    (e.Write? && e.reg == REG_FAN_DUTY) || e.TickAct?
  }

  /** What a load does to the duty: it writes back the one it saved (None: the one it found when
      it began) if it passes its checks, and leaves that of the new fabric if it does not. */
  datatype Load = Load(saved: Option<nat>, passed: bool, fabric: nat)

  function Leaves(l: Load, found: nat): nat {
    if !l.passed then l.fabric else if l.saved.Some? then l.saved.value else found
  }

  function Through(found: nat, loads: seq<Load>): nat
    decreases |loads|
  {
    if loads == [] then found else Through(Leaves(loads[0], found), loads[1..])
  }

  function SavedDuty(given: Option<Regs>): Option<nat> {
    match given
    case None => None
    case Some(regs) => Some(Duty(regs))
  }

  /** The loads whose loader returns in a run; `saved` is what the one under way has saved. */
  function LoadsIn(es: seq<Event>, saved: Option<nat>): seq<Load> {
    if es == [] then []
    else match es[0]
      case LoadBegin(given) => LoadsIn(es[1..], SavedDuty(given))
      case LoaderReturns(fabric, ok, build) =>
        [Load(saved, CheckedBuild(fabric, ok, build), Duty(fabric))] + LoadsIn(es[1..], None)
      case _ => LoadsIn(es[1..], saved)
  }

  /** The loads after a state, one that is under way among them. */
  function LoadsAfter(s: State, es: seq<Event>): seq<Load> {
    match s.phase
    case Returned(_, good) => (if good then [Load(Some(Duty(s.saved)), true, 0)] else []) + LoadsIn(es, None)
    case Begun => LoadsIn(es, Some(Duty(s.saved)))
    case Running(_) => LoadsIn(es, Some(Duty(s.saved)))
    case _ => LoadsIn(es, None)
  }

  function DutyInTheEnd(s: State, es: seq<Event>): nat {
    Through(Duty(s.regs), LoadsAfter(s, es))
  }

  lemma ThroughOne(found: nat, l: Load, loads: seq<Load>)
    ensures Through(found, [l] + loads) == Through(Leaves(l, found), loads)
  {
    assert ([l] + loads)[1..] == loads;
  }

  /** Which of the two saved values a load under way has does not matter if they are the same. */
  lemma {:induction false} SameFound(s: State, es: seq<Event>, found: nat)
    requires Valid(s, es) && (s.phase.Begun? || s.phase.Running?)
    ensures Through(found, LoadsIn(es, Some(found))) == Through(found, LoadsIn(es, None))
    decreases es
  {
    if es != [] {
      match es[0]
      case LoadBegin(given) =>
      case LoaderReturns(fabric, ok, build) =>
        ThroughOne(found, Load(Some(found), CheckedBuild(fabric, ok, build), Duty(fabric)), LoadsIn(es[1..], None));
        ThroughOne(found, Load(None, CheckedBuild(fabric, ok, build), Duty(fabric)), LoadsIn(es[1..], None));
      case _ =>
        assert Valid(Step(s, es[0]), es[1..]);
        PhaseGoesOn(s, es[0]);
        SameFound(Step(s, es[0]), es[1..], found);
    }
  }

  lemma PhaseGoesOn(s: State, e: Event)
    requires Enabled(s, e) && (s.phase.Begun? || s.phase.Running?) && !e.LoaderReturns?
    ensures Step(s, e).phase.Begun? || Step(s, e).phase.Running?
  {
  }

  predicate LoadEvent(e: Event) {
    e.LoadBegin? || e.LoaderReturns? || e.WriteBack? || e.LoadEnd?
  }

  lemma OtherDuty(s: State, e: Event)
    requires Enabled(s, e) && !FanChange(e) && !LoadEvent(e)
    ensures Step(s, e).regs == s.regs || (e.Write? && Step(s, e).regs == Poke(s.regs, e.reg, e.value))
    ensures Duty(Step(s, e).regs) == Duty(s.regs)
  {
  }

  lemma OtherStep(s: State, e: Event)
    requires Enabled(s, e) && !FanChange(e) && !LoadEvent(e)
    ensures Step(s, e).saved == s.saved
    ensures Step(s, e).phase == s.phase || (s.phase.Begun? && Step(s, e).phase.Running?)
  {
  }

  lemma DutyRestored(regs: Regs, saved: Regs)
    ensures Duty(Restored(regs, saved)) == Duty(saved)
  {
  }

  lemma DutySaved(regs: Regs)
    ensures Duty(Snapshot(regs)) == Duty(regs)
  {
  }

  lemma BeginStep(s: State, e: Event, rest: seq<Event>)
    requires Enabled(s, e) && e.LoadBegin? && Valid(Step(s, e), rest)
    ensures DutyInTheEnd(Step(s, e), rest) == Through(Duty(s.regs), LoadsIn(rest, SavedDuty(e.given)))
  {
    DutySaved(s.regs);
    if e.given.None? {
      SameFound(Step(s, e), rest, Duty(s.regs));
    }
  }

  lemma ReturnStep(s: State, e: Event, rest: seq<Event>)
    requires Enabled(s, e) && e.LoaderReturns?
    ensures DutyInTheEnd(Step(s, e), rest)
         == var load := Load(Some(Duty(s.saved)), CheckedBuild(e.fabric, e.ok, e.build), Duty(e.fabric));
            Through(Leaves(load, Duty(s.regs)), LoadsIn(rest, None))
  {
    if CheckedBuild(e.fabric, e.ok, e.build) {
      ThroughOne(Duty(e.fabric), Load(Some(Duty(s.saved)), true, 0), LoadsIn(rest, None));
    } else {
      assert [] + LoadsIn(rest, None) == LoadsIn(rest, None);
    }
  }

  lemma BackStep(s: State, e: Event, rest: seq<Event>)
    requires Enabled(s, e) && e.WriteBack?
    ensures DutyInTheEnd(Step(s, e), rest) == Through(Duty(s.saved), LoadsIn(rest, None))
    ensures DutyInTheEnd(s, [e] + rest) == Through(Duty(s.saved), LoadsIn(rest, None))
  {
    DutyRestored(s.regs, s.saved);
    assert ([e] + rest)[1..] == rest;
    ThroughOne(Duty(s.regs), Load(Some(Duty(s.saved)), true, 0), LoadsIn([e] + rest, None));
  }

  lemma EndStep(s: State, e: Event, rest: seq<Event>)
    requires Enabled(s, e) && e.LoadEnd?
    ensures DutyInTheEnd(Step(s, e), rest) == Through(Duty(s.regs), LoadsIn(rest, None))
    ensures DutyInTheEnd(s, [e] + rest) == Through(Duty(s.regs), LoadsIn(rest, None))
  {
    assert ([e] + rest)[1..] == rest;
    assert [] + LoadsIn([e] + rest, None) == LoadsIn([e] + rest, None);
  }

  lemma OtherLoads(s: State, e: Event, rest: seq<Event>)
    requires Enabled(s, e) && !FanChange(e) && !LoadEvent(e)
    ensures DutyInTheEnd(Step(s, e), rest) == DutyInTheEnd(s, [e] + rest)
  {
    OtherDuty(s, e);
    OtherStep(s, e);
    assert ([e] + rest)[1..] == rest;
  }

  /** An event that is no write to the fan leaves what the duty will be. */
  lemma DutyStep(s: State, e: Event, rest: seq<Event>)
    requires Enabled(s, e) && !FanChange(e) && Valid(Step(s, e), rest)
    ensures DutyInTheEnd(Step(s, e), rest) == DutyInTheEnd(s, [e] + rest)
  {
    assert ([e] + rest)[1..] == rest;
    if e.LoadBegin? {
      BeginStep(s, e, rest);
    } else if e.LoaderReturns? {
      ReturnStep(s, e, rest);
      ThroughOne(Duty(s.regs), Load(Some(Duty(s.saved)), CheckedBuild(e.fabric, e.ok, e.build), Duty(e.fabric)),
                 LoadsIn(rest, None));
    } else if e.WriteBack? {
      BackStep(s, e, rest);
    } else if e.LoadEnd? {
      EndStep(s, e, rest);
    } else {
      OtherLoads(s, e, rest);
    }
  }

  /** Over every interleaving without a write to the fan, and any number of loads, that is the
      duty in the end. */
  lemma {:induction false} DutyAtTheEnd(s: State, es: seq<Event>)
    requires Valid(s, es) && Without(es, FanChange) && Play(s, es).phase.NoLoad?
    ensures Duty(Play(s, es).regs) == DutyInTheEnd(s, es)
    decreases es
  {
    if es != [] {
      assert es[0] in es && forall e <- es[1..] :: e in es;
      assert [es[0]] + es[1..] == es;
      DutyStep(s, es[0], es[1..]);
      DutyAtTheEnd(Step(s, es[0]), es[1..]);
    }
  }

  /** Whatever duty it finds, it leaves one below the safe duty. */
  predicate Lowers(l: Load) {
    if l.passed then l.saved.Some? && l.saved.value < SAFE_FAN_DUTY else l.fabric < SAFE_FAN_DUTY
  }

  /** It leaves the duty it finds. */
  predicate Keeps(l: Load) {
    l.passed && l.saved.None?
  }

  /** Some load lowers the fan, and all after it keep what they find. */
  ghost predicate Lowered(loads: seq<Load>) {
    exists k | 0 <= k < |loads| :: LowersLast(loads, k)
  }

  predicate LowersLast(loads: seq<Load>, k: nat)
    requires k < |loads|
  {
    Lowers(loads[k]) && forall j | k < j < |loads| :: Keeps(loads[j])
  }

  lemma {:induction false} ThroughLast(found: nat, loads: seq<Load>)
    requires loads != []
    ensures Through(found, loads) == Leaves(loads[|loads| - 1], Through(found, loads[..|loads| - 1]))
    decreases |loads|
  {
    if |loads| == 1 {
      assert loads[..0] == [] && loads[1..] == [];
    } else {
      ThroughLast(Leaves(loads[0], found), loads[1..]);
      assert loads[1..][..|loads| - 2] == loads[..|loads| - 1][1..];
    }
  }

  lemma {:induction false} ThroughIff(found: nat, loads: seq<Load>)
    requires found >= SAFE_FAN_DUTY
    ensures Through(found, loads) >= SAFE_FAN_DUTY <==> !Lowered(loads)
  {
    if loads != [] {
      var front, last := loads[..|loads| - 1], loads[|loads| - 1];
      ThroughLast(found, loads);
      ThroughIff(found, front);
      if Keeps(last) {
        if k: nat :| k < |front| && LowersLast(front, k) {
          assert LowersLast(loads, k);
        }
        if k: nat :| k < |loads| && LowersLast(loads, k) {
          assert LowersLast(front, k);
        }
      } else {
        if Lowers(last) {
          assert LowersLast(loads, |loads| - 1);
        }
      }
    }
  }

  /** Main result. After the watchdog's act, and over every run that writes nothing else to the
      fan, with any number of loads - one under way at the act, a rollback's with older saved
      registers, later ones - the fan is still at 128 or more when no load is under way, exactly
      if no load lowers it with all later ones keeping what they find. A load lowers it if it
      passes its checks and had saved, or was handed, a lower duty before the act; or if it
      fails them and its fabric has one. */
  lemma RaiseLastsIff(act: State, es: seq<Event>)
    requires Enabled(act, TickAct) && Valid(Step(act, TickAct), es) && Without(es, FanChange)
    requires Play(Step(act, TickAct), es).phase.NoLoad?
    ensures Duty(Play(Step(act, TickAct), es).regs) >= SAFE_FAN_DUTY <==> !Lowered(LoadsAfter(act, es))
  {
    var raised := Step(act, TickAct);
    ExpiryRaises(act);
    DutyAtTheEnd(raised, es);
    ThroughIff(Duty(raised.regs), LoadsAfter(raised, es));
  }

  // ---- two ways to lose it ---------------------------------------------------------------

  /** The loader returned well, the registers written back, the load ended: the saved duty. */
  lemma LoadTail(s: State, fabric: Regs, now: real)
    requires s.phase.Running? && RegFile(s.saved) && RegFile(fabric) && Peek(fabric, REG_ID) == BOARD_ID
    ensures var es := [LoaderReturns(fabric, true, None)] + LoadEnding(fabric, true, None, now);
            && Valid(s, es) && Duty(Play(s, es).regs) == Duty(s.saved) && Play(s, es).leases.Keys == s.leases.Keys
  {
    ReturnPlays(s, fabric, true, None, now);
    DutyRestored(fabric, s.saved);
  }

  /** The tick tests before a load begins, and acts in it. */
  lemma ExpiryCrossesBegin(s: State, tick: real)
    requires s.phase.NoLoad? && RemovalDue(REG_FAN_DUTY) in s.stale && RegFile(s.regs)
    ensures var es := [TickPop(REG_FAN_DUTY), LoadBegin(None)] + [LoadTimed(tick), TickAct];
            && Valid(s, es) && Play(s, es).phase.Running? && REG_FAN_DUTY !in Play(s, es).leases
            && RegFile(Play(s, es).saved) && Duty(Play(s, es).saved) == Duty(s.regs)
  {
    PopStep(s);
    PlayTwo(s, TickPop(REG_FAN_DUTY), LoadBegin(None));
    var begun := Play(s, [TickPop(REG_FAN_DUTY), LoadBegin(None)]);
    ActInLoad(begun, tick);
    PlayConcat(s, [TickPop(REG_FAN_DUTY), LoadBegin(None)], [LoadTimed(tick), TickAct]);
    DutySaved(s.regs);
  }

  lemma ActInLoad(begun: State, tick: real)
    requires begun.phase.Begun? && ExpirySeen in begun.stale
    ensures var es := [LoadTimed(tick), TickAct];
            && Valid(begun, es) && Play(begun, es).phase.Running?
            && Play(begun, es).saved == begun.saved && Play(begun, es).leases == begun.leases
  {
    PlayTwo(begun, LoadTimed(tick), TickAct);
  }

  /** The raise goes to a fabric about to be replaced, the load writes the old duty back, and the
      lease is gone. */
  lemma ExpiryLostInLoad(s: State, tick: real, fabric: Regs)
    requires s.phase.NoLoad? && RemovalDue(REG_FAN_DUTY) in s.stale
    requires RegFile(s.regs) && RegFile(fabric) && Peek(fabric, REG_ID) == BOARD_ID
    ensures var es := ([TickPop(REG_FAN_DUTY), LoadBegin(None)] + [LoadTimed(tick), TickAct])
                      + ([LoaderReturns(fabric, true, None)] + LoadEnding(fabric, true, None, tick));
            && Valid(s, es) && Duty(Play(s, es).regs) == Duty(s.regs) && REG_FAN_DUTY !in Play(s, es).leases
  {
    var crossed := [TickPop(REG_FAN_DUTY), LoadBegin(None)] + [LoadTimed(tick), TickAct];
    ExpiryCrossesBegin(s, tick);
    LoadTail(Play(s, crossed), fabric, tick);
    PlayConcat(s, crossed, [LoaderReturns(fabric, true, None)] + LoadEnding(fabric, true, None, tick));
  }

  /** And a raise that is not lost in a load may be undone by the next: between a failed load
      and its rollback the watchdog raises the fan, the rollback writes back the duty that was
      read before the first load, and the lease is gone. Nothing is stale when it begins. */
  lemma RaiseUndoneByRollback(s: State, tick: real, fabric: Regs)
    requires s.phase.NoLoad? && s.stale == multiset{} && REG_FAN_DUTY in s.leases && Expired(s, REG_FAN_DUTY, tick)
    requires RegFile(s.saved) && RegFile(fabric) && Peek(fabric, REG_ID) == BOARD_ID
    ensures var load := LoadEvents(Some(s.saved), tick, fabric, true, None, tick);
            var es := TickEvents(s, REG_FAN_DUTY, tick) + load;
            && Valid(s, es) && Valid(s, TickEvents(s, REG_FAN_DUTY, tick))
            && Play(s, TickEvents(s, REG_FAN_DUTY, tick)).stale == multiset{}
            && Duty(Play(s, es).regs) == Duty(s.saved) && REG_FAN_DUTY !in Play(s, es).leases
  {
    TicksPlay(s, REG_FAN_DUTY, tick);
    var raised := Play(s, TickEvents(s, REG_FAN_DUTY, tick));
    LoadPlays(raised, Some(s.saved), tick, fabric, true, None, tick);
    PlayConcat(s, TickEvents(s, REG_FAN_DUTY, tick), LoadEvents(Some(s.saved), tick, fabric, true, None, tick));
    DutyRestored(fabric, s.saved);
  }
}
