/**
The register server (`Access`): pause and resume, the load of an FPGA core, and the leases that
a watchdog ends.

Requests, the watchdog and a load run in threads of one process, so the model is a machine of
atomic steps: what one thread does under the lock is one step, and so is each thing that it does
outside. A pause or resume request tests `loading` before it takes the lock. The watchdog does
most of its work without it: it takes a snapshot of the leases and their deadlines and goes
through those that are over, one by one; for each it tests `paused()`, then removes whatever
lease the register has by then; only its act on the fan is under the lock. What has passed such a
test and has not yet acted on it is in `stale`.
*/
module RegisterAccess {
  import opened Wrappers

  const REG_ID: nat := 1
  const REG_LOOPBACK: nat := 3
  const REG_LEDS: nat := 5
  const REG_FAN_DUTY: nat := 9
  const REG_BLINKER: nat := 13
  const REG_BUILD_ID: nat := 19

  const BOARD_ID: nat := 0xDE25
  const SAFE_FAN_DUTY: nat := 128
  const WRITABLE: set<nat> := {REG_LOOPBACK, REG_LEDS, REG_FAN_DUTY, REG_BLINKER}

  // ---- the register file -----------------------------------------------------------------

  type Regs = map<nat, nat>

  function Peek(regs: Regs, r: nat): nat {
    if r in regs then regs[r] else 0
  }

  /** A 32-bit write; only four registers take it, and the fan duty has 8 bits. */
  function Poke(regs: Regs, r: nat, v: int): Regs {
    if r !in WRITABLE then regs
    else regs[r := if r == REG_FAN_DUTY then v % 256 else v % 0x1_0000_0000]
  }

  function Duty(regs: Regs): nat {
    Peek(regs, REG_FAN_DUTY) % 256
  }

  predicate RegFile(regs: Regs) {
    (forall r <- WRITABLE :: Peek(regs, r) < 0x1_0000_0000) && Peek(regs, REG_FAN_DUTY) < 256
  }

  /** The values of the four writable registers. */
  function Snapshot(regs: Regs): Regs {
    map r | r in WRITABLE :: Peek(regs, r)
  }

  function Restored(regs: Regs, saved: Regs): Regs {
    Poke(Poke(Poke(Poke(regs,
      REG_LOOPBACK, Peek(saved, REG_LOOPBACK)),
      REG_LEDS, Peek(saved, REG_LEDS)),
      REG_FAN_DUTY, Peek(saved, REG_FAN_DUTY)),
      REG_BLINKER, Peek(saved, REG_BLINKER))
  }

  predicate SameWritable(a: Regs, b: Regs) {
    forall r <- WRITABLE :: Peek(a, r) == Peek(b, r)
  }

  // ---- the machine -----------------------------------------------------------------------

  datatype Until = At(time: real) | Forever

  /** A load: registers paused; timed from t0; returned, with its checks passed or not;
      registers written back. */
  datatype Phase = NoLoad | Begun | Running(t0: real) | Returned(t0: real, good: bool) | WrittenBack(t0: real)

  /** Past a test: a pause and a resume request past `loading`; a register whose deadline was over
      in the watchdog's snapshot; one whose lease is to be removed; the fan, to be acted on. */
  datatype Stale = PauseAsked | ResumeAsked | Overdue(reg: nat) | RemovalDue(reg: nat) | ExpirySeen

  datatype State = State(
    pausedUntil: Until, loading: bool, leases: map<nat, real>, regs: Regs, saved: Regs,
    phase: Phase, stale: multiset<Stale>,
    touches: nat)     // accesses of the bridge by requests and the watchdog

  datatype Event =
    | Read(now: real) | CoreInfo(now: real)
    | Write(reg: nat, value: int, lease: Option<real>, now: real)
    | Release(reg: nat)
    | AskPause | SetPause(seconds: real, now: real)
    | AskResume | SetResume
    | TickSnap(reg: nat, now: real) | TickTest(reg: nat, now: real) | TickPop(reg: nat) | TickAct
    | LoadBegin(given: Option<Regs>) | LoadTimed(t0: real)
    | LoaderReturns(fabric: Regs, ok: bool, build: Option<nat>)
    | WriteBack | LoadEnd(now: real)

  predicate Paused(s: State, now: real) {
    s.pausedUntil.Forever? || now < s.pausedUntil.time
  }

  function Max(a: real, b: real): real {
    if a < b then b else a
  }

  predicate Enabled(s: State, e: Event) {
    match e
    case SetPause(_, _) => PauseAsked in s.stale
    case SetResume => ResumeAsked in s.stale
    case TickSnap(reg, _) => reg in s.leases
    case TickTest(reg, _) => Overdue(reg) in s.stale
    case TickPop(reg) => RemovalDue(reg) in s.stale
    case TickAct => ExpirySeen in s.stale
    case LoadBegin(given) => s.phase.NoLoad? && (given.Some? ==> RegFile(given.value))
    case LoadTimed(_) => s.phase.Begun?
    case LoaderReturns(fabric, _, _) => s.phase.Running? && RegFile(fabric)
    case WriteBack => s.phase.Returned? && s.phase.good
    case LoadEnd(_) => s.phase.WrittenBack? || (s.phase.Returned? && !s.phase.good)
    case _ => true
  }

  function Step(s: State, e: Event): State
    requires Enabled(s, e)
  {
    match e
    case Read(now) => if Paused(s, now) then s else s.(touches := s.touches + 1)
    case CoreInfo(now) => if Paused(s, now) then s else s.(touches := s.touches + 1)
    case Write(reg, v, lease, now) =>
      if Paused(s, now) then s
      else s.(regs := Poke(s.regs, reg, v), touches := s.touches + 1,
              leases := if lease.None? then s.leases else s.leases[reg := now + Max(1.0, lease.value)])
    case Release(reg) => s.(leases := s.leases - {reg})
    case AskPause => if s.loading then s else s.(stale := s.stale + multiset{PauseAsked})
    case AskResume => if s.loading then s else s.(stale := s.stale + multiset{ResumeAsked})
    case SetPause(seconds, now) =>
      s.(stale := s.stale - multiset{PauseAsked}, pausedUntil := At(now + if seconds < 600.0 then seconds else 600.0))
    case SetResume => s.(stale := s.stale - multiset{ResumeAsked}, pausedUntil := At(0.0))
    case TickSnap(reg, now) => if now < s.leases[reg] then s else s.(stale := s.stale + multiset{Overdue(reg)})
    case TickTest(reg, now) =>
      s.(stale := s.stale - multiset{Overdue(reg)} + if Paused(s, now) then multiset{} else multiset{RemovalDue(reg)})
    case TickPop(reg) =>
      s.(leases := s.leases - {reg},
         stale := s.stale - multiset{RemovalDue(reg)}
                  + if reg == REG_FAN_DUTY then multiset{ExpirySeen} else multiset{})
    case TickAct =>
      s.(stale := s.stale - multiset{ExpirySeen}, touches := s.touches + 1,
         regs := if Duty(s.regs) < SAFE_FAN_DUTY then Poke(s.regs, REG_FAN_DUTY, SAFE_FAN_DUTY) else s.regs)
    case LoadBegin(given) =>
      s.(saved := if given.Some? then given.value else Snapshot(s.regs),
         pausedUntil := Forever, loading := true, phase := Begun)
    case LoadTimed(t0) => s.(phase := Running(t0))
    case LoaderReturns(fabric, ok, build) =>
      s.(regs := fabric,
         phase := Returned(s.phase.t0, ok && Peek(fabric, REG_ID) == BOARD_ID
                                       && (build.None? || Peek(fabric, REG_BUILD_ID) == build.value)))
    case WriteBack => s.(regs := Restored(s.regs, s.saved), phase := WrittenBack(s.phase.t0))
    case LoadEnd(now) =>
      s.(leases := map r | r in s.leases :: s.leases[r] + (now - s.phase.t0),
         pausedUntil := At(0.0), loading := false, phase := NoLoad)
  }

  predicate Valid(s: State, es: seq<Event>)
    decreases es
  {
    es == [] || (Enabled(s, es[0]) && Valid(Step(s, es[0]), es[1..]))
  }

  function Play(s: State, es: seq<Event>): State
    requires Valid(s, es)
    decreases es
  {
    if es == [] then s else Play(Step(s, es[0]), es[1..])
  }

  lemma {:induction false} PlayConcat(s: State, a: seq<Event>, b: seq<Event>)
    requires Valid(s, a)
    ensures Valid(s, a + b) <==> Valid(Play(s, a), b)
    ensures Valid(s, a + b) ==> Play(s, a + b) == Play(Play(s, a), b)
    decreases a
  {
    if a == [] {
      assert a + b == b;
    } else {
      assert (a + b)[1..] == a[1..] + b;
      PlayConcat(Step(s, a[0]), a[1..], b);
    }
  }

  lemma PlayTwo(s: State, a: Event, b: Event)
    requires Enabled(s, a) && Enabled(Step(s, a), b)
    ensures Valid(s, [a, b]) && Play(s, [a, b]) == Step(Step(s, a), b)
  {
    PlayFirst(Step(s, a), b, []);
    PlayFirst(s, a, [b]);
    assert [b] + [] == [b] && [a] + [b] == [a, b];
  }

  lemma PlayFirst(s: State, e: Event, es: seq<Event>)
    requires Enabled(s, e) && Valid(Step(s, e), es)
    ensures Valid(s, [e] + es) && Play(s, [e] + es) == Play(Step(s, e), es)
  {
    assert ([e] + es)[1..] == es;
  }

  predicate Without(es: seq<Event>, p: Event -> bool) {
    forall e <- es :: !p(e)
  }

  // ---- a load keeps the bridge quiet -----------------------------------------------------

  /** Nobody is past a test who could end a load's pause. */
  predicate Undisturbed(stale: multiset<Stale>) {
    PauseAsked !in stale && ResumeAsked !in stale
  }

  /** The watchdog is on its way to the fan, past its last test. */
  predicate FanDue(stale: multiset<Stale>) {
    RemovalDue(REG_FAN_DUTY) in stale || ExpirySeen in stale
  }

  /** A load under way that keeps its pause. */
  predicate Sheltered(s: State) {
    !s.phase.NoLoad? && s.pausedUntil.Forever? && s.loading && Undisturbed(s.stale)
  }

  lemma ShelteredStep(s: State, e: Event)
    requires Sheltered(s) && Enabled(s, e) && !e.LoadEnd?
    ensures Sheltered(Step(s, e)) && Step(s, e).saved == s.saved
    ensures !FanDue(s.stale) ==> !FanDue(Step(s, e).stale) && Step(s, e).touches == s.touches && !e.TickAct?
    ensures !e.TickAct? && !e.LoaderReturns? && !e.WriteBack? ==> Step(s, e).regs == s.regs
    ensures forall r <- Step(s, e).leases :: r in s.leases && Step(s, e).leases[r] == s.leases[r]
    ensures Step(s, e).phase == s.phase || e.LoadTimed? || e.LoaderReturns? || e.WriteBack?
  {
  }

  /** Until it ends, a load that nobody disturbs keeps its pause, its saved registers and - but
      for removals - the leases; and if the watchdog is not on its way to the fan, no request and
      no tick touches the bridge. */
  lemma {:induction false} LoadStaysSheltered(s: State, es: seq<Event>)
    requires Sheltered(s) && Valid(s, es) && Without(es, (e: Event) => e.LoadEnd?)
    ensures var f := Play(s, es);
            && Sheltered(f) && f.saved == s.saved
            && (forall r <- f.leases :: r in s.leases && f.leases[r] == s.leases[r])
            && (!FanDue(s.stale) ==> f.touches == s.touches)
    ensures Without(es, (e: Event) => e.LoaderReturns?) && !s.phase.Returned? && !FanDue(s.stale) ==>
              Play(s, es).regs == s.regs
    decreases es
  {
    if es != [] {
      assert es[0] in es && forall e <- es[1..] :: e in es;
      ShelteredStep(s, es[0]);
      LoadStaysSheltered(Step(s, es[0]), es[1..]);
    }
  }

  /** From `b`, the beginning of a load, nothing touches the bridge or ends the pause until
      the loader returns - whatever the other threads do. */
  ghost predicate Quiet(b: State) {
    forall es: seq<Event> | Valid(b, es) && Without(es, (e: Event) => e.LoaderReturns?) ::
      Play(b, es).touches == b.touches && Play(b, es).pausedUntil == Forever && Play(b, es).regs == b.regs
  }

  lemma {:induction false} NoReturnNoEnd(s: State, es: seq<Event>)
    requires Valid(s, es) && (s.phase.Begun? || s.phase.Running?)
    requires Without(es, (e: Event) => e.LoaderReturns?)
    ensures Without(es, (e: Event) => e.LoadEnd?)
    ensures Play(s, es).phase.Begun? || Play(s, es).phase.Running?
    decreases es
  {
    if es != [] {
      assert es[0] in es && forall e <- es[1..] :: e in es;
      NoReturnNoEnd(Step(s, es[0]), es[1..]);
      forall e <- es
        ensures !e.LoadEnd?
      {
        assert e == es[0] || e in es[1..];
      }
    }
  }

  lemma PlayOne(s: State, e: Event)
    requires Enabled(s, e)
    ensures Valid(s, [e]) && Play(s, [e]) == Step(s, e)
  {
    PlayFirst(s, e, []);
    assert [e] + [] == [e];
  }

  lemma NotQuiet(b: State)
    requires !Undisturbed(b.stale) || FanDue(b.stale)
    ensures !Quiet(b)
  {
    if !Undisturbed(b.stale) {
      var end := if PauseAsked in b.stale then SetPause(0.0, 0.0) else SetResume;
      PlayOne(b, end);
      assert Without([end], (e: Event) => e.LoaderReturns?);
    } else if ExpirySeen in b.stale {
      PlayOne(b, TickAct);
      assert Without([TickAct], (e: Event) => e.LoaderReturns?);
    } else {
      ActPlays(b);
      assert Without([TickPop(REG_FAN_DUTY), TickAct], (e: Event) => e.LoaderReturns?);
    }
  }

  /** Main result. A load is quiet until its loader returns exactly when, as it begins, no
      pause or resume request is past its test and the watchdog not on its way to the fan. */
  lemma LoadIsQuietIff(s: State, given: Option<Regs>)
    requires Enabled(s, LoadBegin(given))
    ensures Quiet(Step(s, LoadBegin(given))) <==> Undisturbed(s.stale) && !FanDue(s.stale)
  {
    var b := Step(s, LoadBegin(given));
    if Undisturbed(s.stale) && !FanDue(s.stale) {
      forall es: seq<Event> | Valid(b, es) && Without(es, (e: Event) => e.LoaderReturns?)
        ensures Play(b, es).touches == b.touches && Play(b, es).pausedUntil == Forever && Play(b, es).regs == b.regs
      {
        NoReturnNoEnd(b, es);
        LoadStaysSheltered(b, es);
      }
    } else {
      NotQuiet(b);
    }
  }

  // ---- what a load gives back ------------------------------------------------------------

  lemma RestoredIs(regs: Regs, saved: Regs)
    requires RegFile(saved)
    ensures SameWritable(Restored(regs, saved), saved)
  {
  }

  /** A run of a load to the point where it has written the registers back and ends. */
  ghost predicate Succeeds(b: State, es: seq<Event>) {
    Valid(b, es) && Without(es, (e: Event) => e.LoadEnd?) && Play(b, es).phase.WrittenBack?
  }

  /** However a load from `b` succeeds, it ends with these registers. */
  ghost predicate AlwaysRestores(b: State, regs: Regs) {
    forall es, now | Succeeds(b, es) :: SameWritable(Step(Play(b, es), LoadEnd(now)).regs, regs)
  }

  /** What the watchdog may still do to the fan leaves these registers as they are. */
  predicate FanLeft(stale: multiset<Stale>, regs: Regs) {
    FanDue(stale) ==> Duty(regs) >= SAFE_FAN_DUTY
  }

  lemma ActLeaves(regs: Regs, saved: Regs)
    requires SameWritable(regs, saved) && RegFile(saved) && Duty(saved) >= SAFE_FAN_DUTY
    ensures Duty(regs) >= SAFE_FAN_DUTY
  {
    assert REG_FAN_DUTY in WRITABLE;
  }

  /** Once the registers are written back they stay so until the load ends. */
  lemma {:induction false} LoadWritesBack(s: State, es: seq<Event>)
    requires Sheltered(s) && RegFile(s.saved) && Valid(s, es) && Without(es, (e: Event) => e.LoadEnd?)
    requires FanLeft(s.stale, s.saved) && (s.phase.WrittenBack? ==> SameWritable(s.regs, s.saved))
    ensures Play(s, es).phase.WrittenBack? ==> SameWritable(Play(s, es).regs, s.saved)
    decreases es
  {
    if es != [] {
      assert es[0] in es && forall e <- es[1..] :: e in es;
      ShelteredStep(s, es[0]);
      if es[0].WriteBack? {
        RestoredIs(s.regs, s.saved);
      } else if es[0].TickAct? && s.phase.WrittenBack? {
        ActLeaves(s.regs, s.saved);
      }
      LoadWritesBack(Step(s, es[0]), es[1..]);
    }
  }

  const GOOD_FABRIC: Regs := map[REG_ID := BOARD_ID]

  /** The shortest load that succeeds. */
  lemma PlainLoad(b: State)
    requires b.phase.Begun? && RegFile(b.saved)
    ensures var es := [LoadTimed(0.0), LoaderReturns(GOOD_FABRIC, true, None)] + [WriteBack];
            && Valid(b, es)
            && Play(b, es) == b.(phase := WrittenBack(0.0), regs := Restored(GOOD_FABRIC, b.saved))
  {
    var timed := Step(b, LoadTimed(0.0));
    var returned := Step(timed, LoaderReturns(GOOD_FABRIC, true, None));
    PlayTwo(b, LoadTimed(0.0), LoaderReturns(GOOD_FABRIC, true, None));
    PlayOne(returned, WriteBack);
    PlayConcat(b, [LoadTimed(0.0), LoaderReturns(GOOD_FABRIC, true, None)], [WriteBack]);
  }

  function Other(v: nat): nat {
    if v == 0 then 1 else 0
  }

  /** A pause or resume request past its test ends a load's pause. */
  predicate Ends(e: Event, stale: multiset<Stale>) {
    (e == SetPause(0.0, 0.0) && PauseAsked in stale) || (e == SetResume && ResumeAsked in stale)
  }

  lemma PauseEnds(w: State, e: Event)
    requires Ends(e, w.stale)
    ensures Enabled(w, e)
    ensures var n := Step(w, e);
            && !Paused(n, 0.0) && n.phase == w.phase && n.regs == w.regs && n.saved == w.saved && n.leases == w.leases
  {
  }

  /** What spoils the registers once they are written back. */
  function Spoiling(b: State): seq<Event> {
    var leds := Write(REG_LEDS, Other(Peek(b.saved, REG_LEDS)), None, 0.0);
    if PauseAsked in b.stale then [SetPause(0.0, 0.0), leds]
    else if ResumeAsked in b.stale then [SetResume, leds]
    else if ExpirySeen in b.stale then [TickAct]
    else [TickPop(REG_FAN_DUTY), TickAct]
  }

  /** `es` leads from `w` to other registers, before the load has ended. */
  ghost predicate Changes(w: State, es: seq<Event>, saved: Regs) {
    && Valid(w, es) && Play(w, es).phase.WrittenBack? && !SameWritable(Play(w, es).regs, saved)
    && Without(es, (e: Event) => e.LoadEnd?)
  }

  lemma WriteSpoils(w: State, end: Event)
    requires w.phase.WrittenBack? && Ends(end, w.stale)
    ensures Changes(w, [end, Write(REG_LEDS, Other(Peek(w.saved, REG_LEDS)), None, 0.0)], w.saved)
  {
    assert REG_LEDS in WRITABLE;
    PauseEnds(w, end);
    PlayTwo(w, end, Write(REG_LEDS, Other(Peek(w.saved, REG_LEDS)), None, 0.0));
  }

  lemma ActSpoils(w: State)
    requires w.phase.WrittenBack? && ExpirySeen in w.stale && Peek(w.saved, REG_FAN_DUTY) < SAFE_FAN_DUTY
    requires Duty(w.regs) == Duty(w.saved)
    ensures Changes(w, [TickAct], w.saved)
  {
    assert REG_FAN_DUTY in WRITABLE;
    PlayOne(w, TickAct);
  }

  lemma PopSpoils(w: State)
    requires w.phase.WrittenBack? && RemovalDue(REG_FAN_DUTY) in w.stale && Peek(w.saved, REG_FAN_DUTY) < SAFE_FAN_DUTY
    requires Duty(w.regs) == Duty(w.saved)
    ensures Changes(w, [TickPop(REG_FAN_DUTY), TickAct], w.saved)
  {
    var popped := Step(w, TickPop(REG_FAN_DUTY));
    assert ExpirySeen in popped.stale;
    ActSpoils(popped);
    PlayOne(popped, TickAct);
    PlayFirst(w, TickPop(REG_FAN_DUTY), [TickAct]);
    assert [TickPop(REG_FAN_DUTY)] + [TickAct] == [TickPop(REG_FAN_DUTY), TickAct];
  }

  lemma Spoils(b: State, w: State)
    requires w.phase.WrittenBack? && w.stale == b.stale && w.saved == b.saved && RegFile(b.saved)
    requires SameWritable(w.regs, b.saved)
    requires !Undisturbed(b.stale) || !FanLeft(b.stale, b.saved)
    ensures Changes(w, Spoiling(b), b.saved)
  {
    if PauseAsked in b.stale {
      WriteSpoils(w, SetPause(0.0, 0.0));
    } else if ResumeAsked in b.stale {
      WriteSpoils(w, SetResume);
    } else {
      assert REG_FAN_DUTY in WRITABLE;
      if ExpirySeen in b.stale {
        ActSpoils(w);
      } else {
        PopSpoils(w);
      }
    }
  }

  /** Main result. A load that succeeds always ends with the four writable registers as they were
      saved - read at its beginning, or handed to it - exactly if, as it begins, no pause or
      resume request is past its test, and the watchdog not on its way to a fan that was saved
      below the safe duty. */
  lemma LoadRestoresIff(s: State, given: Option<Regs>)
    requires Enabled(s, LoadBegin(given)) && (given.None? ==> RegFile(s.regs))
    ensures var b := Step(s, LoadBegin(given));
            AlwaysRestores(b, b.saved) <==> Undisturbed(s.stale) && FanLeft(s.stale, b.saved)
  {
    var b := Step(s, LoadBegin(given));
    if Undisturbed(s.stale) && FanLeft(s.stale, b.saved) {
      forall es, now | Succeeds(b, es)
        ensures SameWritable(Step(Play(b, es), LoadEnd(now)).regs, b.saved)
      {
        LoadWritesBack(b, es);
      }
    } else {
      SpoiledRun(b);
    }
  }

  lemma SpoiledRun(b: State)
    requires b.phase.Begun? && b.pausedUntil.Forever? && RegFile(b.saved)
    requires !Undisturbed(b.stale) || !FanLeft(b.stale, b.saved)
    ensures !AlwaysRestores(b, b.saved)
  {
    var load := [LoadTimed(0.0), LoaderReturns(GOOD_FABRIC, true, None)] + [WriteBack];
    PlainLoad(b);
    RestoredIs(GOOD_FABRIC, b.saved);
    Spoils(b, Play(b, load));
    PlayConcat(b, load, Spoiling(b));
    assert Succeeds(b, load + Spoiling(b));
    assert !SameWritable(Step(Play(b, load + Spoiling(b)), LoadEnd(0.0)).regs, b.saved);
  }

  lemma {:induction false} SavedStays(s: State, es: seq<Event>)
    requires Valid(s, es) && Without(es, (e: Event) => e.LoadBegin?)
    ensures Play(s, es).saved == s.saved
    decreases es
  {
    if es != [] {
      assert es[0] in es && forall e <- es[1..] :: e in es;
      SavedStays(Step(s, es[0]), es[1..]);
    }
  }

  lemma SavedIs(regs: Regs)
    requires RegFile(regs)
    ensures RegFile(Snapshot(regs)) && SameWritable(Snapshot(regs), regs) && Duty(Snapshot(regs)) == Duty(regs)
  {
  }

  /** Main result. An install whose load fails and whose rollback load succeeds always ends with
      the four registers as they were before the first load, whatever clients write between the
      two, exactly under the same condition as the rollback's load begins: `failed` is the first
      load and all that follows it until then. */
  lemma RollbackRestoresIff(s: State, failed: seq<Event>)
    requires Enabled(s, LoadBegin(None)) && RegFile(s.regs)
    requires Valid(Step(s, LoadBegin(None)), failed) && Without(failed, (e: Event) => e.LoadBegin?)
    requires Play(Step(s, LoadBegin(None)), failed).phase.NoLoad?
    ensures var m := Play(Step(s, LoadBegin(None)), failed);
            && Enabled(m, LoadBegin(Some(m.saved)))
            && (AlwaysRestores(Step(m, LoadBegin(Some(m.saved))), s.regs)
                <==> Undisturbed(m.stale) && FanLeft(m.stale, s.regs))
  {
    SavedStays(Step(s, LoadBegin(None)), failed);
    SavedIs(s.regs);
    var m := Play(Step(s, LoadBegin(None)), failed);
    LoadRestoresIff(m, Some(m.saved));
    SameTarget(Step(m, LoadBegin(Some(m.saved))), m.saved, s.regs);
  }

  lemma SameTarget(b: State, x: Regs, y: Regs)
    requires SameWritable(x, y)
    ensures AlwaysRestores(b, x) <==> AlwaysRestores(b, y)
  {
    forall es, now | Succeeds(b, es)
      ensures SameWritable(Step(Play(b, es), LoadEnd(now)).regs, x)
         <==> SameWritable(Step(Play(b, es), LoadEnd(now)).regs, y)
    {
    }
  }

  // ---- leases over a load ----------------------------------------------------------------

  /** A run of a load to its end, whether it succeeds or not. */
  ghost predicate Finishes(b: State, es: seq<Event>) {
    Valid(b, es) && Without(es, (e: Event) => e.LoadEnd?)
    && (Play(b, es).phase.WrittenBack? || (Play(b, es).phase.Returned? && !Play(b, es).phase.good))
  }

  /** A lease that is there after the load has the time left that it had when the load was timed
      from. */
  ghost predicate KeepsTime(b: State, es: seq<Event>, now: real)
    requires Finishes(b, es)
  {
    var f := Step(Play(b, es), LoadEnd(now));
    forall r <- f.leases :: r in b.leases && f.leases[r] - now == b.leases[r] - Play(b, es).phase.t0
  }

  ghost predicate AlwaysKeepsTime(b: State) {
    forall es, now | Finishes(b, es) :: KeepsTime(b, es, now)
  }

  const FAILED_LOAD: seq<Event> := [LoadTimed(0.0), LoaderReturns(map[], false, None)]

  lemma FailedLoad(b: State)
    requires b.phase.Begun?
    ensures Valid(b, FAILED_LOAD)
    ensures Play(b, FAILED_LOAD) == b.(phase := Returned(0.0, false), regs := map[])
  {
    PlayTwo(b, LoadTimed(0.0), LoaderReturns(map[], false, None));
  }

  /** A client takes a lease during a load that has failed. */
  lemma LeaseTaken(w: State, end: Event, lease: real)
    requires Ends(end, w.stale) && lease >= 1.0
    ensures var es := [end, Write(REG_LEDS, 0, Some(lease), 0.0)];
            && Valid(w, es) && Play(w, es).phase == w.phase
            && REG_LEDS in Play(w, es).leases && Play(w, es).leases[REG_LEDS] == lease
  {
    PauseEnds(w, end);
    PlayTwo(w, end, Write(REG_LEDS, 0, Some(lease), 0.0));
  }

  lemma LeasedRun(b: State, end: Event, lease: real) returns (es: seq<Event>)
    requires b.phase.Begun? && Ends(end, b.stale) && lease >= 1.0
    ensures Finishes(b, es) && Play(b, es).phase == Returned(0.0, false)
    ensures REG_LEDS in Play(b, es).leases && Play(b, es).leases[REG_LEDS] == lease
  {
    var taking := [end, Write(REG_LEDS, 0, Some(lease), 0.0)];
    FailedLoad(b);
    LeaseTaken(Play(b, FAILED_LOAD), end, lease);
    PlayConcat(b, FAILED_LOAD, taking);
    es := FAILED_LOAD + taking;
  }

  /** Main result. A load always gives the leases back the time that it took - however it ends -
      exactly if no pause or resume request is past its test as it begins. */
  lemma LeasesKeptIff(s: State, given: Option<Regs>)
    requires Enabled(s, LoadBegin(given))
    ensures AlwaysKeepsTime(Step(s, LoadBegin(given))) <==> Undisturbed(s.stale)
  {
    var b := Step(s, LoadBegin(given));
    if Undisturbed(s.stale) {
      forall es, now | Finishes(b, es)
        ensures KeepsTime(b, es, now)
      {
        LoadStaysSheltered(b, es);
      }
    } else {
      var lease := if REG_LEDS in b.leases && b.leases[REG_LEDS] == 1.0 then 2.0 else 1.0;
      var es := LeasedRun(b, if PauseAsked in b.stale then SetPause(0.0, 0.0) else SetResume, lease);
      assert !KeepsTime(b, es, 0.0);
    }
  }

  // ---- the server ------------------------------------------------------------------------

  datatype Reply = Value(value: nat) | Done | PausedReply | Busy | BadRegister

  /** The watchdog finds the lease over, and no pause. */
  predicate Expired(s: State, reg: nat, now: real)
    requires reg in s.leases
  {
    !(now < s.leases[reg] || Paused(s, now))
  }

  /** The events of a load that nothing interrupts. */
  function LoadEvents(given: Option<Regs>, t0: real, fabric: Regs, ok: bool, build: Option<nat>, end: real):
    seq<Event>
  {
    [LoadBegin(given), LoadTimed(t0)] + ([LoaderReturns(fabric, ok, build)] + LoadEnding(fabric, ok, build, end))
  }

  predicate CheckedBuild(fabric: Regs, ok: bool, build: Option<nat>) {
    ok && Peek(fabric, REG_ID) == BOARD_ID && (build.None? || Peek(fabric, REG_BUILD_ID) == build.value)
  }

  ghost predicate SameOthers(a: Regs, b: Regs) {
    forall k: nat | k !in WRITABLE :: Peek(a, k) == Peek(b, k)
  }

  /** What was saved comes back. */
  lemma RestoredFor(fabric: Regs, before: Regs, saved: Regs)
    ensures saved == Snapshot(before) && RegFile(before) ==> SameWritable(before, Restored(fabric, saved))
  {
    if saved == Snapshot(before) && RegFile(before) {
      RestoredIs(fabric, saved);
    }
  }

  lemma OthersStay(fabric: Regs, saved: Regs)
    ensures SameOthers(fabric, Restored(fabric, saved))
  {
  }

  /** What an uninterrupted load makes of the state, at once. */
  function AfterLoad(s: State, given: Option<Regs>, t0: real, fabric: Regs, ok: bool, build: Option<nat>, end: real):
    State
  {
    var saved := if given.Some? then given.value else Snapshot(s.regs);
    s.(saved := saved, regs := if CheckedBuild(fabric, ok, build) then Restored(fabric, saved) else fabric,
       leases := map k | k in s.leases :: s.leases[k] + (end - t0),
       pausedUntil := At(0.0), loading := false)
  }

  function LoadEnding(fabric: Regs, ok: bool, build: Option<nat>, end: real): seq<Event> {
    if CheckedBuild(fabric, ok, build) then [WriteBack, LoadEnd(end)] else [LoadEnd(end)]
  }

  lemma EndingPlays(s: State, fabric: Regs, ok: bool, build: Option<nat>, end: real)
    requires s.phase.Returned? && s.phase.good == CheckedBuild(fabric, ok, build)
    ensures Valid(s, LoadEnding(fabric, ok, build, end))
    ensures Play(s, LoadEnding(fabric, ok, build, end))
         == s.(regs := if s.phase.good then Restored(s.regs, s.saved) else s.regs,
               leases := map k | k in s.leases :: s.leases[k] + (end - s.phase.t0),
               pausedUntil := At(0.0), loading := false, phase := NoLoad)
  {
    if s.phase.good {
      PlayTwo(s, WriteBack, LoadEnd(end));
    } else {
      PlayFirst(s, LoadEnd(end), []);
      assert [LoadEnd(end)] + [] == [LoadEnd(end)];
    }
  }

  function Loading(s: State, given: Option<Regs>, t0: real): State {
    s.(saved := if given.Some? then given.value else Snapshot(s.regs), pausedUntil := Forever, loading := true,
       phase := Running(t0))
  }

  function Loaded(s: State, fabric: Regs, good: bool, time: real): State {
    s.(regs := if good then Restored(fabric, s.saved) else fabric,
       leases := map k | k in s.leases :: s.leases[k] + time,
       pausedUntil := At(0.0), loading := false, phase := NoLoad)
  }

  lemma LoadedIs(s: State, given: Option<Regs>, t0: real, fabric: Regs, ok: bool, build: Option<nat>, end: real)
    requires s.phase.NoLoad?
    ensures Loaded(Loading(s, given, t0), fabric, CheckedBuild(fabric, ok, build), end - t0)
         == AfterLoad(s, given, t0, fabric, ok, build, end)
  {
  }

  lemma BeginPlays(s: State, given: Option<Regs>, t0: real)
    requires s.phase.NoLoad? && (given.Some? ==> RegFile(given.value))
    ensures Valid(s, [LoadBegin(given), LoadTimed(t0)])
    ensures Play(s, [LoadBegin(given), LoadTimed(t0)]) == Loading(s, given, t0)
  {
    PlayTwo(s, LoadBegin(given), LoadTimed(t0));
  }

  lemma ReturnPlays(s: State, fabric: Regs, ok: bool, build: Option<nat>, end: real)
    requires s.phase.Running? && RegFile(fabric)
    ensures var es := [LoaderReturns(fabric, ok, build)] + LoadEnding(fabric, ok, build, end);
            && Valid(s, es)
            && Play(s, es) == Loaded(s, fabric, CheckedBuild(fabric, ok, build), end - s.phase.t0)
  {
    var returned := s.(regs := fabric, phase := Returned(s.phase.t0, CheckedBuild(fabric, ok, build)));
    assert Step(s, LoaderReturns(fabric, ok, build)) == returned;
    EndingPlays(returned, fabric, ok, build, end);
    PlayFirst(s, LoaderReturns(fabric, ok, build), LoadEnding(fabric, ok, build, end));
  }

  /** The method's load is the machine's, when no other thread comes between. */
  lemma LoadPlays(s: State, given: Option<Regs>, t0: real, fabric: Regs, ok: bool, build: Option<nat>, end: real)
    requires s.phase.NoLoad? && RegFile(fabric) && (given.Some? ==> RegFile(given.value))
    ensures Valid(s, LoadEvents(given, t0, fabric, ok, build, end))
    ensures Play(s, LoadEvents(given, t0, fabric, ok, build, end)) == AfterLoad(s, given, t0, fabric, ok, build, end)
  {
    var begin := [LoadBegin(given), LoadTimed(t0)];
    BeginPlays(s, given, t0);
    ReturnPlays(Loading(s, given, t0), fabric, ok, build, end);
    LoadedIs(s, given, t0, fabric, ok, build, end);
    PlayConcat(s, begin, [LoaderReturns(fabric, ok, build)] + LoadEnding(fabric, ok, build, end));
  }

  /** The watchdog's steps on one lease, when no other thread comes between. */
  function TickEvents(s: State, reg: nat, now: real): seq<Event>
    requires reg in s.leases
  {
    if now < s.leases[reg] then [TickSnap(reg, now)]
    else if Paused(s, now) then [TickSnap(reg, now), TickTest(reg, now)]
    else [TickSnap(reg, now), TickTest(reg, now)] +
         if reg == REG_FAN_DUTY then [TickPop(reg), TickAct] else [TickPop(reg)]
  }

  /** The state once an overdue lease is to be removed. */
  lemma DuePlays(s: State, reg: nat, now: real)
    requires reg in s.leases && now >= s.leases[reg]
    ensures var es := [TickSnap(reg, now), TickTest(reg, now)];
            && Valid(s, es)
            && Play(s, es) == if Paused(s, now) then s else s.(stale := s.stale + multiset{RemovalDue(reg)})
  {
    PlayTwo(s, TickSnap(reg, now), TickTest(reg, now));
    assert s.stale + multiset{Overdue(reg)} - multiset{Overdue(reg)} == s.stale;
    assert s.stale + multiset{} == s.stale;
  }

  lemma PopPlays(s: State, reg: nat)
    requires RemovalDue(reg) in s.stale && reg != REG_FAN_DUTY
    ensures Valid(s, [TickPop(reg)])
    ensures Play(s, [TickPop(reg)]) == s.(leases := s.leases - {reg}, stale := s.stale - multiset{RemovalDue(reg)})
  {
    PlayOne(s, TickPop(reg));
    assert s.stale - multiset{RemovalDue(reg)} + multiset{} == s.stale - multiset{RemovalDue(reg)};
  }

  lemma ActPlays(s: State)
    requires RemovalDue(REG_FAN_DUTY) in s.stale
    ensures var es := [TickPop(REG_FAN_DUTY), TickAct];
            && Valid(s, es)
            && Play(s, es) == s.(leases := s.leases - {REG_FAN_DUTY}, touches := s.touches + 1,
                                 stale := s.stale - multiset{RemovalDue(REG_FAN_DUTY)},
                                 regs := Raised(s.regs))
  {
    var left := s.stale - multiset{RemovalDue(REG_FAN_DUTY)};
    var popped := s.(leases := s.leases - {REG_FAN_DUTY}, stale := left + multiset{ExpirySeen});
    PopStep(s);
    ActStep(popped);
    PlayTwo(s, TickPop(REG_FAN_DUTY), TickAct);
    assert left + multiset{ExpirySeen} - multiset{ExpirySeen} == left;
  }

  lemma PopStep(s: State)
    requires RemovalDue(REG_FAN_DUTY) in s.stale
    ensures Step(s, TickPop(REG_FAN_DUTY))
         == s.(leases := s.leases - {REG_FAN_DUTY},
               stale := s.stale - multiset{RemovalDue(REG_FAN_DUTY)} + multiset{ExpirySeen})
  {
  }

  lemma ActStep(s: State)
    requires ExpirySeen in s.stale
    ensures Step(s, TickAct)
         == s.(touches := s.touches + 1, stale := s.stale - multiset{ExpirySeen}, regs := Raised(s.regs))
  {
  }

  function Raised(regs: Regs): Regs {
    if Duty(regs) < SAFE_FAN_DUTY then Poke(regs, REG_FAN_DUTY, SAFE_FAN_DUTY) else regs
  }

  lemma FanTickPlays(s: State, now: real)
    requires REG_FAN_DUTY in s.leases && Expired(s, REG_FAN_DUTY, now)
    ensures Valid(s, TickEvents(s, REG_FAN_DUTY, now))
    ensures Play(s, TickEvents(s, REG_FAN_DUTY, now))
         == s.(leases := s.leases - {REG_FAN_DUTY}, touches := s.touches + 1, regs := Raised(s.regs))
  {
    var due := s.(stale := s.stale + multiset{RemovalDue(REG_FAN_DUTY)});
    DuePlays(s, REG_FAN_DUTY, now);
    assert due.stale - multiset{RemovalDue(REG_FAN_DUTY)} == s.stale;
    ActPlays(due);
    PlayConcat(s, [TickSnap(REG_FAN_DUTY, now), TickTest(REG_FAN_DUTY, now)], [TickPop(REG_FAN_DUTY), TickAct]);
  }

  lemma OtherTickPlays(s: State, reg: nat, now: real)
    requires reg in s.leases && Expired(s, reg, now) && reg != REG_FAN_DUTY
    ensures Valid(s, TickEvents(s, reg, now))
    ensures Play(s, TickEvents(s, reg, now)) == s.(leases := s.leases - {reg})
  {
    var due := s.(stale := s.stale + multiset{RemovalDue(reg)});
    DuePlays(s, reg, now);
    assert due.stale - multiset{RemovalDue(reg)} == s.stale;
    PopPlays(due, reg);
    PlayConcat(s, [TickSnap(reg, now), TickTest(reg, now)], [TickPop(reg)]);
  }

  lemma TicksPlay(s: State, reg: nat, now: real)
    requires reg in s.leases
    ensures Valid(s, TickEvents(s, reg, now))
    ensures var f := Play(s, TickEvents(s, reg, now));
            if !Expired(s, reg, now) then f == s
            else if reg != REG_FAN_DUTY then f == s.(leases := s.leases - {reg})
            else f == s.(leases := s.leases - {reg}, touches := s.touches + 1, regs := Raised(s.regs))
  {
    if Expired(s, reg, now) {
      if reg == REG_FAN_DUTY {
        FanTickPlays(s, now);
      } else {
        OtherTickPlays(s, reg, now);
      }
    } else if now < s.leases[reg] {
      PlayOne(s, TickSnap(reg, now));
    } else {
      DuePlays(s, reg, now);
    }
  }

  /** `Access` as one thread sees it: each method is the steps it takes when no other thread
      comes between them. */
  class Access {
    var pausedUntil: Until
    var loading: bool
    var leases: map<nat, real>
    var bridge: Regs
    var saved: Regs
    ghost var phase: Phase
    ghost var stale: multiset<Stale>
    ghost var touches: nat

    constructor (bridge: Regs)
      ensures S() == State(At(0.0), false, map[], bridge, map[], NoLoad, multiset{}, 0)
    {
      pausedUntil, loading, leases, this.bridge, saved := At(0.0), false, map[], bridge, map[];
      phase, stale, touches := NoLoad, multiset{}, 0;
    }

    ghost function S(): State
      reads this
    {
      State(pausedUntil, loading, leases, bridge, saved, phase, stale, touches)
    }

    predicate IsPaused(now: real)
      reads this
    {
      pausedUntil.Forever? || now < pausedUntil.time
    }

    method ReadRegister(reg: int, now: real) returns (r: Reply)
      modifies this
      ensures Paused(old(S()), now) ==> r == PausedReply
      ensures !Paused(old(S()), now) && 0 <= reg < 256 ==> r == Value(Peek(old(bridge), reg))
      ensures S() == if !Paused(old(S()), now) && !(0 <= reg < 256) then old(S()) else Step(old(S()), Read(now))
    {
      if IsPaused(now) {
        return PausedReply;
      }
      if !(0 <= reg < 256) {
        return BadRegister;
      }
      touches := touches + 1;
      return Value(Peek(bridge, reg));
    }

    method WriteRegister(reg: int, value: int, lease: Option<real>, now: real) returns (r: Reply)
      modifies this
      ensures Paused(old(S()), now) ==> r == PausedReply && S() == old(S())
      ensures !Paused(old(S()), now) && !(0 <= reg < 256) ==> r == BadRegister && S() == old(S())
      ensures !Paused(old(S()), now) && 0 <= reg < 256 ==>
                r == Value(Peek(bridge, reg)) && S() == Step(old(S()), Write(reg, value, lease, now))
      ensures !Paused(old(S()), now) && reg in WRITABLE ==>
                r == Value(if reg == REG_FAN_DUTY then value % 256 else value % 0x1_0000_0000)
      ensures forall k: nat | k != reg || k !in WRITABLE :: Peek(bridge, k) == Peek(old(bridge), k)
      ensures !Paused(old(S()), now) && 0 <= reg < 256 && lease.Some? ==>
                reg in leases && leases[reg] >= now + lease.value && leases[reg] >= now + 1.0
                && (leases[reg] == now + lease.value || leases[reg] == now + 1.0)
      ensures forall k: nat | k != reg || lease.None? :: k in leases <==> k in old(leases)
      ensures forall k <- leases | k in old(leases) && (k != reg || lease.None?) :: leases[k] == old(leases[k])
    {
      if IsPaused(now) {
        return PausedReply;
      }
      if !(0 <= reg < 256) {
        return BadRegister;
      }
      bridge := Poke(bridge, reg, value);
      touches := touches + 1;
      if lease.Some? {
        leases := leases[reg := now + if lease.value < 1.0 then 1.0 else lease.value];
      }
      return Value(Peek(bridge, reg));
    }

    method ReleaseLease(reg: nat)
      modifies this
      ensures S() == Step(old(S()), Release(reg))
    {
      leases := leases - {reg};
    }

    method Pause(seconds: real, now: real) returns (r: Reply)
      modifies this
      ensures old(loading) ==> r == Busy && S() == old(S())
      ensures !old(loading) ==> r == Done && Valid(old(S()), [AskPause, SetPause(seconds, now)])
                                && S() == Play(old(S()), [AskPause, SetPause(seconds, now)])
      ensures !old(loading) ==> forall t :: Paused(S(), t) <==> t < now + seconds && t < now + 600.0
    {
      if loading {
        return Busy;
      }
      PlayTwo(S(), AskPause, SetPause(seconds, now));
      assert stale + multiset{PauseAsked} - multiset{PauseAsked} == stale;
      pausedUntil := At(now + if seconds < 600.0 then seconds else 600.0);
      return Done;
    }

    method Resume() returns (r: Reply)
      modifies this
      ensures old(loading) ==> r == Busy && S() == old(S())
      ensures !old(loading) ==> r == Done && Valid(old(S()), [AskResume, SetResume])
                                && S() == Play(old(S()), [AskResume, SetResume])
      ensures !old(loading) ==> forall t | 0.0 <= t :: !Paused(S(), t)
    {
      if loading {
        return Busy;
      }
      PlayTwo(S(), AskResume, SetResume);
      assert stale + multiset{ResumeAsked} - multiset{ResumeAsked} == stale;
      pausedUntil := At(0.0);
      return Done;
    }

    /** The saved registers, each written by its own access. */
    method WriteBack()
      modifies this`bridge
      ensures bridge == Restored(old(bridge), saved)
    {
      bridge := Poke(bridge, REG_LOOPBACK, Peek(saved, REG_LOOPBACK));
      bridge := Poke(bridge, REG_LEDS, Peek(saved, REG_LEDS));
      bridge := Poke(bridge, REG_FAN_DUTY, Peek(saved, REG_FAN_DUTY));
      bridge := Poke(bridge, REG_BLINKER, Peek(saved, REG_BLINKER));
    }

    /** The load itself, and the writing back if the core is the expected one. */
    method Try(fabric: Regs, ok: bool, build: Option<nat>) returns (r: Option<nat>)
      modifies this`bridge
      ensures r == if CheckedBuild(fabric, ok, build) then Some(Peek(fabric, REG_BUILD_ID)) else None
      ensures bridge == if CheckedBuild(fabric, ok, build) then Restored(fabric, saved) else fabric
    {
      r := None;
      bridge := fabric;
      if ok && Peek(bridge, REG_ID) == BOARD_ID && (build.None? || Peek(bridge, REG_BUILD_ID) == build.value) {
        r := Some(Peek(bridge, REG_BUILD_ID));
        WriteBack();
      }
    }

    /** `_load`: what the loader answers and what the fabric then holds are the board's. */
    method Load(given: Option<Regs>, t0: real, fabric: Regs, ok: bool, build: Option<nat>, end: real)
      returns (r: Option<nat>)
      requires phase == NoLoad
      modifies this
      ensures r == if CheckedBuild(fabric, ok, build) then Some(Peek(fabric, REG_BUILD_ID)) else None
      ensures S() == AfterLoad(old(S()), given, t0, fabric, ok, build, end)
      ensures r.Some? <==> ok && Peek(fabric, 1) == 0xDE25 && (build.None? || Peek(fabric, 19) == build.value)
      ensures r.Some? && given.None? && RegFile(old(bridge)) ==> SameWritable(old(bridge), bridge)
      ensures r.None? ==> bridge == fabric
      ensures SameOthers(fabric, bridge)
      ensures !loading && pausedUntil == At(0.0)
    {
      saved := if given.Some? then given.value else Snapshot(bridge);
      RestoredFor(fabric, bridge, saved);
      OthersStay(fabric, saved);
      pausedUntil := Forever;
      loading := true;
      r := Try(fabric, ok, build);
      leases := map k | k in leases :: leases[k] + (end - t0);
      pausedUntil := At(0.0);
      loading := false;
    }

    /** The watchdog on one lease. */
    method Tick(reg: nat, now: real)
      requires reg in leases
      modifies this
      ensures Valid(old(S()), TickEvents(old(S()), reg, now))
      ensures S() == Play(old(S()), TickEvents(old(S()), reg, now))
      ensures leases == if Expired(old(S()), reg, now) then old(leases) - {reg} else old(leases)
      ensures bridge == if reg == REG_FAN_DUTY && Expired(old(S()), reg, now) && Duty(old(bridge)) < SAFE_FAN_DUTY
                        then Poke(old(bridge), REG_FAN_DUTY, SAFE_FAN_DUTY) else old(bridge)
      ensures pausedUntil == old(pausedUntil)
    {
      TicksPlay(S(), reg, now);
      if now < leases[reg] || IsPaused(now) {
        return;
      }
      leases := leases - {reg};
      if reg == REG_FAN_DUTY {
        var duty := Peek(bridge, REG_FAN_DUTY) % 256;
        touches := touches + 1;
        if duty < SAFE_FAN_DUTY {
          bridge := Poke(bridge, REG_FAN_DUTY, SAFE_FAN_DUTY);
        }
      }
    }

    /** One round of the watchdog: what has expired is gone, and an expired fan lease has
        raised the fan. */
    method Watchdog(now: real)
      modifies this
      ensures leases == map k | k in old(leases) && !Expired(old(S()), k, now) :: old(leases)[k]
      ensures bridge == if REG_FAN_DUTY in old(leases) && Expired(old(S()), REG_FAN_DUTY, now)
                        then Raised(old(bridge)) else old(bridge)
    {
      var left := leases.Keys;
      ghost var s0 := S();
      while left != {}
        invariant left <= leases.Keys <= s0.leases.Keys
        invariant forall k <- s0.leases :: k in leases <==> k in left || !Expired(s0, k, now)
        invariant forall k <- leases :: leases[k] == s0.leases[k]
        invariant pausedUntil == s0.pausedUntil
        invariant bridge == if REG_FAN_DUTY in s0.leases && REG_FAN_DUTY !in left && Expired(s0, REG_FAN_DUTY, now)
                               && Duty(s0.regs) < SAFE_FAN_DUTY
                            then Poke(s0.regs, REG_FAN_DUTY, SAFE_FAN_DUTY) else s0.regs
        decreases left
      {
        var reg :| reg in left;
        left := left - {reg};
        Tick(reg, now);
      }
    }
  }
}
