/**
The fan's lease as a dead man's switch: what a run of the register server - requests, pauses,
loads and the watchdog, in any interleaving - does to the lease, when the watchdog raises the
fan, and whether the raise lasts.
*/
module FanLease {
  import opened Wrappers
  import opened RegisterAccess

  /** An event that renews or drops the fan's lease on purpose. */
  predicate FanCare(e: Event) {
    (e.Write? && e.reg == REG_FAN_DUTY && e.lease.Some?) || (e.Release? && e.reg == REG_FAN_DUTY)
  }

  /** The watchdog has taken the fan's lease for overdue, or is about to remove it. */
  predicate Doomed(stale: multiset<Stale>) {
    Overdue(REG_FAN_DUTY) in stale || RemovalDue(REG_FAN_DUTY) in stale
  }

  // ---- runs by their index ---------------------------------------------------------------

  function StateAt(s: State, es: seq<Event>, k: nat): State
    requires Valid(s, es) && k <= |es|
    decreases k
  {
    if k == 0 then s else StateAt(Step(s, es[0]), es[1..], k - 1)
  }

  /** How long a load has held the registers when it ends. */
  function HeldBy(s: State, e: Event): real
    requires Enabled(s, e)
  {
    if e.LoadEnd? then e.now - s.phase.t0 else 0.0
  }

  /** How long the loads that ended among the first k events had held the registers. */
  function Held(s: State, es: seq<Event>, k: nat): real
    requires Valid(s, es) && k <= |es|
    decreases k
  {
    if k == 0 then 0.0 else HeldBy(s, es[0]) + Held(Step(s, es[0]), es[1..], k - 1)
  }

  // ---- one tick of the watchdog, among other steps ---------------------------------------

  /** The watchdog's snapshot finds the fan's deadline over. */
  predicate LateSnap(s: State, es: seq<Event>, a: nat, deadline: real)
    requires Valid(s, es) && a < |es|
  {
    es[a].TickSnap? && es[a].reg == REG_FAN_DUTY && es[a].now >= deadline + Held(s, es, a)
  }

  /** Its test finds no pause. */
  predicate OpenTest(s: State, es: seq<Event>, b: nat)
    requires Valid(s, es) && b < |es|
  {
    es[b].TickTest? && es[b].reg == REG_FAN_DUTY && !Paused(StateAt(s, es, b), es[b].now)
  }

  ghost predicate Removed(es: seq<Event>) {
    exists c | 0 <= c < |es| :: es[c] == TickPop(REG_FAN_DUTY)
  }

  ghost predicate TestedAndRemoved(s: State, es: seq<Event>)
    requires Valid(s, es)
  {
    exists b, c | 0 <= b < c < |es| :: OpenTest(s, es, b) && es[c] == TickPop(REG_FAN_DUTY)
  }

  /** A whole tick: a snapshot at the deadline - moved by the loads - or later, then the test
      outside a pause, then the removal. */
  ghost predicate WholeTick(s: State, es: seq<Event>, deadline: real)
    requires Valid(s, es)
  {
    exists a, b, c | 0 <= a < b < c < |es| ::
      LateSnap(s, es, a, deadline) && OpenTest(s, es, b) && es[c] == TickPop(REG_FAN_DUTY)
  }

  lemma RemovedLater(e: Event, rest: seq<Event>)
    requires Removed(rest)
    ensures Removed([e] + rest)
  {
    var c :| 0 <= c < |rest| && rest[c] == TickPop(REG_FAN_DUTY);
    assert ([e] + rest)[c + 1] == rest[c];
  }

  lemma TestedLater(s: State, es: seq<Event>)
    requires es != [] && Valid(s, es) && TestedAndRemoved(Step(s, es[0]), es[1..])
    ensures TestedAndRemoved(s, es)
  {
    var n, rest := Step(s, es[0]), es[1..];
    var b, c :| 0 <= b < c < |rest| && OpenTest(n, rest, b) && rest[c] == TickPop(REG_FAN_DUTY);
    assert OpenTest(s, es, b + 1) && es[c + 1] == TickPop(REG_FAN_DUTY);
  }

  lemma TickedLater(s: State, es: seq<Event>, deadline: real)
    requires es != [] && Valid(s, es) && WholeTick(Step(s, es[0]), es[1..], deadline + HeldBy(s, es[0]))
    ensures WholeTick(s, es, deadline)
  {
    var n, rest := Step(s, es[0]), es[1..];
    var a, b, c :| 0 <= a < b < c < |rest| && LateSnap(n, rest, a, deadline + HeldBy(s, es[0])) && OpenTest(n, rest, b)
                   && rest[c] == TickPop(REG_FAN_DUTY);
    assert LateSnap(s, es, a + 1, deadline) && OpenTest(s, es, b + 1) && es[c + 1] == TickPop(REG_FAN_DUTY);
  }

  lemma TestedNow(s: State, es: seq<Event>)
    requires es != [] && Valid(s, es) && Tests(s, es[0])
    requires Removed(es[1..])
    ensures TestedAndRemoved(s, es)
  {
    var c :| 0 <= c < |es[1..]| && es[1..][c] == TickPop(REG_FAN_DUTY);
    assert OpenTest(s, es, 0) && es[c + 1] == TickPop(REG_FAN_DUTY);
  }

  lemma TickedNow(s: State, es: seq<Event>, deadline: real)
    requires es != [] && Valid(s, es) && Snaps(es[0], deadline)
    requires TestedAndRemoved(Step(s, es[0]), es[1..])
    ensures WholeTick(s, es, deadline)
  {
    var n, rest := Step(s, es[0]), es[1..];
    var b, c :| 0 <= b < c < |rest| && OpenTest(n, rest, b) && rest[c] == TickPop(REG_FAN_DUTY);
    assert LateSnap(s, es, 0, deadline) && OpenTest(s, es, b + 1) && es[c + 1] == TickPop(REG_FAN_DUTY);
  }

  // ---- the lease over a run --------------------------------------------------------------

  /** What one event does to the lease and to the watchdog's view of it. */
  lemma LeaseStep(s: State, e: Event)
    requires Enabled(s, e) && REG_FAN_DUTY in s.leases && !FanCare(e)
    ensures var n := Step(s, e);
            && (REG_FAN_DUTY in n.leases <==> e != TickPop(REG_FAN_DUTY))
            && (REG_FAN_DUTY in n.leases ==> n.leases[REG_FAN_DUTY] == s.leases[REG_FAN_DUTY] + HeldBy(s, e))
  {
  }

  predicate Tests(s: State, e: Event) {
    e.TickTest? && e.reg == REG_FAN_DUTY && !Paused(s, e.now)
  }

  predicate Snaps(e: Event, deadline: real) {
    e.TickSnap? && e.reg == REG_FAN_DUTY && e.now >= deadline
  }

  lemma DoomStep(s: State, e: Event)
    requires Enabled(s, e) && REG_FAN_DUTY in s.leases
    ensures var n := Step(s, e);
            && (RemovalDue(REG_FAN_DUTY) in n.stale && RemovalDue(REG_FAN_DUTY) !in s.stale ==>
                  Overdue(REG_FAN_DUTY) in s.stale && Tests(s, e))
            && (Overdue(REG_FAN_DUTY) in n.stale && Overdue(REG_FAN_DUTY) !in s.stale ==>
                  Snaps(e, s.leases[REG_FAN_DUTY]))
  {
  }

  lemma {:induction false} NoLeaseStays(s: State, es: seq<Event>)
    requires Valid(s, es) && REG_FAN_DUTY !in s.leases && Without(es, FanCare)
    ensures REG_FAN_DUTY !in Play(s, es).leases
    decreases es
  {
    if es != [] {
      assert es[0] in es && forall e <- es[1..] :: e in es;
      NoLeaseStays(Step(s, es[0]), es[1..]);
    }
  }

  /** A lease that is gone was removed, by a tick of which the run holds what was still to come. */
  lemma {:induction false} GoneByTick(s: State, es: seq<Event>)
    requires Valid(s, es) && REG_FAN_DUTY in s.leases && Without(es, FanCare)
    requires REG_FAN_DUTY !in Play(s, es).leases
    ensures || (RemovalDue(REG_FAN_DUTY) in s.stale && Removed(es))
            || (Overdue(REG_FAN_DUTY) in s.stale && TestedAndRemoved(s, es))
            || WholeTick(s, es, s.leases[REG_FAN_DUTY])
    decreases es
  {
    var e, n, rest := es[0], Step(s, es[0]), es[1..];
    assert e in es && forall x <- rest :: x in es;
    LeaseStep(s, e);
    if e != TickPop(REG_FAN_DUTY) {
      GoneByTick(n, rest);
      DoomStep(s, e);
      GoneStep(s, es);
    }
  }

  lemma GoneStep(s: State, es: seq<Event>)
    requires es != [] && Valid(s, es) && REG_FAN_DUTY in s.leases && !FanCare(es[0]) && es[0] != TickPop(REG_FAN_DUTY)
    requires var n := Step(s, es[0]);
             && REG_FAN_DUTY in n.leases
             && (|| (RemovalDue(REG_FAN_DUTY) in n.stale && Removed(es[1..]))
                 || (Overdue(REG_FAN_DUTY) in n.stale && TestedAndRemoved(n, es[1..]))
                 || WholeTick(n, es[1..], n.leases[REG_FAN_DUTY]))
    ensures || (RemovalDue(REG_FAN_DUTY) in s.stale && Removed(es))
            || (Overdue(REG_FAN_DUTY) in s.stale && TestedAndRemoved(s, es))
            || WholeTick(s, es, s.leases[REG_FAN_DUTY])
  {
    var n, rest := Step(s, es[0]), es[1..];
    LeaseStep(s, es[0]);
    DoomStep(s, es[0]);
    if RemovalDue(REG_FAN_DUTY) in n.stale && Removed(rest) {
      RemovedStep(s, es);
    } else if Overdue(REG_FAN_DUTY) in n.stale && TestedAndRemoved(n, rest) {
      TestedStep(s, es);
    } else {
      TickedLater(s, es, s.leases[REG_FAN_DUTY]);
    }
  }

  lemma RemovedStep(s: State, es: seq<Event>)
    requires es != [] && Valid(s, es) && REG_FAN_DUTY in s.leases
    requires Removed(es[1..])
    requires RemovalDue(REG_FAN_DUTY) in s.stale || (Overdue(REG_FAN_DUTY) in s.stale && Tests(s, es[0]))
    ensures || (RemovalDue(REG_FAN_DUTY) in s.stale && Removed(es))
            || (Overdue(REG_FAN_DUTY) in s.stale && TestedAndRemoved(s, es))
  {
    if RemovalDue(REG_FAN_DUTY) in s.stale {
      RemovedLater(es[0], es[1..]);
      assert [es[0]] + es[1..] == es;
    } else {
      TestedNow(s, es);
    }
  }

  lemma TestedStep(s: State, es: seq<Event>)
    requires es != [] && Valid(s, es) && REG_FAN_DUTY in s.leases
    requires TestedAndRemoved(Step(s, es[0]), es[1..])
    requires Overdue(REG_FAN_DUTY) in s.stale || Snaps(es[0], s.leases[REG_FAN_DUTY])
    ensures || (Overdue(REG_FAN_DUTY) in s.stale && TestedAndRemoved(s, es))
            || WholeTick(s, es, s.leases[REG_FAN_DUTY])
  {
    if Overdue(REG_FAN_DUTY) in s.stale {
      TestedLater(s, es);
    } else {
      TickedNow(s, es, s.leases[REG_FAN_DUTY]);
    }
  }

  lemma {:induction false} RemovalRemoves(s: State, es: seq<Event>, c: nat)
    requires Valid(s, es) && Without(es, FanCare) && c < |es| && es[c] == TickPop(REG_FAN_DUTY)
    ensures REG_FAN_DUTY !in Play(s, es).leases
    decreases c
  {
    assert es[0] in es && forall e <- es[1..] :: e in es;
    if c == 0 {
      NoLeaseStays(Step(s, es[0]), es[1..]);
    } else {
      RemovalRemoves(Step(s, es[0]), es[1..], c - 1);
    }
  }

  /** Main result. Until someone leases or releases the fan again, and with no tick under way that
      began before, its lease is there after a run exactly if no whole tick came: it neither
      goes early nor outlives a tick. */
  lemma LeaseEndsIff(s: State, es: seq<Event>)
    requires Valid(s, es) && REG_FAN_DUTY in s.leases && Without(es, FanCare) && !Doomed(s.stale)
    ensures REG_FAN_DUTY in Play(s, es).leases <==> !WholeTick(s, es, s.leases[REG_FAN_DUTY])
  {
    if REG_FAN_DUTY !in Play(s, es).leases {
      GoneByTick(s, es);
    } else if WholeTick(s, es, s.leases[REG_FAN_DUTY]) {
      var a, b, c :| 0 <= a < b < c < |es| && LateSnap(s, es, a, s.leases[REG_FAN_DUTY]) && OpenTest(s, es, b)
                     && es[c] == TickPop(REG_FAN_DUTY);
      RemovalRemoves(s, es, c);
    }
  }

  /** Unleased writes, pauses and loads leave the lease; only a load moves its deadline. */
  lemma {:induction false} LeaseSurvives(s: State, es: seq<Event>)
    requires Valid(s, es) && Without(es, FanCare)
    requires REG_FAN_DUTY in s.leases && REG_FAN_DUTY in Play(s, es).leases
    ensures Play(s, es).leases[REG_FAN_DUTY] == s.leases[REG_FAN_DUTY] + Held(s, es, |es|)
    decreases es
  {
    if es != [] {
      assert es[0] in es && forall e <- es[1..] :: e in es;
      LeaseStep(s, es[0]);
      if REG_FAN_DUTY !in Step(s, es[0]).leases {
        NoLeaseStays(Step(s, es[0]), es[1..]);
      }
      LeaseSurvives(Step(s, es[0]), es[1..]);
    }
  }

  /** A lease taken here goes only by a whole tick. */
  ghost predicate GoesByTickOnly(leased: State)
    requires REG_FAN_DUTY in leased.leases
  {
    forall es | Valid(leased, es) && Without(es, FanCare) && REG_FAN_DUTY !in Play(leased, es).leases ::
      WholeTick(leased, es, leased.leases[REG_FAN_DUTY])
  }

  /** Main result. The lease that a write takes can be relied on exactly if the watchdog is not
      already past its snapshot, or its test, of the lease before: otherwise it removes the new
      one. */
  lemma RenewalHoldsIff(s: State, duty: int, lease: real, now: real)
    requires !Paused(s, now)
    ensures GoesByTickOnly(Step(s, Write(REG_FAN_DUTY, duty, Some(lease), now))) <==> !Doomed(s.stale)
  {
    var leased := Step(s, Write(REG_FAN_DUTY, duty, Some(lease), now));
    if !Doomed(s.stale) {
      forall es | Valid(leased, es) && Without(es, FanCare) && REG_FAN_DUTY !in Play(leased, es).leases
        ensures WholeTick(leased, es, leased.leases[REG_FAN_DUTY])
      {
        LeaseEndsIff(leased, es);
      }
    } else if RemovalDue(REG_FAN_DUTY) in s.stale {
      var es := [TickPop(REG_FAN_DUTY)];
      PlayOne(leased, TickPop(REG_FAN_DUTY));
      assert Without(es, FanCare);
    } else {
      var es := [TickTest(REG_FAN_DUTY, now), TickPop(REG_FAN_DUTY)];
      PlayTwo(leased, TickTest(REG_FAN_DUTY, now), TickPop(REG_FAN_DUTY));
      assert Without(es, FanCare);
    }
  }

  // ---- the dead man's switch -------------------------------------------------------------

  /** The watchdog's steps towards the fan. */
  predicate FanWatch(e: Event) {
    ((e.TickSnap? || e.TickTest? || e.TickPop?) && e.reg == REG_FAN_DUTY) || e.TickAct?
  }

  /** A tick for the fan, with what comes between its snapshot, its test, its removal and its
      act: other threads' steps, so none of the watchdog's own. */
  datatype Tick = Tick(snap: real, mid1: seq<Event>, test: real, mid2: seq<Event>, mid3: seq<Event>)

  function Do(s: State, e: Event): State {
    if Enabled(s, e) then Step(s, e) else s
  }

  function Then(s: State, es: seq<Event>): State {
    if Valid(s, es) then Play(s, es) else s
  }

  function BeforeTest(f: State, t: Tick): State {
    Then(Do(f, TickSnap(REG_FAN_DUTY, t.snap)), t.mid1)
  }

  function BeforePop(f: State, t: Tick): State {
    Then(Do(BeforeTest(f, t), TickTest(REG_FAN_DUTY, t.test)), t.mid2)
  }

  function BeforeAct(f: State, t: Tick): State {
    Then(Do(BeforePop(f, t), TickPop(REG_FAN_DUTY)), t.mid3)
  }

  /** What comes between are steps that can be taken. */
  predicate Possible(f: State, t: Tick) {
    && Valid(Do(f, TickSnap(REG_FAN_DUTY, t.snap)), t.mid1) && Without(t.mid1, FanWatch)
    && Valid(Do(BeforeTest(f, t), TickTest(REG_FAN_DUTY, t.test)), t.mid2) && Without(t.mid2, FanWatch)
    && Valid(Do(BeforePop(f, t), TickPop(REG_FAN_DUTY)), t.mid3) && Without(t.mid3, FanWatch)
  }

  /** The tick goes through, and its act leaves the fan at the safe duty or above, and not lower
      than it was. */
  predicate Raises(f: State, t: Tick) {
    var act := BeforeAct(f, t);
    && Enabled(f, TickSnap(REG_FAN_DUTY, t.snap)) && Enabled(BeforeTest(f, t), TickTest(REG_FAN_DUTY, t.test))
    && Enabled(BeforePop(f, t), TickPop(REG_FAN_DUTY)) && Enabled(act, TickAct)
    && Duty(Step(act, TickAct).regs) >= 128 && Duty(Step(act, TickAct).regs) >= Duty(act.regs)
  }

  /** No load is under way, and none begins in the tick. */
  predicate Loadless(f: State, t: Tick) {
    f.phase.NoLoad? && Without(t.mid1 + t.mid2 + t.mid3, (e: Event) => e.LoadBegin?)
  }

  /** An expiry never lowers the fan, and leaves it at the safe duty or above. */
  lemma ExpiryRaises(s: State)
    requires Enabled(s, TickAct)
    ensures Duty(Step(s, TickAct).regs) >= 128
    ensures Duty(Step(s, TickAct).regs) >= Duty(s.regs)
  {
  }

  /** What the watchdog has seen of the fan stays, whatever other threads do. */
  lemma {:induction false} WatchStays(s: State, es: seq<Event>, seen: Stale)
    requires Valid(s, es) && Without(es, FanWatch) && seen in s.stale
    requires seen in {Overdue(REG_FAN_DUTY), RemovalDue(REG_FAN_DUTY), ExpirySeen}
    ensures seen in Play(s, es).stale
    decreases es
  {
    if es != [] {
      assert es[0] in es && forall e <- es[1..] :: e in es;
      WatchStep(s, es[0], seen);
      WatchStays(Step(s, es[0]), es[1..], seen);
    }
  }

  lemma WatchStep(s: State, e: Event, seen: Stale)
    requires Enabled(s, e) && !FanWatch(e) && seen in s.stale
    requires seen in {Overdue(REG_FAN_DUTY), RemovalDue(REG_FAN_DUTY), ExpirySeen}
    ensures seen in Step(s, e).stale
  {
    match e
    case TickTest(r, now) => assert Overdue(r) != seen;
    case TickPop(r) => assert RemovalDue(r) != seen;
    case _ =>
  }

  lemma {:induction false} NoLoadStays(s: State, es: seq<Event>)
    requires Valid(s, es) && s.phase.NoLoad? && Without(es, (e: Event) => e.LoadBegin?)
    ensures Play(s, es).phase.NoLoad?
    decreases es
  {
    if es != [] {
      assert es[0] in es && forall e <- es[1..] :: e in es;
      NoLoadStays(Step(s, es[0]), es[1..]);
    }
  }

  lemma LoadlessAct(f: State, t: Tick)
    requires Possible(f, t) && Loadless(f, t)
    ensures BeforeAct(f, t).phase.NoLoad?
  {
    forall e | e in t.mid1 || e in t.mid2 || e in t.mid3
      ensures !e.LoadBegin?
    {
      assert e in t.mid1 + t.mid2 + t.mid3;
    }
    NoLoadStays(Do(f, TickSnap(REG_FAN_DUTY, t.snap)), t.mid1);
    NoLoadStays(Do(BeforeTest(f, t), TickTest(REG_FAN_DUTY, t.test)), t.mid2);
    NoLoadStays(Do(BeforePop(f, t), TickPop(REG_FAN_DUTY)), t.mid3);
  }

  /** A tick whose snapshot finds the lease over and whose test finds no pause goes through. */
  lemma TickGoesThrough(f: State, t: Tick)
    requires REG_FAN_DUTY in f.leases && t.snap >= f.leases[REG_FAN_DUTY]
    requires Possible(f, t) && !Paused(BeforeTest(f, t), t.test)
    ensures Raises(f, t)
  {
    WatchStays(Do(f, TickSnap(REG_FAN_DUTY, t.snap)), t.mid1, Overdue(REG_FAN_DUTY));
    WatchStays(Do(BeforeTest(f, t), TickTest(REG_FAN_DUTY, t.test)), t.mid2, RemovalDue(REG_FAN_DUTY));
    WatchStays(Do(BeforePop(f, t), TickPop(REG_FAN_DUTY)), t.mid3, ExpirySeen);
    ExpiryRaises(BeforeAct(f, t));
  }

  /** Nobody renews or drops the lease and no whole tick comes; then a tick takes its snapshot at the
      deadline - moved by the loads - or later, and makes its test outside a pause. */
  ghost predicate Silence(leased: State, es: seq<Event>, deadline: real, t: Tick) {
    && Valid(leased, es) && Without(es, FanCare) && !WholeTick(leased, es, deadline)
    && t.snap >= deadline + Held(leased, es, |es|)
    && Possible(Play(leased, es), t) && !Paused(BeforeTest(Play(leased, es), t), t.test)
  }

  lemma LeaseTaken(s: State, duty: int, lease: real, now: real)
    requires !Paused(s, now)
    ensures var leased := Step(s, Write(REG_FAN_DUTY, duty, Some(lease), now));
            && REG_FAN_DUTY in leased.leases && leased.leases[REG_FAN_DUTY] == now + Max(1.0, lease)
            && leased.stale == s.stale
  {
  }

  lemma SilentLease(leased: State, es: seq<Event>, t: Tick)
    requires REG_FAN_DUTY in leased.leases && !Doomed(leased.stale)
    requires Silence(leased, es, leased.leases[REG_FAN_DUTY], t)
    ensures var f := Play(leased, es); Raises(f, t) && (Loadless(f, t) ==> BeforeAct(f, t).phase.NoLoad?)
  {
    LeaseEndsIff(leased, es);
    LeaseSurvives(leased, es);
    SwitchActs(Play(leased, es), t);
  }

  lemma SwitchActs(f: State, t: Tick)
    requires REG_FAN_DUTY in f.leases && t.snap >= f.leases[REG_FAN_DUTY]
    requires Possible(f, t) && !Paused(BeforeTest(f, t), t.test)
    ensures Raises(f, t) && (Loadless(f, t) ==> BeforeAct(f, t).phase.NoLoad?)
  {
    TickGoesThrough(f, t);
    if Loadless(f, t) {
      LoadlessAct(f, t);
    }
  }

  /** Main result. A controller leases the fan at `now`, no tick for an older lease being under
      way, and falls silent. Then for every run `es` of other clients, pauses and loads with no
      whole tick in it, the next tick that takes its snapshot at the deadline or later and
      makes its test outside a pause goes through, whatever comes between its steps, and
      leaves the fan at 128 or more and not lower than it was; in the fabric that stays, if no
      load is under way or begins. The deadline is the lease, moved by the time of the loads. */
  lemma DeadManSwitch(s: State, duty: int, lease: real, now: real, es: seq<Event>, t: Tick)
    requires !Paused(s, now) && !Doomed(s.stale)
    requires Silence(Step(s, Write(REG_FAN_DUTY, duty, Some(lease), now)), es, now + Max(1.0, lease), t)
    ensures var f := Play(Step(s, Write(REG_FAN_DUTY, duty, Some(lease), now)), es);
            Raises(f, t) && (Loadless(f, t) ==> BeforeAct(f, t).phase.NoLoad?)
  {
    LeaseTaken(s, duty, lease, now);
    SilentLease(Step(s, Write(REG_FAN_DUTY, duty, Some(lease), now)), es, t);
  }

  /** Why no older tick may be under way: the controller renews the lease between the test and
      the removal, the removal takes the new lease, the act raises the fan, a client lowers it
      again without a lease - and nothing watches the fan any more. */
  lemma RenewedTooLate(s: State, duty: nat, lease: real, now: real)
    requires s.stale == multiset{RemovalDue(REG_FAN_DUTY)} && !Paused(s, now) && duty < SAFE_FAN_DUTY
    ensures var es := [Write(REG_FAN_DUTY, duty, Some(lease), now)] + [TickPop(REG_FAN_DUTY), TickAct]
                      + [Write(REG_FAN_DUTY, duty, None, now)];
            && Valid(s, es) && Duty(Play(s, es).regs) == duty
            && REG_FAN_DUTY !in Play(s, es).leases && Play(s, es).stale == multiset{}
  {
    var renewed := Step(s, Write(REG_FAN_DUTY, duty, Some(lease), now));
    PlayOne(s, Write(REG_FAN_DUTY, duty, Some(lease), now));
    ActPlays(renewed);
    var acted := Play(renewed, [TickPop(REG_FAN_DUTY), TickAct]);
    PlayOne(acted, Write(REG_FAN_DUTY, duty, None, now));
    PlayConcat(s, [Write(REG_FAN_DUTY, duty, Some(lease), now)], [TickPop(REG_FAN_DUTY), TickAct]);
    PlayConcat(s, [Write(REG_FAN_DUTY, duty, Some(lease), now)] + [TickPop(REG_FAN_DUTY), TickAct],
               [Write(REG_FAN_DUTY, duty, None, now)]);
  }

  lemma UnwatchedStep(s: State, e: Event)
    requires Enabled(s, e) && !FanCare(e)
    requires REG_FAN_DUTY !in s.leases && !Doomed(s.stale) && ExpirySeen !in s.stale
    ensures var n := Step(s, e);
            REG_FAN_DUTY !in n.leases && !Doomed(n.stale) && ExpirySeen !in n.stale && !FanWatch(e)
  {
    assert !FanWatch(e);
    UnwatchedStale(s, e, Overdue(REG_FAN_DUTY));
    UnwatchedStale(s, e, RemovalDue(REG_FAN_DUTY));
    UnwatchedStale(s, e, ExpirySeen);
  }

  lemma UnwatchedStale(s: State, e: Event, seen: Stale)
    requires Enabled(s, e) && !FanWatch(e) && seen !in s.stale
    requires seen in {Overdue(REG_FAN_DUTY), RemovalDue(REG_FAN_DUTY), ExpirySeen}
    ensures seen !in Step(s, e).stale
  {
  }

  /** From there on the watchdog does nothing about the fan, whatever happens. */
  lemma {:induction false} Unwatched(s: State, es: seq<Event>)
    requires Valid(s, es) && Without(es, FanCare)
    requires REG_FAN_DUTY !in s.leases && !Doomed(s.stale) && ExpirySeen !in s.stale
    ensures Without(es, FanWatch)
    decreases es
  {
    if es != [] {
      assert es[0] in es && forall e <- es[1..] :: e in es;
      UnwatchedStep(s, es[0]);
      Unwatched(Step(s, es[0]), es[1..]);
      forall e <- es
        ensures !FanWatch(e)
      {
        assert e == es[0] || e in es[1..];
      }
    }
  }
}
