/**
The dead man's switch of the fan across both processes: the controller (temp_control.py) samples,
changes its settings, writes with a lease and releases it; the register server
(fpga_access.py) takes its requests or refuses them in a pause, and does everything else in
between.
*/
module FanSafety {
  import opened Wrappers
  import opened TempControl
  import Server = RegisterAccess
  import Lease = FanLease

  /** What the controller has under way, under its own lock. */
  datatype Doing = Nothing | Writing(write: FanWrite) | Releasing

  datatype World = World(server: Server.State, ctl: Ctl, doing: Doing)

  datatype Event =
    | Sample(dt: real, measured: Option<real>, now: real)   // reads the fan and decides
    | Send(now: real)             // the write, or the release, reaches the server
    | Unsent                      // or does not
    | NewSettings(change: Change)
    | NewController(ctl: Ctl)     // the process died and another one starts
    | Other(e: Server.Event)      // pauses, loads, ticks and everybody else's requests

  /** The request that the controller sends. */
  function Request(d: Doing, now: real): Server.Event
    requires !d.Nothing?
  {
    match d
    case Writing(w) => Server.Write(Server.REG_FAN_DUTY, w.duty, Some(w.lease), now)
    case Releasing => Server.Release(Server.REG_FAN_DUTY)
  }

  /** Only the controller leases and releases the fan. */
  predicate Enabled(w: World, e: Event) {
    match e
    case Sample(_, _, _) => w.doing.Nothing?
    case NewSettings(_) => w.doing.Nothing?
    case Send(_) => !w.doing.Nothing?
    case Unsent => !w.doing.Nothing?
    case NewController(c) => Sane(c)
    case Other(s) => Server.Enabled(w.server, s) && !Lease.FanCare(s)
  }

  function Step(w: World, e: Event): World
    requires Enabled(w, e)
  {
    match e
    case Sample(dt, measured, now) =>
      var register := if Server.Paused(w.server, now) then None else Some(Server.Duty(w.server.regs));
      var (ctl, write) := Sampled(w.ctl, dt, measured, register);
      World(Server.Step(w.server, Server.Read(now)), ctl, if write.Some? then Writing(write.value) else Nothing)
    case Send(now) => World(Server.Step(w.server, Request(w.doing, now)), w.ctl, Nothing)
    case Unsent => w.(doing := Nothing)
    case NewSettings(change) =>
      var (ctl, release) := Applied(w.ctl, change);
      w.(ctl := ctl, doing := if release then Releasing else Nothing)
    case NewController(ctl) => w.(ctl := ctl, doing := Nothing)
    case Other(s) => w.(server := Server.Step(w.server, s))
  }

  ghost predicate Run(worlds: seq<World>, events: seq<Event>) {
    && |worlds| == |events| + 1
    && forall k | 0 <= k < |events| :: Enabled(worlds[k], events[k]) && worlds[k + 1] == Step(worlds[k], events[k])
  }

  /** What a sane controller has under way: a duty with a lease of ten seconds, and a release
      only once it is off. */
  predicate Wellbehaved(w: World) {
    && Sane(w.ctl)
    && (w.doing.Writing? ==>
          0 <= w.doing.write.duty <= FAN_MAX_DUTY && w.doing.write.lease == LEASE_S && w.ctl.cfg.mode != Off)
    && (w.doing.Releasing? ==> w.ctl.cfg.mode == Off)
  }

  lemma StepStaysWellbehaved(w: World, e: Event)
    requires Wellbehaved(w) && Enabled(w, e)
    ensures Wellbehaved(Step(w, e))
  {
    match e
    case Sample(dt, measured, now) =>
      var register := if Server.Paused(w.server, now) then None else Some(Server.Duty(w.server.regs));
      StaysSane(w.ctl, dt, measured, register, Change(None, None, None, None, None));
    case NewSettings(change) => StaysSane(w.ctl, 0.0, None, None, change);
    case _ =>
  }

  lemma {:induction false} AlwaysWellbehaved(worlds: seq<World>, events: seq<Event>, k: nat)
    requires Run(worlds, events) && k < |worlds| && Wellbehaved(worlds[0])
    ensures Wellbehaved(worlds[k])
  {
    if k > 0 {
      AlwaysWellbehaved(worlds, events, k - 1);
      StepStaysWellbehaved(worlds[k - 1], events[k - 1]);
    }
  }

  /** The server takes a write of the controller. */
  predicate Taken(w: World, e: Event) {
    e.Send? && w.doing.Writing? && !Server.Paused(w.server, e.now)
  }

  /** A release of the controller reaches the server. */
  predicate Released(w: World, e: Event) {
    e.Send? && w.doing.Releasing?
  }

  /** The watchdog removes the fan's lease. */
  predicate Removed(e: Event) {
    e == Other(Server.TickPop(Server.REG_FAN_DUTY))
  }

  /** How long the loads that ended among the events from..upto had held the registers. */
  function Held(worlds: seq<World>, events: seq<Event>, from: nat, upto: nat): real
    requires from <= upto <= |events| && |worlds| == |events| + 1
    decreases upto
  {
    if from == upto then 0.0 else Held(worlds, events, from, upto - 1) + HeldBy(worlds[upto - 1], events[upto - 1])
  }

  function HeldBy(w: World, e: Event): real {
    if e.Other? && e.e.LoadEnd? && Server.Enabled(w.server, e.e) then e.e.now - w.server.phase.t0 else 0.0
  }

  /** After the write at `i` no other write and no release of the controller got through, and
      the watchdog has not removed the lease. */
  predicate SilentSince(worlds: seq<World>, events: seq<Event>, i: nat, j: nat)
    requires i < j <= |events| && |worlds| == |events| + 1
  {
    forall k | i < k < j :: !Taken(worlds[k], events[k]) && !Released(worlds[k], events[k]) && !Removed(events[k])
  }

  predicate LeasedUntil(w: World, deadline: real) {
    Server.REG_FAN_DUTY in w.server.leases && w.server.leases[Server.REG_FAN_DUTY] == deadline
  }

  lemma TakenLeases(w: World, e: Event)
    requires Wellbehaved(w) && Enabled(w, e) && Taken(w, e)
    ensures LeasedUntil(Step(w, e), e.now + LEASE_S) && Step(w, e).server.stale == w.server.stale
  {
  }

  lemma StepKeepsLease(w: World, e: Event, deadline: real)
    requires Enabled(w, e) && LeasedUntil(w, deadline)
    requires !Taken(w, e) && !Released(w, e) && !Removed(e)
    ensures LeasedUntil(Step(w, e), deadline + HeldBy(w, e))
  {
    if e.Other? {
      Lease.LeaseStep(w.server, e.e);
    }
  }

  lemma {:induction false} LeaseHolds(worlds: seq<World>, events: seq<Event>, i: nat, j: nat)
    requires Run(worlds, events) && Wellbehaved(worlds[0]) && i < j <= |events|
    requires Taken(worlds[i], events[i]) && SilentSince(worlds, events, i, j)
    ensures LeasedUntil(worlds[j], events[i].now + LEASE_S + Held(worlds, events, i + 1, j))
  {
    if j == i + 1 {
      AlwaysWellbehaved(worlds, events, i);
      TakenLeases(worlds[i], events[i]);
    } else {
      LeaseHolds(worlds, events, i, j - 1);
      StepKeepsLease(worlds[j - 1], events[j - 1], events[i].now + LEASE_S + Held(worlds, events, i + 1, j - 1));
    }
  }

  // ---- a removal comes late --------------------------------------------------------------

  /** The watchdog's snapshot at event a finds the deadline of the write at i over. */
  predicate LateSnap(worlds: seq<World>, events: seq<Event>, i: nat, a: nat)
    requires i < a < |events| && |worlds| == |events| + 1
  {
    && events[i].Send? && events[a].Other?
    && Lease.Snaps(events[a].e, events[i].now + LEASE_S + Held(worlds, events, i + 1, a))
  }

  /** Its test at event b finds no pause. */
  predicate OpenTest(worlds: seq<World>, events: seq<Event>, b: nat)
    requires b < |events| && |worlds| == |events| + 1
  {
    events[b].Other? && Lease.Tests(worlds[b].server, events[b].e)
  }

  ghost predicate Snapped(worlds: seq<World>, events: seq<Event>, i: nat, c: nat)
    requires i < c <= |events| && |worlds| == |events| + 1
  {
    exists a | i < a < c :: LateSnap(worlds, events, i, a)
  }

  ghost predicate SnappedAndTested(worlds: seq<World>, events: seq<Event>, i: nat, c: nat)
    requires i < c <= |events| && |worlds| == |events| + 1
  {
    exists a, b | i < a < b < c :: LateSnap(worlds, events, i, a) && OpenTest(worlds, events, b)
  }

  /** What the watchdog holds against the lease, it has seen since the write. */
  ghost predicate Seen(worlds: seq<World>, events: seq<Event>, i: nat, c: nat)
    requires i < c <= |events| && |worlds| == |events| + 1
  {
    var stale := worlds[c].server.stale;
    && (Server.Overdue(Server.REG_FAN_DUTY) in stale ==> Snapped(worlds, events, i, c))
    && (Server.RemovalDue(Server.REG_FAN_DUTY) in stale ==> SnappedAndTested(worlds, events, i, c))
  }

  /** What an event may add to it. */
  predicate Adds(w: World, e: Event, n: World, deadline: real) {
    var removal, overdue := Server.RemovalDue(Server.REG_FAN_DUTY), Server.Overdue(Server.REG_FAN_DUTY);
    && (removal in n.server.stale && removal !in w.server.stale ==>
          overdue in w.server.stale && e.Other? && Lease.Tests(w.server, e.e))
    && (overdue in n.server.stale && overdue !in w.server.stale ==> e.Other? && Lease.Snaps(e.e, deadline))
  }

  lemma DoomStep(w: World, e: Event, deadline: real)
    requires Enabled(w, e) && LeasedUntil(w, deadline)
    ensures Adds(w, e, Step(w, e), deadline)
  {
    if e.Other? {
      Lease.DoomStep(w.server, e.e);
    }
  }

  lemma SeenStep(worlds: seq<World>, events: seq<Event>, i: nat, c: nat)
    requires i + 1 < c <= |events| && |worlds| == |events| + 1 && events[i].Send?
    requires Adds(worlds[c - 1], events[c - 1], worlds[c], events[i].now + LEASE_S + Held(worlds, events, i + 1, c - 1))
    requires Seen(worlds, events, i, c - 1)
    ensures Seen(worlds, events, i, c)
  {
    var n, s := worlds[c].server.stale, worlds[c - 1].server.stale;
    if Server.Overdue(Server.REG_FAN_DUTY) in n && Server.Overdue(Server.REG_FAN_DUTY) !in s {
      assert LateSnap(worlds, events, i, c - 1);
    }
    if Server.RemovalDue(Server.REG_FAN_DUTY) in n && Server.RemovalDue(Server.REG_FAN_DUTY) !in s {
      var a :| i < a < c - 1 && LateSnap(worlds, events, i, a);
      assert LateSnap(worlds, events, i, a) && OpenTest(worlds, events, c - 1);
    }
  }

  lemma SeenFirst(worlds: seq<World>, events: seq<Event>, i: nat)
    requires Run(worlds, events) && Wellbehaved(worlds[0]) && i < |events|
    requires Taken(worlds[i], events[i]) && !Lease.Doomed(worlds[i].server.stale)
    ensures Seen(worlds, events, i, i + 1)
  {
    AlwaysWellbehaved(worlds, events, i);
    TakenLeases(worlds[i], events[i]);
  }

  lemma SeenNext(worlds: seq<World>, events: seq<Event>, i: nat, c: nat)
    requires Run(worlds, events) && Wellbehaved(worlds[0]) && i + 1 < c <= |events|
    requires Taken(worlds[i], events[i]) && SilentSince(worlds, events, i, c - 1) && Seen(worlds, events, i, c - 1)
    ensures Seen(worlds, events, i, c)
  {
    var deadline := events[i].now + LEASE_S + Held(worlds, events, i + 1, c - 1);
    LeaseHolds(worlds, events, i, c - 1);
    assert Enabled(worlds[c - 1], events[c - 1]) && worlds[c - 1 + 1] == Step(worlds[c - 1], events[c - 1]);
    DoomStep(worlds[c - 1], events[c - 1], deadline);
    SeenStep(worlds, events, i, c);
  }

  lemma {:induction false} SeenSince(worlds: seq<World>, events: seq<Event>, i: nat, c: nat)
    requires Run(worlds, events) && Wellbehaved(worlds[0]) && i < c <= |events|
    requires Taken(worlds[i], events[i]) && SilentSince(worlds, events, i, c) && !Lease.Doomed(worlds[i].server.stale)
    ensures Seen(worlds, events, i, c)
  {
    if c == i + 1 {
      SeenFirst(worlds, events, i);
    } else {
      SeenSince(worlds, events, i, c - 1);
      SeenNext(worlds, events, i, c);
    }
  }

  lemma RemovalWasDue(w: World, e: Event)
    requires Enabled(w, e) && Removed(e)
    ensures Server.RemovalDue(Server.REG_FAN_DUTY) in w.server.stale
  {
  }

  /** Main result. If no tick for an older lease was under way at the write, the lease that it
      took is removed only by a tick that took its snapshot ten seconds later or more - plus the
      time of the loads - and made its test outside a pause: a controller that gets through in
      time keeps the fan. */
  lemma RemovedLate(worlds: seq<World>, events: seq<Event>, i: nat, c: nat)
    requires Run(worlds, events) && Wellbehaved(worlds[0]) && i < c < |events|
    requires Taken(worlds[i], events[i]) && SilentSince(worlds, events, i, c) && Removed(events[c])
    requires !Lease.Doomed(worlds[i].server.stale)
    ensures SnappedAndTested(worlds, events, i, c)
  {
    SeenSince(worlds, events, i, c);
    RemovalWasDue(worlds[c], events[c]);
  }

  /** Main result. The last write of the controller that the server took was event `i`, and no
      release of it got through since: it crashed, hangs, was replaced by one that does not get
      through or is off, was switched off but could not say so, or all its requests fall into
      pauses. Then in every run, with the lease not removed before `j`, the tick that comes
      there - with its snapshot ten seconds after that write or later, not counting what loads
      have held the registers, and its test outside a pause - goes through, whatever comes
      between its steps, and leaves the fan at 128 or more and not lower than it was; in the
      fabric that stays, if no load is under way or begins. If one does, the raise may be in a
      fabric about to be replaced. */
  lemma SilentControllerRaisesFan(worlds: seq<World>, events: seq<Event>, i: nat, j: nat, t: Lease.Tick)
    requires Run(worlds, events) && Wellbehaved(worlds[0]) && i < j <= |events|
    requires Taken(worlds[i], events[i]) && SilentSince(worlds, events, i, j)
    requires t.snap >= events[i].now + LEASE_S + Held(worlds, events, i + 1, j)
    requires Lease.Possible(worlds[j].server, t) && !Server.Paused(Lease.BeforeTest(worlds[j].server, t), t.test)
    ensures Lease.Raises(worlds[j].server, t)
    ensures Lease.Loadless(worlds[j].server, t) ==> Lease.BeforeAct(worlds[j].server, t).phase.NoLoad?
  {
    LeaseHolds(worlds, events, i, j);
    Lease.SwitchActs(worlds[j].server, t);
  }

  /** And a tick that takes its snapshot before that leaves everything as it is. */
  lemma LiveControllerKeepsFan(worlds: seq<World>, events: seq<Event>, i: nat, j: nat, snap: real)
    requires Run(worlds, events) && Wellbehaved(worlds[0]) && i < j <= |events|
    requires Taken(worlds[i], events[i]) && SilentSince(worlds, events, i, j)
    requires snap < events[i].now + LEASE_S + Held(worlds, events, i + 1, j)
    ensures var tick := Server.TickSnap(Server.REG_FAN_DUTY, snap);
            Server.Enabled(worlds[j].server, tick) && Server.Step(worlds[j].server, tick) == worlds[j].server
  {
    LeaseHolds(worlds, events, i, j);
  }
}
