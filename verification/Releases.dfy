/**
GUI releases: `Releases` of fpga_web.py installs, confirms and rolls back; the supervisor
(de25web-supervisor.sh), outside every release, runs the current one and reverts one that does
not prove itself. The two share three names: current, previous and pending.
*/
module Releases {
  import opened Wrappers
  import opened CrashPlans

  type Rel = string

  const TEST_SECONDS: int := 120
  const MAX_FAILS: nat := 3
  const MAX_RELEASES: nat := 4

  datatype Links = Links(current: Option<Rel>, previous: Option<Rel>, pending: Option<Rel>, releases: set<Rel>)

  /** What `_prune` takes away, given the releases by age: all but the newest four, except
      those to keep. */
  function Pruned(byAge: seq<Rel>, keep: set<Rel>): set<Rel> {
    if |byAge| <= MAX_RELEASES then {}
    else (set i | 0 <= i < |byAge| - MAX_RELEASES :: byAge[i]) - keep
  }

  /** Of a listing without repetitions a release is pruned exactly when at least four newer ones
      follow it and it is not to be kept. */
  lemma PrunedIff(byAge: seq<Rel>, keep: set<Rel>, i: nat)
    requires i < |byAge| && forall j, k | 0 <= j < k < |byAge| :: byAge[j] != byAge[k]
    ensures byAge[i] in Pruned(byAge, keep) <==> 4 <= |byAge[i + 1..]| && byAge[i] !in keep
  {
  }

  function Keep(rel: Rel, cur: Option<Rel>): set<Rel> {
    {rel} + if cur.Some? then {cur.value} else {}
  }

  function Installed(l: Links, rel: Rel, byAge: seq<Rel>): Links {
    Links(Some(rel), if l.current.Some? && l.current.value != rel then l.current else l.previous, Some(rel),
          l.releases + {rel} - Pruned(byAge, Keep(rel, l.current)))
  }

  function RolledBack(l: Links): Links
    requires l.previous.Some?
  {
    l.(current := l.previous, previous := l.current, pending := l.previous)
  }

  function Reverted(l: Links): Links {
    if l.previous.None? then l.(pending := None)
    else l.(current := l.previous, previous := l.current, pending := None)
  }

  datatype Outcome = Changed(rel: Rel) | NothingPending | NotTheOneRunning | NoPrevious

  /** The directory that both programs work in. */
  class Base {
    var current: Option<Rel>
    var previous: Option<Rel>
    var pending: Option<Rel>
    var releases: set<Rel>

    ghost function L(): Links
      reads this
    {
      Links(current, previous, pending, releases)
    }

    /** `Releases.install`, once the archive has passed its checks; `byAge` is the listing of
        the releases by modification time. */
    method Install(rel: Rel, byAge: seq<Rel>)
      modifies this
      ensures L() == Installed(old(L()), rel, byAge)
    {
      releases := releases + {rel};
      var cur := current;
      if cur.Some? && cur.value != rel {
        previous := cur;
      }
      current := Some(rel);
      pending := Some(rel);
      Prune(byAge, Keep(rel, cur));
    }

    method Prune(byAge: seq<Rel>, keep: set<Rel>)
      modifies this`releases
      ensures releases == old(releases) - Pruned(byAge, keep)
    {
      if |byAge| <= MAX_RELEASES {
        return;
      }
      for i := 0 to |byAge| - MAX_RELEASES
        invariant releases == old(releases) - ((set k | 0 <= k < i :: byAge[k]) - keep)
      {
        if byAge[i] !in keep {
          releases := releases - {byAge[i]};
        }
      }
    }

    method Confirm(running: Rel) returns (r: Outcome)
      modifies this`pending
      ensures r == NothingPending <==> old(pending) == None
      ensures r == Changed(running) <==> old(pending) == Some(running)
      ensures pending == if old(pending) == Some(running) then None else old(pending)
    {
      if pending.None? {
        return NothingPending;
      }
      if pending.value != running {
        return NotTheOneRunning;
      }
      pending := None;
      return Changed(running);
    }

    method Rollback() returns (r: Outcome)
      modifies this
      ensures old(previous).None? ==> r == NoPrevious && L() == old(L())
      ensures old(previous).Some? ==> r == Changed(old(previous).value) && L() == RolledBack(old(L()))
    {
      var prev, cur := previous, current;
      if prev.None? {
        return NoPrevious;
      }
      current := prev;
      previous := cur;
      pending := prev;
      return Changed(prev.value);
    }

    /** The supervisor's `revert`. */
    method Revert()
      modifies this
      ensures L() == Reverted(old(L()))
    {
      var prev := previous;
      if prev.None? {
        pending := None;
        return;
      }
      var bad := current;
      current := prev;
      previous := bad;
      pending := None;
    }
  }

  // ---- both programs as one machine ------------------------------------------------------

  /** The links, the releases that were confirmed while on test (or trusted at the start), the
      release whose processes run, and the supervisor's test. */
  datatype State = State(links: Links, confirmed: set<Rel>, serving: Option<Rel>,
                         test: Option<Rel>, t0: int, fails: nat)

  datatype Event =
    | Install(rel: Rel, byAge: seq<Rel>)
    | Rollback
    | Confirm
    | StartRound(now: int)                       // the supervisor starts the current release
    | Poll(now: int, split: bool, dead: nat)     // once a second; `dead` helpers were found dead
    | WebExit                                    // the web server is gone
    | Restart                                    // the supervisor or the board starts again

  predicate OnTest(l: Links, r: Option<Rel>) {
    r.Some? && l.pending == r
  }

  /** Installs and rollbacks start with nothing on test, an install brings a new release, and
      requests are answered by the release that runs. */
  predicate Enabled(s: State, e: Event) {
    match e
    case Install(rel, _) => s.serving.Some? && s.links.pending.None? && s.links.current != Some(rel)
    case Rollback => s.serving.Some? && s.links.pending.None? && s.links.previous.Some?
    case Confirm => s.serving.Some?
    case StartRound(_) => s.serving.None? && s.links.current.Some?
    case Poll(_, split, dead) => s.serving.Some? && dead <= 2 && (!split ==> dead == 0)
    case WebExit => s.serving.Some?
    case Restart => true
  }

  /** How many exits of the release on test an event counts. */
  function Exits(s: State, e: Event): nat {
    match e
    case Poll(_, _, dead) => if OnTest(s.links, s.test) then dead else 0
    case WebExit => if OnTest(s.links, s.test) && s.links.current == s.test then 1 else 0
    case _ => 0
  }

  /** The test ends in a revert. */
  predicate Reverts(s: State, e: Event) {
    match e
    case Poll(now, split, dead) =>
      OnTest(s.links, s.test) && ((split && s.fails + dead >= MAX_FAILS) || now - s.t0 >= TEST_SECONDS)
    case WebExit => Exits(s, e) == 1 && s.fails + 1 >= MAX_FAILS
    case Restart => s.links.pending.Some?
    case _ => false
  }

  function Step(s: State, e: Event): State
    requires Enabled(s, e)
  {
    match e
    case Install(rel, byAge) => s.(links := Installed(s.links, rel, byAge))
    case Rollback => s.(links := RolledBack(s.links))
    case Confirm =>
      if s.links.pending == s.serving
      then s.(links := s.links.(pending := None), confirmed := s.confirmed + {s.serving.value})
      else s
    case StartRound(now) =>
      var rel := s.links.current;
      var again := s.(serving := rel);
      if !OnTest(s.links, rel) then again.(test := None)
      else if s.test != rel then again.(test := rel, t0 := now, fails := 0)
      else again
    case Poll(now, split, dead) =>
      if !OnTest(s.links, s.test) then s.(test := None)
      else if Reverts(s, e)
      then s.(links := Reverted(s.links), test := None, serving := None, fails := s.fails + dead)
      else s.(fails := s.fails + dead)
    case WebExit =>
      var gone := s.(serving := None, fails := s.fails + Exits(s, e));
      if Reverts(s, e) then gone.(links := Reverted(s.links), test := None) else gone
    case Restart =>
      State(if s.links.pending.Some? then Reverted(s.links) else s.links, s.confirmed, None, None, 0, 0)
  }

  /** The supervisor's own variables around the shared directory. */
  class Supervisor {
    const base: Base
    var serving: Option<Rel>
    var test: Option<Rel>
    var t0: int
    var fails: nat
    ghost var confirmed: set<Rel>

    ghost function S(): State
      reads this, base
    {
      State(base.L(), confirmed, serving, test, t0, fails)
    }

    /** The start-up check: a pending file means that a test never finished. */
    constructor (base: Base, ghost confirmed: set<Rel>)
      modifies base
      ensures this.base == base
      ensures forall s: State | s.links == old(base.L()) && s.confirmed == confirmed :: S() == Step(s, Restart)
    {
      this.base := base;
      this.confirmed := confirmed;
      serving, test, t0, fails := None, None, 0, 0;
      new;
      if base.pending.Some? {
        base.Revert();
      }
    }

    /** The head of the main loop. */
    method Start(now: int)
      requires Enabled(S(), StartRound(now))
      modifies this
      ensures S() == Step(old(S()), StartRound(now)) && confirmed == old(confirmed)
    {
      var rel := base.current;
      if base.pending == rel {
        if test != rel {
          test := rel;
          t0 := now;
          fails := 0;
        }
      } else {
        test := None;
      }
      serving := rel;
    }

    /** One turn of the inner loop; `accessDead` and `controlDead` are what it finds. */
    method PollOnce(now: int, split: bool, accessDead: bool, controlDead: bool) returns (reverted: bool)
      requires serving.Some?
      modifies this, base
      ensures var dead := if split then (if accessDead then 1 else 0) + (if controlDead then 1 else 0) else 0;
              && Enabled(old(S()), Poll(now, split, dead))
              && S() == Step(old(S()), Poll(now, split, dead))
              && reverted == Reverts(old(S()), Poll(now, split, dead))
    {
      if !(test.Some? && base.pending == test) {
        test := None;
      }
      if split {
        if accessDead && test.Some? {
          fails := fails + 1;
        }
        if controlDead && test.Some? {
          fails := fails + 1;
        }
        if test.Some? && fails >= MAX_FAILS {
          serving := None;
          base.Revert();
          test := None;
          return true;
        }
      }
      if test.Some? && now - t0 >= TEST_SECONDS {
        serving := None;
        base.Revert();
        test := None;
        return true;
      }
      return false;
    }

    /** The tail of the main loop, after the web server has exited. */
    method WebExited()
      requires serving.Some?
      modifies this, base
      ensures S() == Step(old(S()), WebExit)
    {
      serving := None;
      if test.Some? && base.pending == test && base.current == test {
        fails := fails + 1;
        if fails >= MAX_FAILS {
          base.Revert();
          test := None;
        }
      }
    }
  }

  // ---- every reachable state -------------------------------------------------------------

  /** What the two programs keep between them. */
  predicate Safe(s: State) {
    var l := s.links;
    && l.current.Some? && l.current.value in l.releases
    && (l.previous.Some? ==> l.previous.value in l.releases && l.previous != l.current)
    && (l.pending.None? ==> l.current.value in s.confirmed)
    && (l.pending.Some? ==> l.pending == l.current && l.previous.Some? && l.previous.value in s.confirmed)
  }

  lemma StepStaysSafe(s: State, e: Event)
    requires Safe(s) && Enabled(s, e)
    ensures Safe(Step(s, e))
  {
  }

  ghost predicate Run(states: seq<State>, events: seq<Event>) {
    && |states| == |events| + 1
    && forall i | 0 <= i < |events| :: Enabled(states[i], events[i]) && states[i + 1] == Step(states[i], events[i])
  }

  /** Main result. In every state of every run: without a pending file the current release was
      confirmed; a pending release is the current one, and the previous one was confirmed and
      is still on the disk. */
  lemma {:induction false} AlwaysSafe(states: seq<State>, events: seq<Event>, i: nat)
    requires Run(states, events) && i < |states| && Safe(states[0])
    ensures Safe(states[i])
  {
    if i > 0 {
      AlwaysSafe(states, events, i - 1);
      StepStaysSafe(states[i - 1], events[i - 1]);
    }
  }

  /** Exits counted in a run's steps from..upto. */
  function ExitsIn(states: seq<State>, events: seq<Event>, from: nat, upto: nat): nat
    requires from <= upto <= |events| && |states| == |events| + 1
    decreases upto
  {
    if from == upto then 0 else ExitsIn(states, events, from, upto - 1) + Exits(states[upto - 1], events[upto - 1])
  }

  /** The release `r` is on test, and the supervisor is testing it. */
  predicate Testing(s: State, r: Rel) {
    s.links.pending == Some(r) && s.test == Some(r) && s.links.current == Some(r)
  }

  /** Main result. As long as a release stays on test - it is neither confirmed nor reverted -
      fewer than three of its processes have exited, and every poll so far came within
      120 seconds of the start of the test. So the exit that makes three, or the first
      poll past them, ends the test. */
  lemma {:induction false} TestIsBounded(states: seq<State>, events: seq<Event>, from: nat, upto: nat, r: Rel)
    requires Run(states, events) && from <= upto < |states|
    requires forall k | from <= k <= upto :: Testing(states[k], r)
    requires states[from].fails < 3
    ensures states[upto].fails == states[from].fails + ExitsIn(states, events, from, upto) < 3
    ensures states[upto].t0 == states[from].t0
    ensures forall k | from <= k < upto && events[k].Poll? :: events[k].now < states[from].t0 + 120
  {
    if from < upto {
      TestIsBounded(states, events, from, upto - 1, r);
      assert Testing(states[upto - 1], r) && Testing(states[upto], r);
      assert states[upto] == Step(states[upto - 1], events[upto - 1]);
      OneTestStep(states[upto - 1], events[upto - 1], r);
    }
  }

  lemma OneTestStep(s: State, e: Event, r: Rel)
    requires Testing(s, r) && Enabled(s, e) && Testing(Step(s, e), r) && s.fails < MAX_FAILS
    ensures Step(s, e).fails == s.fails + Exits(s, e) < MAX_FAILS && Step(s, e).t0 == s.t0
    ensures e.Poll? ==> e.now < s.t0 + TEST_SECONDS
  {
  }

  /** The release on test is confirmed. */
  predicate Confirms(s: State, e: Event, r: Rel) {
    e.Confirm? && s.serving == Some(r) && s.links.pending == Some(r)
  }

  /** A test that stops was confirmed, or reverted to a confirmed release. */
  lemma TestEnds(s: State, e: Event, r: Rel)
    requires Safe(s) && Enabled(s, e) && Testing(s, r) && !Testing(Step(s, e), r)
    ensures var n := Step(s, e);
            && n.links.pending.None? && n.links.current.Some? && n.links.current.value in n.confirmed
            && (Confirms(s, e, r) || Reverts(s, e))
            && (Confirms(s, e, r) ==> n.links.current == Some(r))
            && (Reverts(s, e) ==> n.links.current == s.links.previous && n.links.current != Some(r))
  {
  }

  /** From `from` to `upto` the release is on test within its bounds. */
  ghost predicate StillTesting(states: seq<State>, events: seq<Event>, from: nat, upto: nat, r: Rel)
    requires from <= upto < |states| && |states| == |events| + 1
  {
    && (forall k | from <= k <= upto :: Testing(states[k], r))
    && states[from].fails + ExitsIn(states, events, from, upto) < MAX_FAILS
    && (forall k | from <= k < upto && events[k].Poll? :: events[k].now < states[from].t0 + TEST_SECONDS)
  }

  /** At event `k` the test ended: `r` was confirmed and is current, or a confirmed release is
      current in its place. */
  ghost predicate EndedAt(states: seq<State>, events: seq<Event>, k: nat, r: Rel)
    requires k < |events| && |states| == |events| + 1
  {
    var n := states[k + 1];
    && n.links.pending.None? && n.links.current.Some? && n.links.current.value in n.confirmed
    && if Confirms(states[k], events[k], r) then n.links.current == Some(r)
       else Reverts(states[k], events[k]) && n.links.current != Some(r)
  }

  /** Main result. Every test ends well: at each moment after a release was put on test it is
      still on test, with fewer than MAX_FAILS exits and no poll past TEST_SECONDS; or the test
      has ended with the release confirmed or with a confirmed release back in its place. */
  lemma {:induction false} EveryTestEnds(states: seq<State>, events: seq<Event>, from: nat, upto: nat, r: Rel)
    requires Run(states, events) && from <= upto < |states| && Safe(states[0])
    requires Testing(states[from], r) && states[from].fails < MAX_FAILS
    ensures StillTesting(states, events, from, upto, r)
         || exists k | from <= k < upto :: StillTesting(states, events, from, k, r) && EndedAt(states, events, k, r)
  {
    if from < upto {
      EveryTestEnds(states, events, from, upto - 1, r);
      if StillTesting(states, events, from, upto - 1, r) {
        AlwaysSafe(states, events, upto - 1);
        TestGoesOnOrEnds(states, events, from, upto, r);
      }
    }
  }

  lemma TestGoesOnOrEnds(states: seq<State>, events: seq<Event>, from: nat, upto: nat, r: Rel)
    requires Run(states, events) && from < upto < |states| && Safe(states[upto - 1])
    requires states[from].fails < MAX_FAILS && StillTesting(states, events, from, upto - 1, r)
    ensures StillTesting(states, events, from, upto, r) || EndedAt(states, events, upto - 1, r)
  {
    var k := upto - 1;
    assert Enabled(states[k], events[k]) && states[k + 1] == Step(states[k], events[k]);
    if Testing(states[upto], r) {
      TestIsBounded(states, events, from, upto, r);
    } else {
      TestEnds(states[k], events[k], r);
    }
  }

  /** A test begins when the supervisor next starts what is current, with a fresh count. */
  lemma TestBegins(s: State, now: int, r: Rel)
    requires Safe(s) && s.links.pending == Some(r) && Enabled(s, StartRound(now)) && s.test != Some(r)
    ensures var n := Step(s, StartRound(now)); Testing(n, r) && n.t0 == now && n.fails == 0 && n.serving == Some(r)
  {
  }

  /** A revert brings a confirmed release back. */
  lemma RevertIsConfirmed(s: State, e: Event)
    requires Safe(s) && Enabled(s, e) && Reverts(s, e)
    ensures var n := Step(s, e); n.links.current == s.links.previous && n.links.pending.None?
                                 && n.links.current.value in s.confirmed
  {
  }

  /** Which installs keep the state safe, with no assumption on when and what: a new release
      needs a confirmed current one to fall back to; installing the current release again
      leaves `previous` as it was, and pruning may take it. */
  lemma InstallIsSafeIff(s: State, rel: Rel, byAge: seq<Rel>)
    requires Safe(s)
    ensures var l := s.links;
            Safe(s.(links := Installed(l, rel, byAge))) <==>
              if l.current != Some(rel) then l.current.value in s.confirmed
              else && l.previous.Some? && l.previous.value in s.confirmed
                   && l.previous.value !in Pruned(byAge, {rel})
  {
    assert Keep(rel, Some(rel)) == {rel};
  }

  // ---- a power cut inside a switch -------------------------------------------------------

  datatype Name = Current | Previous | Pending

  type Disk = map<Name, Rel>

  /** The order of `install`: the link replacements are atomic, the pending file is not. */
  function InstallPlan(d: Disk, rel: Rel): seq<Op<Name, Rel>> {
    (if Current in d && d[Current] != rel then [Put(Previous, d[Current])] else [])
    + [Put(Current, rel), Fill(Pending, rel)]
  }

  function RollbackPlan(d: Disk): seq<Op<Name, Rel>>
    requires Current in d && Previous in d
  {
    [Put(Current, d[Previous])] + [Put(Previous, d[Current]), Fill(Pending, d[Previous])]
  }

  /** The supervisor's revert, of a release that is on test. */
  function RevertPlan(d: Disk): seq<Op<Name, Rel>>
    requires Current in d && Previous in d
  {
    [Put(Current, d[Previous])] + [Put(Previous, d[Current]), Drop(Pending)]
  }

  /** What the supervisor makes of a disk when it starts: any pending file means revert. */
  function Started(d: Disk): Disk {
    if Pending !in d then d
    else if Previous !in d || Current !in d then d - {Pending}
    else d[Current := d[Previous]][Previous := d[Current]] - {Pending}
  }

  function Get(d: Disk, n: Name): Option<Rel> {
    if n in d then Some(d[n]) else None
  }

  function AsLinks(d: Disk, releases: set<Rel>): Links {
    Links(Get(d, Current), Get(d, Previous), Get(d, Pending), releases)
  }

  /** Uncut, the plan of an install ends where the method does. */
  lemma InstallPlanIs(d: Disk, rel: Rel, byAge: seq<Rel>, r: set<Rel>)
    ensures AsLinks(Exec(InstallPlan(d, rel), d), r) == Installed(AsLinks(d, r), rel, byAge).(releases := r)
  {
    var switch: seq<Op<Name, Rel>> := [Put(Current, rel), Fill(Pending, rel)];
    assert [] + switch == switch;
    ExecTwo(Put(Current, rel), Fill(Pending, rel), d);
    if Current in d {
      ExecThree(Put(Previous, d[Current]), Put(Current, rel), Fill(Pending, rel), d);
    }
  }

  /** And so do the plans of a rollback and a revert, and the start-up. */
  lemma SwapPlansAre(d: Disk, r: set<Rel>)
    requires Current in d && Previous in d
    ensures AsLinks(Exec(RollbackPlan(d), d), r) == RolledBack(AsLinks(d, r))
    ensures AsLinks(Exec(RevertPlan(d), d), r) == Reverted(AsLinks(d, r))
    ensures AsLinks(Started(d), r) == if Pending in d then Reverted(AsLinks(d, r)) else AsLinks(d, r)
  {
    ExecThree(Put(Current, d[Previous]), Put(Previous, d[Current]), Fill(Pending, d[Previous]), d);
    ExecThree(Put(Current, d[Previous]), Put(Previous, d[Current]), Drop(Pending), d);
  }

  lemma ExecThree<K, V>(a: Op<K, V>, b: Op<K, V>, c: Op<K, V>, d: map<K, V>)
    ensures Exec([a] + [b, c], d) == Apply(c, Apply(b, Apply(a, d)))
  {
    ExecConcat([a], [b, c], d);
    ExecOne(a, d);
    ExecTwo(b, c, Apply(a, d));
  }

  lemma CutThree<K, V>(a: Op<K, V>, b: Op<K, V>, c: Op<K, V>, d: map<K, V>, cut: map<K, V>)
    ensures Cut([a] + [b, c], d, cut) <==>
              || cut == d || Torn(a, d, cut) || cut == Apply(a, d)
              || Torn(b, Apply(a, d), cut) || cut == Apply(b, Apply(a, d))
              || Torn(c, Apply(b, Apply(a, d)), cut) || cut == Apply(c, Apply(b, Apply(a, d)))
  {
    CutConcat([a], [b, c], d, cut);
    CutOne(a, d, cut);
    ExecOne(a, d);
    CutTwo(b, c, Apply(a, d), cut);
  }

  /** Main result. A power cut inside an install of a new release: when the supervisor starts
      again the old release runs, at every cut but one - after the current link was switched
      and before the pending file exists - where the new one stays without a test. */
  lemma InstallCutRecovers(d: Disk, rel: Rel, c: Disk)
    requires Current in d && Pending !in d && d[Current] != rel && Cut(InstallPlan(d, rel), d, c)
    ensures Started(c).Keys >= {Current} && Pending !in Started(c)
    ensures Started(c)[Current] == d[Current] <==> !(c[Current] == rel && Pending !in c)
    ensures Started(c)[Current] != d[Current] ==> Started(c)[Current] == rel
  {
    CutThree(Put(Previous, d[Current]), Put(Current, rel), Fill(Pending, rel), d, c);
  }

  /** The cut happens, for every board. */
  lemma InstallGap(d: Disk, rel: Rel)
    requires Current in d && Pending !in d && d[Current] != rel
    ensures var c := d[Previous := d[Current]][Current := rel];
            Cut(InstallPlan(d, rel), d, c) && Started(c)[Current] == rel
  {
    CutThree(Put(Previous, d[Current]), Put(Current, rel), Fill(Pending, rel), d,
             d[Previous := d[Current]][Current := rel]);
  }

  /** The same for a rollback: it is on test again only once the pending file exists. */
  lemma RollbackCutRecovers(d: Disk, c: Disk)
    requires Current in d && Previous in d && Pending !in d && d[Current] != d[Previous] && Cut(RollbackPlan(d), d, c)
    ensures Current in Started(c) && Pending !in Started(c)
    ensures Started(c)[Current] == d[Current] <==> !(c[Current] == d[Previous] && Pending !in c)
  {
    CutThree(Put(Current, d[Previous]), Put(Previous, d[Current]), Fill(Pending, d[Previous]), d, c);
  }

  /** A revert of `d[Current]`: after a cut and the restart the release it was going back to
      runs, at every cut but one - both links switched, the pending file still there - where
      the restart reverts once more, to the release that failed. */
  lemma RevertCutRecovers(d: Disk, c: Disk)
    requires Current in d && Previous in d && Pending in d && d[Current] != d[Previous] && Cut(RevertPlan(d), d, c)
    ensures Current in c && Previous in c && Current in Started(c) && Pending !in Started(c)
    ensures Started(c)[Current] == d[Previous] <==>
              !(Pending in c && c[Current] == d[Previous] && c[Previous] == d[Current])
    ensures Started(c)[Current] != d[Previous] ==> Started(c)[Current] == d[Current]
  {
    CutThree(Put(Current, d[Previous]), Put(Previous, d[Current]), Drop(Pending), d, c);
  }

  lemma RevertGap(d: Disk)
    requires Current in d && Previous in d && Pending in d
    ensures var c := d[Current := d[Previous]][Previous := d[Current]];
            Cut(RevertPlan(d), d, c) && Started(c)[Current] == d[Current]
  {
    CutThree(Put(Current, d[Previous]), Put(Previous, d[Current]), Drop(Pending), d,
             d[Current := d[Previous]][Previous := d[Current]]);
  }
}
