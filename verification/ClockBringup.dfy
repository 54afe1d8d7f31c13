/**
Bringing up the PLLs of the clock manager (clkmgr_bringup.c): both PLLs are bypassed while they
are programmed, and the bypasses are opened only once both are locked.
*/
module ClockBringup {
  import opened Wrappers

  const MAX_RETRY: nat := 1000

  // register addresses
  const CLKMGR: int := 0x10D1_0000
  const MAIN: int := 0x10D1_0024
  const PER: int := 0x10D1_007C
  const ALTERA: int := 0x10D1_00D0
  const SYSMGR: int := 0x10D1_2000

  const CTRL: int := CLKMGR + 0x00
  const INTRCLR: int := CLKMGR + 0x14
  const MAIN_BYPASS: int := MAIN + 0x0C
  const PER_BYPASS: int := PER + 0x0C

  const BOOTMODE: bv32 := 1
  const MAIN_ALL: bv32 := 0xF6
  const PER_ALL: bv32 := 0xEF
  const LOCKED: bv32 := 0x1_0100

  // ---- the wait loops --------------------------------------------------------------------

  /** The status register as it will be read, one value a read. */
  type Status = nat -> bv32

  predicate Idle(status: Status, k: nat) {
    status(k) & 1 == 0
  }

  predicate Locked(status: Status, mask: bv32, k: nat) {
    status(k) & mask == mask
  }

  /** One of the first 1000 reads from `start` on finds the state machine idle. */
  predicate IdleInTime(status: Status, start: nat) {
    exists k | start <= k < start + 1000 :: Idle(status, k)
  }

  /** The first idle read from `start` on is the one before read `next`. */
  ghost predicate IdleAt(status: Status, start: nat, next: nat) {
    && start < next <= start + MAX_RETRY && Idle(status, next - 1)
    && forall i | start <= i < next - 1 :: !Idle(status, i)
  }

  /** How far the stream is read by a wait that ends well. */
  ghost function IdleEnd(status: Status, start: nat): (end: Option<nat>)
    ensures end.Some? <==> exists next: nat :: IdleAt(status, start, next)
    ensures end.Some? ==> IdleAt(status, start, end.value)
  {
    if exists next: nat :: IdleAt(status, start, next)
    then var next: nat :| IdleAt(status, start, next); Some(next)
    else None
  }

  lemma IdleEndIs(status: Status, start: nat, next: nat)
    requires IdleAt(status, start, next)
    ensures IdleEnd(status, start) == Some(next)
  {
    var end := IdleEnd(status, start).value;
    assert Idle(status, end - 1) && Idle(status, next - 1);
  }

  method WaitFsm(status: Status, start: nat) returns (ok: bool, next: nat)
    ensures ok <==> IdleInTime(status, start)
    ensures start <= next <= start + MAX_RETRY
    ensures IdleEnd(status, start) == if ok then Some(next) else None
  {
    var count := 0;
    next := start;
    while true
      invariant count <= MAX_RETRY && next == start + count
      invariant forall k | start <= k < next :: !Idle(status, k)
      decreases MAX_RETRY - count
    {
      if count >= MAX_RETRY {
        return false, next;
      }
      var data := status(next);
      next := next + 1;
      count := count + 1;
      if data & 1 == 0 {
        assert Idle(status, next - 1);
        IdleEndIs(status, start, next);
        return true, next;
      }
    }
  }

  /** Five locked reads in a row from k on. */
  predicate FiveLocked(status: Status, mask: bv32, k: nat) {
    forall i | k <= i < k + 5 :: Locked(status, mask, i)
  }

  predicate LockInTime(status: Status, mask: bv32, start: nat) {
    exists k | start <= k <= start + 995 :: FiveLocked(status, mask, k)
  }

  /** The last `retry` reads before `next` were locked, the one before them - from `start` on -
      was not, and no five in a row have been seen. */
  ghost predicate Counting(status: Status, mask: bv32, start: nat, next: nat, retry: nat) {
    && start + retry <= next && retry < 5
    && (forall i | next - retry <= i < next :: Locked(status, mask, i))
    && (start + retry < next ==> !Locked(status, mask, next - retry - 1))
    && (forall k | start <= k <= next - 5 :: !FiveLocked(status, mask, k))
  }

  lemma CountOne(status: Status, mask: bv32, start: nat, next: nat, retry: nat)
    requires Counting(status, mask, start, next, retry)
    ensures !Locked(status, mask, next) ==> Counting(status, mask, start, next + 1, 0)
    ensures Locked(status, mask, next) && retry < 4 ==> Counting(status, mask, start, next + 1, retry + 1)
    ensures Locked(status, mask, next) && retry == 4 ==> FiveLocked(status, mask, next - 4) && start <= next - 4
  {
    if !Locked(status, mask, next) || retry < 4 {
      forall k | start <= k <= next + 1 - 5
        ensures !FiveLocked(status, mask, k)
      {
        if k == next - 4 {
          NotFive(status, mask, k, if !Locked(status, mask, next) then next else next - retry - 1);
        }
      }
    }
  }

  lemma NotFive(status: Status, mask: bv32, k: nat, i: nat)
    requires k <= i < k + 5 && !Locked(status, mask, i)
    ensures !FiveLocked(status, mask, k)
  {
  }

  /** The first five locked reads in a row from `start` on end before read `next`. */
  ghost predicate LockAt(status: Status, mask: bv32, start: nat, next: nat) {
    && start + 5 <= next <= start + MAX_RETRY && FiveLocked(status, mask, next - 5)
    && forall k | start <= k < next - 5 :: !FiveLocked(status, mask, k)
  }

  ghost function LockEnd(status: Status, mask: bv32, start: nat): (end: Option<nat>)
    ensures end.Some? <==> exists next: nat :: LockAt(status, mask, start, next)
    ensures end.Some? ==> LockAt(status, mask, start, end.value)
  {
    if exists next: nat :: LockAt(status, mask, start, next)
    then var next: nat :| LockAt(status, mask, start, next); Some(next)
    else None
  }

  lemma LockEndIs(status: Status, mask: bv32, start: nat, next: nat)
    requires LockAt(status, mask, start, next)
    ensures LockEnd(status, mask, start) == Some(next)
  {
    var end := LockEnd(status, mask, start).value;
    assert FiveLocked(status, mask, end - 5) && FiveLocked(status, mask, next - 5);
  }

  /** Main result: the wait ends well exactly when five consecutive reads among the first 1000
      find both PLLs locked. */
  method WaitPllLock(status: Status, mask: bv32, start: nat) returns (ok: bool, next: nat)
    ensures ok <==> LockInTime(status, mask, start)
    ensures start <= next <= start + MAX_RETRY
    ensures LockEnd(status, mask, start) == if ok then Some(next) else None
  {
    var count, retry := 0, 0;
    next := start;
    while true
      invariant count <= MAX_RETRY && next == start + count
      invariant Counting(status, mask, start, next, retry)
      decreases MAX_RETRY - count
    {
      if count >= MAX_RETRY {
        return false, next;
      }
      ghost var before := next;
      CountOne(status, mask, start, before, retry);
      retry := if Locked(status, mask, next) then retry + 1 else 0;
      next := next + 1;
      if retry >= 5 {
        LockEndIs(status, mask, start, next);
        break;
      }
      count := count + 1;
    }
    ok := true;
  }

  // ---- the sequence ----------------------------------------------------------------------

  type Regs = map<int, bv32>

  function Get(regs: Regs, a: int): bv32 {
    if a in regs then regs[a] else 0
  }

  datatype Pll = Pll(pllglob: bv32, fdbck: bv32, vcocalib: bv32, c0: bv32, c1: bv32, c2: bv32, c3: bv32, pllm: bv32)

  /** The handoff, with the VCO calibrations computed from it. */
  datatype Handoff = Handoff(main: Pll, nocclk: bv32, nocdiv: bv32, per: Pll, emacctl: bv32, gpiodiv: bv32,
                             emaca: bv32, emacb: bv32, emacptp: bv32, gpiodb: bv32, s2fuser0: bv32, s2fuser1: bv32,
                             psiref: bv32, usb31: bv32, dsu: bv32, core01: bv32, core23: bv32, core2: bv32, core3: bv32,
                             oscHz: bv32, fpgaHz: bv32)

  const NOT_RST_N: bv32 := 0xFFFF_FFFD
  const PD_AND_RST: bv32 := 3
  const PLLCX_EN: bv32 := 0x800_0000
  const CLR_LOSTLOCK: bv32 := 0x2000_0000

  datatype RegOp = W(a: int, v: bv32) | S(a: int, v: bv32) | C(a: int, v: bv32)   // write, set bits, clear bits

  type Table = seq<RegOp>

  /** Both PLLs reset, and the main PLL programmed from the handoff. */
  function MainTable(h: Handoff): Table {
    [C(MAIN + 0x24, PD_AND_RST), C(PER + 0x20, PD_AND_RST),
     W(MAIN + 0x24, h.main.pllglob & NOT_RST_N), W(MAIN + 0x28, h.main.fdbck), W(MAIN + 0x34, h.main.vcocalib),
     W(MAIN + 0x38, h.main.c0), W(MAIN + 0x3C, h.main.c1), W(MAIN + 0x40, h.main.c2), W(MAIN + 0x44, h.main.c3),
     W(MAIN + 0x48, h.main.pllm), W(MAIN + 0x1C, h.nocclk), W(MAIN + 0x20, h.nocdiv)]
  }

  function PerTable(h: Handoff): Table {
    [W(PER + 0x20, h.per.pllglob & NOT_RST_N), W(PER + 0x24, h.per.fdbck), W(PER + 0x30, h.per.vcocalib),
     W(PER + 0x34, h.per.c0), W(PER + 0x38, h.per.c1), W(PER + 0x3C, h.per.c2), W(PER + 0x40, h.per.c3),
     W(PER + 0x44, h.per.pllm), W(PER + 0x18, h.emacctl), W(PER + 0x1C, h.gpiodiv)]
  }

  function AlteraTable(h: Handoff): Table {
    [W(ALTERA + 0x04, h.emaca), W(ALTERA + 0x08, h.emacb), W(ALTERA + 0x0C, h.emacptp), W(ALTERA + 0x10, h.gpiodb),
     W(ALTERA + 0x18, h.s2fuser0), W(ALTERA + 0x1C, h.s2fuser1), W(ALTERA + 0x20, h.psiref), W(ALTERA + 0x28, h.usb31),
     W(ALTERA + 0x2C, h.dsu), W(ALTERA + 0x30, h.core01), W(ALTERA + 0x34, h.core23), W(ALTERA + 0x38, h.core2),
     W(ALTERA + 0x3C, h.core3),
     S(MAIN + 0x24, PD_AND_RST), S(PER + 0x20, PD_AND_RST)]
  }

  /** The PLL's configuration words (address, data, mask), each read and written back through
      the PLL's memory register; `read` is what the hardware answers. */
  const PLL_CFG: seq<(bv32, bv32, bv32)> :=
    [(0x27, 0x80, 0x80), (0xB3, 1, 1), (0xE6, 1, 1), (0x03, 0x4A, 0x7F), (0x07, 0x4A, 0x7F)]

  function Asking(offset: bv32): bv32 {
    0x100_0000 | ((offset | 0x4000) & 0xFFFF)
  }

  function Writing(c: (bv32, bv32, bv32), was: bv32): bv32 {
    0x300_0000 | (((was & !c.2) | c.1) << 16) | ((c.0 | 0x4000) & 0xFFFF)
  }

  function PdTable(mem: int, cfg: seq<(bv32, bv32, bv32)>, read: nat -> bv32): Table {
    if cfg == [] then []
    else
      var last := cfg[|cfg| - 1];
      PdTable(mem, cfg[..|cfg| - 1], read) + [W(mem, Asking(last.0)), W(mem, Writing(last, read(|cfg| - 1)))]
  }

  const ENABLE: Table :=
    [S(MAIN + 0x38, PLLCX_EN), S(MAIN + 0x3C, PLLCX_EN), S(MAIN + 0x40, PLLCX_EN), S(MAIN + 0x44, PLLCX_EN),
     S(PER + 0x34, PLLCX_EN), S(PER + 0x38, PLLCX_EN), S(PER + 0x3C, PLLCX_EN), S(PER + 0x40, PLLCX_EN)]

  function LockedTable(h: Handoff): Table {
    [S(MAIN + 0x54, 1), S(PER + 0x50, 1), S(MAIN + 0x24, CLR_LOSTLOCK), S(PER + 0x20, CLR_LOSTLOCK),
     W(SYSMGR + 0x204, h.oscHz), W(SYSMGR + 0x208, h.fpgaHz)]
  }

  const FINISH: Table := [W(INTRCLR, 0xC), C(ALTERA + 0x24, 0x3FFF)]

  /** The registers that say whether the clocks are safe. */
  const GUARDS: set<int> := {CTRL, MAIN_BYPASS, PER_BYPASS}

  predicate Elsewhere(t: Table) {
    forall k | 0 <= k < |t| :: t[k].a !in GUARDS
  }

  lemma {:induction false} PdIsElsewhere(mem: int, cfg: seq<(bv32, bv32, bv32)>, read: nat -> bv32)
    requires mem !in GUARDS
    ensures Elsewhere(PdTable(mem, cfg, read))
  {
    if cfg != [] {
      PdIsElsewhere(mem, cfg[..|cfg| - 1], read);
    }
  }

  ghost predicate SameGuards(a: Regs, b: Regs) {
    && Get(a, CTRL) == Get(b, CTRL)
    && Get(a, MAIN_BYPASS) == Get(b, MAIN_BYPASS) && Get(a, PER_BYPASS) == Get(b, PER_BYPASS)
  }

  function Synced(regs: Regs, mainRead: nat -> bv32, perRead: nat -> bv32): Regs {
    Through(Through(regs, PdTable(MAIN + 0x2C, PLL_CFG, mainRead)), PdTable(PER + 0x28, PLL_CFG, perRead))
  }

  lemma MainIsElsewhere(h: Handoff)
    ensures Elsewhere(MainTable(h))
  {
  }

  lemma PerIsElsewhere(h: Handoff)
    ensures Elsewhere(PerTable(h))
  {
  }

  lemma AlteraIsElsewhere(h: Handoff)
    ensures Elsewhere(AlteraTable(h))
  {
  }

  lemma LockedIsElsewhere(h: Handoff)
    ensures Elsewhere(LockedTable(h))
  {
  }

  lemma RestIsElsewhere()
    ensures Elsewhere(ENABLE) && Elsewhere(FINISH)
  {
  }

  /** What an access leaves in its register. */
  function Value(regs: Regs, op: RegOp): bv32 {
    match op
    case W(_, v) => v
    case S(a, v) => Get(regs, a) | v
    case C(a, v) => Get(regs, a) & !v
  }

  /** The registers after a table. */
  function Through(regs: Regs, t: Table): Regs {
    if t == [] then regs
    else
      var before := Through(regs, t[..|t| - 1]);
      before[t[|t| - 1].a := Value(before, t[|t| - 1])]
  }

  function Cleared(regs: Regs, a: int, bits: bv32): Regs {
    regs[a := Get(regs, a) & !bits]
  }

  function WithBits(regs: Regs, a: int, bits: bv32): Regs {
    regs[a := Get(regs, a) | bits]
  }

  /** Boot mode on, and both PLLs bypassed. */
  function Bypassed(regs: Regs): Regs {
    WithBits(WithBits(WithBits(regs, CTRL, BOOTMODE), MAIN_BYPASS, MAIN_ALL), PER_BYPASS, PER_ALL)
  }

  /** Both PLLs programmed and enabled. */
  function Programmed(regs: Regs, h: Handoff, mainRead: nat -> bv32, perRead: nat -> bv32): Regs {
    Through(Synced(Through(Through(Through(regs, MainTable(h)), PerTable(h)), AlteraTable(h)), mainRead, perRead),
            ENABLE)
  }

  /** From the locked PLLs to the end. */
  function Released(regs: Regs, h: Handoff): Regs {
    Cleared(Through(Cleared(Cleared(Through(regs, LockedTable(h)), MAIN_BYPASS, MAIN_ALL), PER_BYPASS, PER_ALL),
                    FINISH),
            CTRL, BOOTMODE)
  }

  predicate On(x: bv32, bits: bv32) {
    x & bits == bits
  }

  predicate Off(x: bv32, bits: bv32) {
    x & bits == 0
  }

  lemma Masked(x: bv32, m: bv32)
    ensures On(x | m, m) && Off(x & !m, m)
  {
  }

  lemma WithinOr(x: bv32, m: bv32)
    ensures Within(x, x) && Within(x, x | m)
  {
  }

  datatype Stage = Done | MainBypassStuck | PerBypassStuck | NotLocked | MainReleaseStuck | PerReleaseStuck

  /** What each ending leaves in the guard registers. */
  ghost predicate Leaves(stage: Stage, regs: Regs) {
    && (stage != Done ==> On(Get(regs, CTRL), BOOTMODE))
    && (stage in {MainBypassStuck, PerBypassStuck, NotLocked} ==> On(Get(regs, MAIN_BYPASS), MAIN_ALL))
    && (stage in {PerBypassStuck, NotLocked, MainReleaseStuck} ==> On(Get(regs, PER_BYPASS), PER_ALL))
    && (stage in {MainReleaseStuck, PerReleaseStuck, Done} ==> Off(Get(regs, MAIN_BYPASS), MAIN_ALL))
    && (stage in {PerReleaseStuck, Done} ==> Off(Get(regs, PER_BYPASS), PER_ALL))
    && (stage == Done ==> Off(Get(regs, CTRL), BOOTMODE))
  }

  /** No bit that is on in x is off in y. */
  predicate Within(x: bv32, y: bv32) {
    x & !y == 0
  }

  /** From one state of the registers to the next no bit of a guard goes off. */
  predicate Tightens(a: Regs, b: Regs) {
    && Within(Get(a, CTRL), Get(b, CTRL))
    && Within(Get(a, MAIN_BYPASS), Get(b, MAIN_BYPASS))
    && Within(Get(a, PER_BYPASS), Get(b, PER_BYPASS))
  }

  ghost predicate Chain<T(!new)>(steps: seq<T>, related: (T, T) -> bool) {
    forall k | 0 < k < |steps| :: related(steps[k - 1], steps[k])
  }

  lemma ChainGrows<T(!new)>(steps: seq<T>, related: (T, T) -> bool, next: T)
    requires Chain(steps, related)
    requires steps != [] ==> related(steps[|steps| - 1], next)
    ensures Chain(steps + [next], related)
  {
  }

  /** The wait for the lock began at read `lockStart`, and since then - among its first 1000
      reads and before read `until` - five in a row found both PLLs locked. */
  ghost predicate LockSeen(status: Status, lockStart: Option<nat>, until: nat) {
    && lockStart.Some?
    && exists k: nat | lockStart.value <= k <= lockStart.value + MAX_RETRY - 5 && k + 5 <= until ::
         FiveLocked(status, LOCKED, k)
  }

  /** The registers after a write, how often the status had been read by then, and the read at
      which the wait for the lock had begun. */
  datatype Moment = Moment(regs: Regs, polls: nat, lockStart: Option<nat>)

  /** A write turns a guard bit off only once the wait for the lock has seen it. */
  ghost function Guarded(status: Status): (Moment, Moment) -> bool {
    (a: Moment, b: Moment) =>
      && a.polls <= b.polls && (a.lockStart.Some? ==> b.lockStart == a.lockStart)
      && (Tightens(a.regs, b.regs) || LockSeen(status, b.lockStart, b.polls))
  }

  lemma TightensOn(a: Regs, b: Regs, c: Regs)
    requires Tightens(a, b) && Tightens(b, c)
    ensures Tightens(a, c)
  {
    WithinOn(Get(a, CTRL), Get(b, CTRL), Get(c, CTRL));
    WithinOn(Get(a, MAIN_BYPASS), Get(b, MAIN_BYPASS), Get(c, MAIN_BYPASS));
    WithinOn(Get(a, PER_BYPASS), Get(b, PER_BYPASS), Get(c, PER_BYPASS));
  }

  lemma WithinOn(x: bv32, y: bv32, z: bv32)
    requires Within(x, y) && Within(y, z)
    ensures Within(x, z)
  {
  }

  lemma TightensItself(a: Regs)
    ensures Tightens(a, a)
  {
    WithinOr(Get(a, CTRL), 0);
    WithinOr(Get(a, MAIN_BYPASS), 0);
    WithinOr(Get(a, PER_BYPASS), 0);
  }

  /** Main result, of every history that a `ClockManager` keeps: from any moment to any later
      one at which the wait for the lock has not begun, or has not found five locked reads in a
      row, every bypass bit and the boot mode that were on are still on. */
  lemma {:induction false} ClosedUntilLocked(status: Status, history: seq<Moment>, i: nat, j: nat)
    requires Chain(history, Guarded(status)) && i <= j < |history|
    requires !LockSeen(status, history[j].lockStart, history[j].polls)
    ensures Tightens(history[i].regs, history[j].regs)
  {
    if i == j {
      TightensItself(history[i].regs);
    } else {
      assert Guarded(status)(history[j - 1], history[j]);
      ClosedUntilLocked(status, history, i, j - 1);
      TightensOn(history[i].regs, history[j - 1].regs, history[j].regs);
    }
  }

  lemma ElsewhereTightens(regs: Regs, a: int, v: bv32)
    requires a !in GUARDS
    ensures SameGuards(regs, regs[a := v]) && Tightens(regs, regs[a := v])
  {
    WithinOr(Get(regs, CTRL), 0);
    WithinOr(Get(regs, MAIN_BYPASS), 0);
    WithinOr(Get(regs, PER_BYPASS), 0);
  }

  lemma SetKeeps(regs: Regs, a: int, bits: bv32, g: int)
    ensures Within(Get(regs, g), Get(regs[a := Get(regs, a) | bits], g))
  {
    WithinOr(Get(regs, g), bits);
  }

  lemma SetTightens(regs: Regs, a: int, bits: bv32)
    ensures Tightens(regs, regs[a := Get(regs, a) | bits])
  {
    SetKeeps(regs, a, bits, CTRL);
    SetKeeps(regs, a, bits, MAIN_BYPASS);
    SetKeeps(regs, a, bits, PER_BYPASS);
  }

  lemma SetTurnsOn(regs: Regs, a: int, bits: bv32, next: Regs)
    requires next == WithBits(regs, a, bits)
    ensures On(Get(next, a), bits) && Tightens(regs, next)
    ensures forall g | g != a :: Get(next, g) == Get(regs, g)
  {
    Masked(Get(regs, a), bits);
    SetTightens(regs, a, bits);
  }

  // ---- what is programmed ----------------------------------------------------------------

  /** No access of the table after its k-th touches this register. */
  predicate LastAt(t: Table, k: nat, a: int) {
    forall j | k < j < |t| :: t[j].a != a
  }

  predicate Untouched(t: Table, a: int) {
    forall j | 0 <= j < |t| :: t[j].a != a
  }

  predicate WordAt(t: Table, k: nat, a: int, v: bv32) {
    k < |t| && t[k] == W(a, v) && LastAt(t, k, a)
  }

  /** The only access to the register sets these bits. */
  predicate SetAt(t: Table, k: nat, a: int, bits: bv32) {
    k < |t| && t[k] == S(a, bits) && LastAt(t, k, a) && forall j | 0 <= j < k :: t[j].a != a
  }

  lemma {:induction false} UntouchedStays(regs: Regs, t: Table, a: int)
    requires Untouched(t, a)
    ensures Get(Through(regs, t), a) == Get(regs, a)
  {
    if t != [] {
      UntouchedStays(regs, t[..|t| - 1], a);
    }
  }

  lemma {:induction false} WordStays(regs: Regs, t: Table, k: nat, a: int, v: bv32)
    requires WordAt(t, k, a, v)
    ensures Get(Through(regs, t), a) == v
  {
    if k < |t| - 1 {
      WordStays(regs, t[..|t| - 1], k, a, v);
    }
  }

  lemma {:induction false} BitsSet(regs: Regs, t: Table, k: nat, a: int, bits: bv32)
    requires SetAt(t, k, a, bits)
    ensures Get(Through(regs, t), a) == Get(regs, a) | bits
  {
    if k < |t| - 1 {
      BitsSet(regs, t[..|t| - 1], k, a, bits);
    } else {
      UntouchedStays(regs, t[..k], a);
    }
  }

  lemma {:induction false} PdTouchesMem(mem: int, cfg: seq<(bv32, bv32, bv32)>, read: nat -> bv32, a: int)
    requires a != mem
    ensures Untouched(PdTable(mem, cfg, read), a)
  {
    if cfg != [] {
      PdTouchesMem(mem, cfg[..|cfg| - 1], read, a);
    }
  }

  lemma SyncKeeps(regs: Regs, mainRead: nat -> bv32, perRead: nat -> bv32, a: int)
    requires a != MAIN + 0x2C && a != PER + 0x28
    ensures Get(Synced(regs, mainRead, perRead), a) == Get(regs, a)
  {
    PdTouchesMem(MAIN + 0x2C, PLL_CFG, mainRead, a);
    PdTouchesMem(PER + 0x28, PLL_CFG, perRead, a);
    UntouchedStays(regs, PdTable(MAIN + 0x2C, PLL_CFG, mainRead), a);
    UntouchedStays(Through(regs, PdTable(MAIN + 0x2C, PLL_CFG, mainRead)), PdTable(PER + 0x28, PLL_CFG, perRead), a);
  }

  /** The registers with the handoff's words in them, before the PLLs' own memories and the enables. */
  function Worded(regs: Regs, h: Handoff): Regs {
    Through(Through(Through(regs, MainTable(h)), PerTable(h)), AlteraTable(h))
  }

  /** A word that the main PLL's table writes, and no table after it touches. */
  lemma FromMain(regs: Regs, t: Table, u: Table, w: Table, k: nat, a: int, v: bv32)
    requires WordAt(t, k, a, v) && Untouched(u, a) && Untouched(w, a)
    ensures Get(Through(Through(Through(regs, t), u), w), a) == v
  {
    var r := Through(regs, t);
    WordStays(regs, t, k, a, v);
    UntouchedStays(r, u, a);
    UntouchedStays(Through(r, u), w, a);
  }

  lemma FromPer(regs: Regs, t: Table, u: Table, w: Table, k: nat, a: int, v: bv32)
    requires WordAt(u, k, a, v) && Untouched(w, a)
    ensures Get(Through(Through(Through(regs, t), u), w), a) == v
  {
    var r := Through(regs, t);
    WordStays(r, u, k, a, v);
    UntouchedStays(Through(r, u), w, a);
  }

  /** Each table after the first has registers of its own, but for the two PLLGLOBs. */
  lemma PerIsApart(h: Handoff)
    ensures forall a | MAIN <= a < PER :: Untouched(PerTable(h), a)
  {
  }

  lemma AlteraIsApart(h: Handoff)
    ensures forall a | MAIN <= a < ALTERA && a != MAIN + 0x24 && a != PER + 0x20 :: Untouched(AlteraTable(h), a)
  {
  }

  lemma MainAtA(h: Handoff)
    ensures WordAt(MainTable(h), 3, MAIN + 0x28, h.main.fdbck)
         && WordAt(MainTable(h), 4, MAIN + 0x34, h.main.vcocalib)
         && WordAt(MainTable(h), 5, MAIN + 0x38, h.main.c0)
  {
  }

  /** The main PLL: FDBCK, VCOCALIB, PLLC0 to PLLC3, PLLM, NOCCLK, NOCDIV. */
  lemma MainWordsA(regs: Regs, h: Handoff)
    ensures Get(Worded(regs, h), MAIN + 0x28) == h.main.fdbck
         && Get(Worded(regs, h), MAIN + 0x34) == h.main.vcocalib
         && Get(Worded(regs, h), MAIN + 0x38) == h.main.c0
  {
    MainAtA(h);
    PerIsApart(h);
    AlteraIsApart(h);
    FromMain(regs, MainTable(h), PerTable(h), AlteraTable(h), 3, MAIN + 0x28, h.main.fdbck);
    FromMain(regs, MainTable(h), PerTable(h), AlteraTable(h), 4, MAIN + 0x34, h.main.vcocalib);
    FromMain(regs, MainTable(h), PerTable(h), AlteraTable(h), 5, MAIN + 0x38, h.main.c0);
  }

  lemma MainAtB(h: Handoff)
    ensures WordAt(MainTable(h), 6, MAIN + 0x3C, h.main.c1)
         && WordAt(MainTable(h), 7, MAIN + 0x40, h.main.c2)
         && WordAt(MainTable(h), 8, MAIN + 0x44, h.main.c3)
  {
  }

  lemma MainWordsB(regs: Regs, h: Handoff)
    ensures Get(Worded(regs, h), MAIN + 0x3C) == h.main.c1
         && Get(Worded(regs, h), MAIN + 0x40) == h.main.c2
         && Get(Worded(regs, h), MAIN + 0x44) == h.main.c3
  {
    MainAtB(h);
    PerIsApart(h);
    AlteraIsApart(h);
    FromMain(regs, MainTable(h), PerTable(h), AlteraTable(h), 6, MAIN + 0x3C, h.main.c1);
    FromMain(regs, MainTable(h), PerTable(h), AlteraTable(h), 7, MAIN + 0x40, h.main.c2);
    FromMain(regs, MainTable(h), PerTable(h), AlteraTable(h), 8, MAIN + 0x44, h.main.c3);
  }

  lemma MainAtC(h: Handoff)
    ensures WordAt(MainTable(h), 9, MAIN + 0x48, h.main.pllm)
         && WordAt(MainTable(h), 10, MAIN + 0x1C, h.nocclk)
         && WordAt(MainTable(h), 11, MAIN + 0x20, h.nocdiv)
  {
  }

  lemma MainWordsC(regs: Regs, h: Handoff)
    ensures Get(Worded(regs, h), MAIN + 0x48) == h.main.pllm
         && Get(Worded(regs, h), MAIN + 0x1C) == h.nocclk
         && Get(Worded(regs, h), MAIN + 0x20) == h.nocdiv
  {
    MainAtC(h);
    PerIsApart(h);
    AlteraIsApart(h);
    FromMain(regs, MainTable(h), PerTable(h), AlteraTable(h), 9, MAIN + 0x48, h.main.pllm);
    FromMain(regs, MainTable(h), PerTable(h), AlteraTable(h), 10, MAIN + 0x1C, h.nocclk);
    FromMain(regs, MainTable(h), PerTable(h), AlteraTable(h), 11, MAIN + 0x20, h.nocdiv);
  }

  lemma PerAtA(h: Handoff)
    ensures WordAt(PerTable(h), 1, PER + 0x24, h.per.fdbck)
         && WordAt(PerTable(h), 2, PER + 0x30, h.per.vcocalib)
         && WordAt(PerTable(h), 3, PER + 0x34, h.per.c0)
  {
  }

  /** The peripheral PLL: FDBCK, VCOCALIB, PLLC0 to PLLC3, PLLM, EMACCTL, GPIODIV. */
  lemma PerWordsA(regs: Regs, h: Handoff)
    ensures Get(Worded(regs, h), PER + 0x24) == h.per.fdbck
         && Get(Worded(regs, h), PER + 0x30) == h.per.vcocalib
         && Get(Worded(regs, h), PER + 0x34) == h.per.c0
  {
    PerAtA(h);
    AlteraIsApart(h);
    FromPer(regs, MainTable(h), PerTable(h), AlteraTable(h), 1, PER + 0x24, h.per.fdbck);
    FromPer(regs, MainTable(h), PerTable(h), AlteraTable(h), 2, PER + 0x30, h.per.vcocalib);
    FromPer(regs, MainTable(h), PerTable(h), AlteraTable(h), 3, PER + 0x34, h.per.c0);
  }

  lemma PerAtB(h: Handoff)
    ensures WordAt(PerTable(h), 4, PER + 0x38, h.per.c1)
         && WordAt(PerTable(h), 5, PER + 0x3C, h.per.c2)
         && WordAt(PerTable(h), 6, PER + 0x40, h.per.c3)
  {
  }

  lemma PerWordsB(regs: Regs, h: Handoff)
    ensures Get(Worded(regs, h), PER + 0x38) == h.per.c1
         && Get(Worded(regs, h), PER + 0x3C) == h.per.c2
         && Get(Worded(regs, h), PER + 0x40) == h.per.c3
  {
    PerAtB(h);
    AlteraIsApart(h);
    FromPer(regs, MainTable(h), PerTable(h), AlteraTable(h), 4, PER + 0x38, h.per.c1);
    FromPer(regs, MainTable(h), PerTable(h), AlteraTable(h), 5, PER + 0x3C, h.per.c2);
    FromPer(regs, MainTable(h), PerTable(h), AlteraTable(h), 6, PER + 0x40, h.per.c3);
  }

  lemma PerAtC(h: Handoff)
    ensures WordAt(PerTable(h), 7, PER + 0x44, h.per.pllm)
         && WordAt(PerTable(h), 8, PER + 0x18, h.emacctl)
         && WordAt(PerTable(h), 9, PER + 0x1C, h.gpiodiv)
  {
  }

  lemma PerWordsC(regs: Regs, h: Handoff)
    ensures Get(Worded(regs, h), PER + 0x44) == h.per.pllm
         && Get(Worded(regs, h), PER + 0x18) == h.emacctl
         && Get(Worded(regs, h), PER + 0x1C) == h.gpiodiv
  {
    PerAtC(h);
    AlteraIsApart(h);
    FromPer(regs, MainTable(h), PerTable(h), AlteraTable(h), 7, PER + 0x44, h.per.pllm);
    FromPer(regs, MainTable(h), PerTable(h), AlteraTable(h), 8, PER + 0x18, h.emacctl);
    FromPer(regs, MainTable(h), PerTable(h), AlteraTable(h), 9, PER + 0x1C, h.gpiodiv);
  }

  lemma AlteraAtA(h: Handoff)
    ensures WordAt(AlteraTable(h), 0, ALTERA + 0x04, h.emaca)
         && WordAt(AlteraTable(h), 1, ALTERA + 0x08, h.emacb)
         && WordAt(AlteraTable(h), 2, ALTERA + 0x0C, h.emacptp)
  {
  }

  /** The counters of the Altera group. */
  lemma AlteraWordsA(regs: Regs, h: Handoff)
    ensures Get(Worded(regs, h), ALTERA + 0x04) == h.emaca
         && Get(Worded(regs, h), ALTERA + 0x08) == h.emacb
         && Get(Worded(regs, h), ALTERA + 0x0C) == h.emacptp
  {
    AlteraAtA(h);
    WordStays(Through(Through(regs, MainTable(h)), PerTable(h)), AlteraTable(h), 0, ALTERA + 0x04, h.emaca);
    WordStays(Through(Through(regs, MainTable(h)), PerTable(h)), AlteraTable(h), 1, ALTERA + 0x08, h.emacb);
    WordStays(Through(Through(regs, MainTable(h)), PerTable(h)), AlteraTable(h), 2, ALTERA + 0x0C, h.emacptp);
  }

  lemma AlteraAtB(h: Handoff)
    ensures WordAt(AlteraTable(h), 3, ALTERA + 0x10, h.gpiodb)
         && WordAt(AlteraTable(h), 4, ALTERA + 0x18, h.s2fuser0)
         && WordAt(AlteraTable(h), 5, ALTERA + 0x1C, h.s2fuser1)
  {
  }

  lemma AlteraWordsB(regs: Regs, h: Handoff)
    ensures Get(Worded(regs, h), ALTERA + 0x10) == h.gpiodb
         && Get(Worded(regs, h), ALTERA + 0x18) == h.s2fuser0
         && Get(Worded(regs, h), ALTERA + 0x1C) == h.s2fuser1
  {
    AlteraAtB(h);
    WordStays(Through(Through(regs, MainTable(h)), PerTable(h)), AlteraTable(h), 3, ALTERA + 0x10, h.gpiodb);
    WordStays(Through(Through(regs, MainTable(h)), PerTable(h)), AlteraTable(h), 4, ALTERA + 0x18, h.s2fuser0);
    WordStays(Through(Through(regs, MainTable(h)), PerTable(h)), AlteraTable(h), 5, ALTERA + 0x1C, h.s2fuser1);
  }

  lemma AlteraAtC(h: Handoff)
    ensures WordAt(AlteraTable(h), 6, ALTERA + 0x20, h.psiref)
         && WordAt(AlteraTable(h), 7, ALTERA + 0x28, h.usb31)
         && WordAt(AlteraTable(h), 8, ALTERA + 0x2C, h.dsu)
  {
  }

  lemma AlteraWordsC(regs: Regs, h: Handoff)
    ensures Get(Worded(regs, h), ALTERA + 0x20) == h.psiref
         && Get(Worded(regs, h), ALTERA + 0x28) == h.usb31
         && Get(Worded(regs, h), ALTERA + 0x2C) == h.dsu
  {
    AlteraAtC(h);
    WordStays(Through(Through(regs, MainTable(h)), PerTable(h)), AlteraTable(h), 6, ALTERA + 0x20, h.psiref);
    WordStays(Through(Through(regs, MainTable(h)), PerTable(h)), AlteraTable(h), 7, ALTERA + 0x28, h.usb31);
    WordStays(Through(Through(regs, MainTable(h)), PerTable(h)), AlteraTable(h), 8, ALTERA + 0x2C, h.dsu);
  }

  lemma AlteraAtD(h: Handoff)
    ensures WordAt(AlteraTable(h), 9, ALTERA + 0x30, h.core01)
         && WordAt(AlteraTable(h), 10, ALTERA + 0x34, h.core23)
         && WordAt(AlteraTable(h), 11, ALTERA + 0x38, h.core2)
  {
  }

  lemma AlteraWordsD(regs: Regs, h: Handoff)
    ensures Get(Worded(regs, h), ALTERA + 0x30) == h.core01
         && Get(Worded(regs, h), ALTERA + 0x34) == h.core23
         && Get(Worded(regs, h), ALTERA + 0x38) == h.core2
  {
    AlteraAtD(h);
    WordStays(Through(Through(regs, MainTable(h)), PerTable(h)), AlteraTable(h), 9, ALTERA + 0x30, h.core01);
    WordStays(Through(Through(regs, MainTable(h)), PerTable(h)), AlteraTable(h), 10, ALTERA + 0x34, h.core23);
    WordStays(Through(Through(regs, MainTable(h)), PerTable(h)), AlteraTable(h), 11, ALTERA + 0x38, h.core2);
  }

  lemma AlteraAtE(h: Handoff)
    ensures WordAt(AlteraTable(h), 12, ALTERA + 0x3C, h.core3)
  {
  }

  lemma AlteraWordsE(regs: Regs, h: Handoff)
    ensures Get(Worded(regs, h), ALTERA + 0x3C) == h.core3
  {
    AlteraAtE(h);
    WordStays(Through(Through(regs, MainTable(h)), PerTable(h)), AlteraTable(h), 12, ALTERA + 0x3C, h.core3);
  }

  lemma LeftByLast(r: Regs, w: Table, a: int)
    ensures Untouched(w, a) ==> Get(Through(r, w), a) == Get(r, a)
    ensures forall n, bits | SetAt(w, n, a, bits) :: Get(Through(r, w), a) == Get(r, a) | bits
  {
    if Untouched(w, a) {
      UntouchedStays(r, w, a);
    }
    forall n, bits | SetAt(w, n, a, bits)
      ensures Get(Through(r, w), a) == Get(r, a) | bits
    {
      BitsSet(r, w, n, a, bits);
    }
  }

  lemma MainReset(h: Handoff)
    ensures WordAt(MainTable(h), 2, MAIN + 0x24, h.main.pllglob & NOT_RST_N) && Untouched(PerTable(h), MAIN + 0x24)
    ensures SetAt(AlteraTable(h), 13, MAIN + 0x24, PD_AND_RST)
  {
  }

  lemma PerReset(h: Handoff)
    ensures WordAt(PerTable(h), 0, PER + 0x20, h.per.pllglob & NOT_RST_N)
    ensures SetAt(AlteraTable(h), 14, PER + 0x20, PD_AND_RST)
  {
  }

  /** Both PLLs have their PLLGLOB words, and are powered and out of reset. */
  lemma PllsAreOut(regs: Regs, h: Handoff)
    ensures Get(Worded(regs, h), MAIN + 0x24) == (h.main.pllglob & NOT_RST_N) | PD_AND_RST
    ensures Get(Worded(regs, h), PER + 0x20) == (h.per.pllglob & NOT_RST_N) | PD_AND_RST
  {
    MainReset(h);
    PerReset(h);
    OutOfReset(regs, MainTable(h), PerTable(h), AlteraTable(h), MAIN + 0x24, h.main.pllglob & NOT_RST_N,
               PER + 0x20, h.per.pllglob & NOT_RST_N);
  }

  lemma OutOfReset(regs: Regs, t: Table, u: Table, w: Table, a: int, v: bv32, b: int, x: bv32)
    requires WordAt(t, 2, a, v) && Untouched(u, a) && SetAt(w, 13, a, PD_AND_RST)
    requires WordAt(u, 0, b, x) && SetAt(w, 14, b, PD_AND_RST)
    ensures Get(Through(Through(Through(regs, t), u), w), a) == v | PD_AND_RST
    ensures Get(Through(Through(Through(regs, t), u), w), b) == x | PD_AND_RST
  {
    var r := Through(regs, t);
    WordStays(regs, t, 2, a, v);
    UntouchedStays(r, u, a);
    WordStays(r, u, 0, b, x);
    BitsSet(Through(r, u), w, 13, a, PD_AND_RST);
    BitsSet(Through(r, u), w, 14, b, PD_AND_RST);
  }

  /** What follows keeps every word but a counter's, which it enables. */
  lemma WordKept(r: Regs, last: Table, mainRead: nat -> bv32, perRead: nat -> bv32, a: int)
    requires a != MAIN + 0x2C && a != PER + 0x28
    ensures Untouched(last, a) ==> Get(Through(Synced(r, mainRead, perRead), last), a) == Get(r, a)
    ensures forall k, bits | SetAt(last, k, a, bits) ::
              Get(Through(Synced(r, mainRead, perRead), last), a) == Get(r, a) | bits
  {
    SyncKeeps(r, mainRead, perRead, a);
    LeftByLast(Synced(r, mainRead, perRead), last, a);
  }

  /** The registers that hold words, and those of the counters, which are enabled at the end. */
  const WORDS: seq<int> :=
    [MAIN + 0x1C, MAIN + 0x20, MAIN + 0x24, MAIN + 0x28, MAIN + 0x34, MAIN + 0x48,
     PER + 0x18, PER + 0x1C, PER + 0x20, PER + 0x24, PER + 0x30, PER + 0x44,
     ALTERA + 0x04, ALTERA + 0x08, ALTERA + 0x0C, ALTERA + 0x10, ALTERA + 0x18, ALTERA + 0x1C, ALTERA + 0x20,
     ALTERA + 0x28, ALTERA + 0x2C, ALTERA + 0x30, ALTERA + 0x34, ALTERA + 0x38, ALTERA + 0x3C]

  const COUNTERS: seq<int> :=
    [MAIN + 0x38, MAIN + 0x3C, MAIN + 0x40, MAIN + 0x44, PER + 0x34, PER + 0x38, PER + 0x3C, PER + 0x40]

  lemma WordUntouched(k: nat)
    requires k < |WORDS|
    ensures Untouched(ENABLE, WORDS[k]) && WORDS[k] != MAIN + 0x2C && WORDS[k] != PER + 0x28
  {
  }

  lemma CounterEnabled(k: nat)
    requires k < |COUNTERS|
    ensures SetAt(ENABLE, k, COUNTERS[k], PLLCX_EN) && COUNTERS[k] != MAIN + 0x2C && COUNTERS[k] != PER + 0x28
  {
  }

  /** Main result: once the PLLs are programmed every word of the handoff is in its register - those
      that `MainWordsA` to `AlteraWordsE` list, and the two of `PllsAreOut` - and every counter is
      enabled. */
  lemma HandoffIsProgrammed(regs: Regs, h: Handoff, mainRead: nat -> bv32, perRead: nat -> bv32)
    ensures var r := Programmed(regs, h, mainRead, perRead);
            && (forall k | 0 <= k < |WORDS| :: Get(r, WORDS[k]) == Get(Worded(regs, h), WORDS[k]))
            && (forall k | 0 <= k < |COUNTERS| :: Get(r, COUNTERS[k]) == Get(Worded(regs, h), COUNTERS[k]) | PLLCX_EN)
  {
    forall k | 0 <= k < |WORDS|
      ensures Get(Programmed(regs, h, mainRead, perRead), WORDS[k]) == Get(Worded(regs, h), WORDS[k])
    {
      WordUntouched(k);
      WordKept(Worded(regs, h), ENABLE, mainRead, perRead, WORDS[k]);
    }
    forall k | 0 <= k < |COUNTERS|
      ensures Get(Programmed(regs, h, mainRead, perRead), COUNTERS[k])
           == Get(Worded(regs, h), COUNTERS[k]) | PLLCX_EN
    {
      CounterEnabled(k);
      WordKept(Worded(regs, h), ENABLE, mainRead, perRead, COUNTERS[k]);
    }
  }

  /** The clock frequencies are left where the next stage looks for them. */
  lemma FrequenciesAreLeft(regs: Regs, h: Handoff)
    ensures Get(Through(regs, LockedTable(h)), SYSMGR + 0x204) == h.oscHz
    ensures Get(Through(regs, LockedTable(h)), SYSMGR + 0x208) == h.fpgaHz
  {
    WordStays(regs, LockedTable(h), 4, SYSMGR + 0x204, h.oscHz);
    WordStays(regs, LockedTable(h), 5, SYSMGR + 0x208, h.fpgaHz);
  }

  /** The lost-lock latches of both PLLs are cleared. */
  lemma LatchesAreCleared(regs: Regs, h: Handoff)
    ensures On(Get(Through(regs, LockedTable(h)), MAIN + 0x54), 1)
    ensures On(Get(Through(regs, LockedTable(h)), PER + 0x50), 1)
    ensures On(Get(Through(regs, LockedTable(h)), MAIN + 0x24), CLR_LOSTLOCK)
    ensures On(Get(Through(regs, LockedTable(h)), PER + 0x20), CLR_LOSTLOCK)
  {
    BitsSet(regs, LockedTable(h), 0, MAIN + 0x54, 1);
    BitsSet(regs, LockedTable(h), 1, PER + 0x50, 1);
    BitsSet(regs, LockedTable(h), 2, MAIN + 0x24, CLR_LOSTLOCK);
    BitsSet(regs, LockedTable(h), 3, PER + 0x20, CLR_LOSTLOCK);
    Masked(Get(regs, MAIN + 0x54), 1);
    Masked(Get(regs, PER + 0x50), 1);
    Masked(Get(regs, MAIN + 0x24), CLR_LOSTLOCK);
    Masked(Get(regs, PER + 0x20), CLR_LOSTLOCK);
  }

  /** The interrupts of a lost lock are cleared, and the external counters are out of reset. */
  lemma CountersRun(regs: Regs)
    ensures Get(Through(regs, FINISH), INTRCLR) == 0xC && Off(Get(Through(regs, FINISH), ALTERA + 0x24), 0x3FFF)
  {
    var t: Table := [W(INTRCLR, 0xC)];
    assert FINISH[..1] == t && t[..0] == [];
    Masked(Get(Through(regs, t), ALTERA + 0x24), 0x3FFF);
  }

  /** Each configuration word is asked for, and then written. */
  lemma {:induction false} PdWord(mem: int, cfg: seq<(bv32, bv32, bv32)>, read: nat -> bv32, k: nat)
    requires k < |cfg|
    ensures |PdTable(mem, cfg, read)| == 2 * |cfg|
    ensures PdTable(mem, cfg, read)[2 * k] == W(mem, Asking(cfg[k].0))
    ensures PdTable(mem, cfg, read)[2 * k + 1] == W(mem, Writing(cfg[k], read(k)))
  {
    var n := |cfg| - 1;
    if n > 0 {
      PdWord(mem, cfg[..n], read, if k < n then k else 0);
    }
  }

  lemma Packed(x: bv32, low: bv32)
    requires low & !0xFFFF == 0
    ensures ((0x300_0000 | (x << 16) | low) >> 16) & 0xFF == x & 0xFF
    ensures (0x300_0000 | (x << 16) | low) & 0xFFFF == low
  {
  }

  lemma Merged(was: bv32, data: bv32, mask: bv32)
    requires data & !mask == 0 && data & !0xFF == 0
    ensures (((was & !mask) | data) & 0xFF) & mask == data
    ensures (((was & !mask) | data) & 0xFF) & !mask == was & 0xFF & !mask
  {
  }

  lemma Lowered(offset: bv32)
    ensures ((offset | 0x4000) & 0xFFFF) & !0xFFFF == 0
  {
  }

  /** The low half is the word's address, the next byte what was read with the data under the mask. */
  lemma PdFields(c: (bv32, bv32, bv32), was: bv32)
    requires c.1 & !c.2 == 0 && c.1 & !0xFF == 0
    ensures Writing(c, was) & 0xFFFF == (c.0 | 0x4000) & 0xFFFF
    ensures ((Writing(c, was) >> 16) & 0xFF) & c.2 == c.1
    ensures ((Writing(c, was) >> 16) & 0xFF) & !c.2 == was & 0xFF & !c.2
  {
    var (offset, data, mask) := c;
    Merged(was, data, mask);
    Lowered(offset);
    Packed((was & !mask) | data, (offset | 0x4000) & 0xFFFF);
  }

  // ---- which way it ends -----------------------------------------------------------------

  /** The stage in which the sequence ends, read off the status stream from read `start` on, and
      the read at which its wait for the lock begins. */
  ghost function Ending(status: Status, start: nat): (Stage, Option<nat>) {
    match IdleEnd(status, start)
    case None => (MainBypassStuck, None)
    case Some(first) =>
      match IdleEnd(status, first)
      case None => (PerBypassStuck, None)
      case Some(second) => (LockEnding(status, second), Some(second))
  }

  ghost function LockEnding(status: Status, start: nat): Stage {
    match LockEnd(status, LOCKED, start)
    case None => NotLocked
    case Some(locked) => ReleaseEnding(status, locked)
  }

  ghost function ReleaseEnding(status: Status, start: nat): Stage {
    match IdleEnd(status, start)
    case None => MainReleaseStuck
    case Some(next) => if IdleEnd(status, next).None? then PerReleaseStuck else Done
  }

  /** The clock manager: its registers, the stream its status is read from, and every state the
      registers have been in. */
  class ClockManager {
    var regs: Regs
    const status: Status
    var polls: nat
    ghost var lockStart: Option<nat>
    ghost var history: seq<Moment>

    constructor (regs: Regs, status: Status)
      ensures Valid() && this.regs == regs && this.status == status
      ensures polls == 0 && lockStart == None && history == [Moment(regs, 0, None)]
    {
      this.regs, this.status, polls := regs, status, 0;
      lockStart, history := None, [Moment(regs, 0, None)];
    }

    /** In particular: no guard was opened before the wait for the lock saw it. */
    ghost predicate Valid()
      reads this
    {
      && |history| > 0 && Follows(history[|history| - 1]) && Chain(history, Guarded(status))
    }

    ghost predicate Follows(m: Moment)
      reads this
    {
      m.regs == regs && m.polls <= polls && (m.lockStart.Some? ==> lockStart == m.lockStart)
    }

    ghost function Now(): Moment
      reads this
    {
      Moment(regs, polls, lockStart)
    }

    method Write(a: int, v: bv32)
      requires Valid() && (Tightens(regs, regs[a := v]) || LockSeen(status, lockStart, polls))
      modifies this`regs, this`history
      ensures Valid() && regs == old(regs)[a := v] && history == old(history) + [Now()]
    {
      ChainGrows(history, Guarded(status), Moment(regs[a := v], polls, lockStart));
      regs := regs[a := v];
      history := history + [Now()];
    }

    /** A run of register accesses away from the guards. */
    method Run(t: Table)
      requires Valid() && Elsewhere(t)
      modifies this`regs, this`history
      ensures Valid() && regs == Through(old(regs), t) && SameGuards(old(regs), regs)
      ensures old(history) <= history && (t != [] ==> Now() in history)
    {
      for k := 0 to |t|
        invariant Valid() && regs == Through(old(regs), t[..k]) && SameGuards(old(regs), regs)
        invariant old(history) <= history && (k > 0 ==> Now() in history)
      {
        assert t[..k + 1][..k] == t[..k];
        ElsewhereTightens(regs, t[k].a, Value(regs, t[k]));
        Write(t[k].a, Value(regs, t[k]));
      }
      assert t[..|t|] == t;
    }

    /** Turns bits of a register on. */
    method Shut(a: int, bits: bv32)
      requires Valid()
      modifies this`regs, this`history
      ensures Valid() && On(Get(regs, a), bits) && regs == WithBits(old(regs), a, bits)
      ensures forall g | g != a :: Get(regs, g) == Get(old(regs), g)
      ensures old(history) <= history
    {
      ghost var next := WithBits(regs, a, bits);
      SetTurnsOn(regs, a, bits, next);
      Write(a, Get(regs, a) | bits);
      assert regs == next;
    }

    /** Turns bits of a register off. */
    method Open(a: int, bits: bv32)
      requires Valid() && LockSeen(status, lockStart, polls)
      modifies this`regs, this`history
      ensures Valid() && Off(Get(regs, a), bits) && regs == Cleared(old(regs), a, bits)
      ensures forall g | g != a :: Get(regs, g) == Get(old(regs), g)
      ensures old(history) <= history
    {
      Masked(Get(regs, a), bits);
      Write(a, Get(regs, a) & !bits);
    }

    method Settle() returns (ok: bool)
      requires Valid()
      modifies this`polls
      ensures Valid() && polls >= old(polls)
      ensures IdleEnd(status, old(polls)) == if ok then Some(polls) else None
    {
      ok, polls := WaitFsm(status, polls);
    }

    /** Boot mode on, and both PLLs bypassed. */
    method Bypass() returns (stage: Stage)
      requires Valid() && lockStart.None?
      modifies this`regs, this`history, this`polls
      ensures Valid() && old(history) <= history
      ensures stage in {MainBypassStuck, PerBypassStuck, Done}
      ensures stage != Done ==> Leaves(stage, regs) && Ending(status, old(polls)) == (stage, None)
      ensures stage == Done ==> Leaves(NotLocked, regs) && regs == Bypassed(old(regs))
                                && Ending(status, old(polls)) == (LockEnding(status, polls), Some(polls))
    {
      Shut(CTRL, BOOTMODE);
      Shut(MAIN_BYPASS, MAIN_ALL);
      var ok := Settle();
      if !ok {
        return MainBypassStuck;
      }
      Shut(PER_BYPASS, PER_ALL);
      ok := Settle();
      if !ok {
        return PerBypassStuck;
      }
      stage := Done;
    }

    /** `config_pll_pd_state` for both PLLs. */
    method Sync(mainRead: nat -> bv32, perRead: nat -> bv32)
      requires Valid()
      modifies this`regs, this`history
      ensures Valid() && SameGuards(old(regs), regs) && old(history) <= history
      ensures regs == Synced(old(regs), mainRead, perRead)
    {
      PdIsElsewhere(MAIN + 0x2C, PLL_CFG, mainRead);
      Run(PdTable(MAIN + 0x2C, PLL_CFG, mainRead));
      PdIsElsewhere(PER + 0x28, PLL_CFG, perRead);
      Run(PdTable(PER + 0x28, PLL_CFG, perRead));
    }

    method Program(h: Handoff, mainRead: nat -> bv32, perRead: nat -> bv32)
      requires Valid()
      modifies this`regs, this`history
      ensures Valid() && SameGuards(old(regs), regs) && old(history) <= history && Now() in history
      ensures regs == Programmed(old(regs), h, mainRead, perRead)
    {
      MainIsElsewhere(h);
      Run(MainTable(h));
      PerIsElsewhere(h);
      Run(PerTable(h));
      AlteraIsElsewhere(h);
      Run(AlteraTable(h));
      Sync(mainRead, perRead);
      RestIsElsewhere();
      Run(ENABLE);
    }

    /** The wait for the lock, which begins here. */
    method Lock() returns (ok: bool)
      requires Valid() && lockStart.None?
      modifies this`polls, this`lockStart
      ensures Valid() && lockStart == Some(old(polls))
      ensures ok <==> LockInTime(status, LOCKED, old(polls))
      ensures LockEnd(status, LOCKED, old(polls)) == if ok then Some(polls) else None
      ensures ok ==> LockSeen(status, lockStart, polls)
    {
      lockStart := Some(polls);
      ok, polls := WaitPllLock(status, LOCKED, polls);
    }

    method OpenMain(h: Handoff)
      requires Valid() && Leaves(NotLocked, regs) && LockSeen(status, lockStart, polls)
      modifies this`regs, this`history
      ensures Valid() && old(history) <= history && Leaves(MainReleaseStuck, regs)
      ensures regs == Cleared(Through(old(regs), LockedTable(h)), MAIN_BYPASS, MAIN_ALL)
    {
      LockedIsElsewhere(h);
      Run(LockedTable(h));
      Open(MAIN_BYPASS, MAIN_ALL);
    }

    method LeaveBootMode()
      requires Valid() && Leaves(PerReleaseStuck, regs) && LockSeen(status, lockStart, polls)
      modifies this`regs, this`history
      ensures Valid() && old(history) <= history && Leaves(Done, regs)
      ensures regs == Cleared(Through(old(regs), FINISH), CTRL, BOOTMODE)
    {
      RestIsElsewhere();
      Run(FINISH);
      Open(CTRL, BOOTMODE);
    }

    method ReleasePer() returns (stage: Stage)
      requires Valid() && Leaves(MainReleaseStuck, regs) && LockSeen(status, lockStart, polls)
      modifies this`regs, this`history, this`polls
      ensures Valid() && old(history) <= history && polls >= old(polls)
      ensures stage == (if IdleEnd(status, old(polls)).None? then PerReleaseStuck else Done) && Leaves(stage, regs)
      ensures stage == Done ==>
                regs == Cleared(Through(Cleared(old(regs), PER_BYPASS, PER_ALL), FINISH), CTRL, BOOTMODE)
    {
      Open(PER_BYPASS, PER_ALL);
      var ok := Settle();
      if !ok {
        return PerReleaseStuck;
      }
      LeaveBootMode();
      return Done;
    }

    /** The PLLs are locked: the bypasses off, then the boot mode. */
    method Release(h: Handoff) returns (stage: Stage)
      requires Valid() && Leaves(NotLocked, regs) && LockSeen(status, lockStart, polls)
      modifies this`regs, this`history, this`polls
      ensures Valid() && old(history) <= history && polls >= old(polls)
      ensures stage == ReleaseEnding(status, old(polls)) && Leaves(stage, regs)
      ensures LockSeen(status, lockStart, polls)
      ensures stage == Done ==> regs == Released(old(regs), h)
    {
      OpenMain(h);
      var ok := Settle();
      if !ok {
        return MainReleaseStuck;
      }
      stage := ReleasePer();
    }

    /** From the bypassed PLLs to the end. */
    method Finish(h: Handoff, mainRead: nat -> bv32, perRead: nat -> bv32) returns (stage: Stage)
      requires Valid() && lockStart.None? && Leaves(NotLocked, regs)
      modifies this
      ensures Valid() && old(history) <= history && Leaves(stage, regs)
      ensures stage == LockEnding(status, old(polls)) && lockStart == Some(old(polls))
      ensures Moment(Programmed(old(regs), h, mainRead, perRead), old(polls), None) in history
      ensures stage in {MainReleaseStuck, PerReleaseStuck, Done} ==> LockSeen(status, lockStart, polls)
      ensures stage == Done ==> regs == Released(Programmed(old(regs), h, mainRead, perRead), h)
    {
      Program(h, mainRead, perRead);
      var locked := Lock();
      if locked {
        stage := Release(h);
      } else {
        stage := NotLocked;
      }
    }

    /** Main result: `config_clkmgr_handoff` stays `Valid` - so that no bypass bit and no boot
        mode is turned off before five locked reads in a row, counted from the wait that follows
        the programming; the status stream alone decides the stage in which it ends; each ending
        leaves the guards as `Leaves` says; and when the wait began the PLLs were programmed. */
    method Configure(h: Handoff, mainRead: nat -> bv32, perRead: nat -> bv32) returns (stage: Stage)
      requires Valid() && lockStart.None?
      modifies this
      ensures Valid() && old(history) <= history && Leaves(stage, regs)
      ensures (stage, lockStart) == Ending(status, old(polls))
      ensures lockStart.Some? ==>
                Moment(Programmed(Bypassed(old(regs)), h, mainRead, perRead), lockStart.value, None) in history
      ensures stage in {MainReleaseStuck, PerReleaseStuck, Done} ==> LockSeen(status, lockStart, polls)
      ensures stage == Done ==> regs == Released(Programmed(Bypassed(old(regs)), h, mainRead, perRead), h)
    {
      stage := Bypass();
      if stage == Done {
        stage := Finish(h, mainRead, perRead);
      }
    }
  }
}
