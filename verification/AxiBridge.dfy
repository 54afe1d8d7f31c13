/**
The AXI4 to register-file bridge (axi_lwh2f_bridge.vhd). A clocked process reads the signals as
they were and schedules what they become; of several assignments to one signal the last
counts. `ClockWrite` and `ClockRead` are the two halves of the process in its own order,
`NextWrite` and `NextRead` what becomes of each signal.
*/
module AxiBridge {
  import opened Wrappers

  const READ_TIMEOUT: nat := 7

  datatype WriteSide = WriteSide(
    active: bool, dataActive: bool, address: nat, data: nat,
    awready: bool, wready: bool, bvalid: bool, bid: nat)

  datatype ReadSide = ReadSide(
    active: bool, address: nat, request: bool, watchdog: nat,
    arready: bool, rvalid: bool, rid: nat, rdata: nat)

  datatype Inputs = Inputs(
    resetn: bool,
    awvalid: bool, awid: nat, awaddr: nat, wvalid: bool, wdata: nat, bready: bool,
    arvalid: bool, arid: nat, araddr: nat, rready: bool,
    reply: bool, busData: nat)       // from the register file

  /** What a clock puts on the interconnect. */
  datatype Bus = Bus(write: Option<(nat, nat)>, read: Option<nat>)

  datatype Signals = Signals(w: WriteSide, r: ReadSide, bus: Bus)

  /** address(19 downto 4) */
  function Register(address: nat): nat {
    address / 16 % 0x1_0000
  }

  /** The register that an address selects: its bits 19 to 4, whatever the others are. */
  predicate Selects(address: nat, register: nat) {
    register < 0x1_0000 && 16 * register <= address % 0x10_0000 < 16 * register + 16
  }

  lemma RegisterSelects(address: nat, n: nat)
    ensures Selects(address, n) <==> n == Register(address)
  {
  }

  lemma RegisterIs(high: nat, n: nat, low: nat)
    requires n < 0x1_0000 && low < 16
    ensures Register(0x10_0000 * high + 16 * n + low) == n
  {
  }

  // ---- the process -----------------------------------------------------------------------

  /** One rising edge. */
  method Clock(s: Signals, i: Inputs) returns (n: Signals)
    ensures n == Next(s, i)
  {
    var w, write := ClockWrite(s.w, i);
    var r, read := ClockRead(s.r, s.w, i);
    n := Signals(w, r, Bus(write, read));
  }

  method ClockWrite(s: WriteSide, i: Inputs) returns (n: WriteSide, request: Option<(nat, nat)>)
    ensures n == NextWrite(s, i)
    ensures request == WriteRequest(s)
    ensures request.Some? <==> s.active && s.dataActive
    ensures request.Some? ==> Selects(s.address, request.value.0) && request.value.1 == s.data
  {
    RegisterSelects(s.address, Register(s.address));
    var active, dataActive, awready, wready := s.active, s.dataActive, s.awready, s.wready;
    var address, data, bid := s.address, s.data, s.bid;
    request := None;
    if !s.active {
      awready := true;
    }
    if !s.dataActive {
      wready := true;
    }
    var bvalid := false;
    if !s.bvalid && i.bready && s.active && s.dataActive {
      awready, wready, bvalid := false, false, true;
      active, dataActive := false, false;
    }
    if i.awvalid && !s.active {
      active, awready, address, bid := true, false, i.awaddr, i.awid;
    }
    if i.wvalid && !s.dataActive {
      dataActive, wready, data := true, false, i.wdata;
    }
    if s.active && s.dataActive {
      bvalid := true;
      request := Some((Register(s.address), s.data));
    }
    if !i.resetn {
      bvalid, awready, wready, active, dataActive := false, false, false, false, false;
    }
    n := WriteSide(active, dataActive, address, data, awready, wready, bvalid, bid);
  }

  method ClockRead(s: ReadSide, w: WriteSide, i: Inputs) returns (n: ReadSide, request: Option<nat>)
    ensures n == NextRead(s, w, i)
    ensures request == ReadRequest(s, w)
    ensures request.Some? <==> s.request && WriteIdle(w)
    ensures request.Some? ==> Selects(s.address, request.value)
  {
    RegisterSelects(s.address, Register(s.address));
    var active, address, waiting, arready, rvalid := s.active, s.address, s.request, s.arready, s.rvalid;
    var rid, rdata := s.rid, s.rdata;
    var watchdog := if s.watchdog > 0 then s.watchdog - 1 else s.watchdog;
    request := None;
    if !s.active {
      arready := true;
    }
    if i.arvalid && !s.active {
      arready, address, rid := false, i.araddr, i.arid;
      active, waiting, watchdog := true, true, READ_TIMEOUT;
    }
    if s.rvalid && i.rready {
      arready, rvalid, active, rdata := true, false, false, 0;
    }
    if s.request && !w.active && !w.dataActive && !w.bvalid {
      waiting := false;
      request := Some(Register(s.address));
    }
    if i.reply || s.watchdog == 1 {
      watchdog, rvalid, rdata := 0, true, i.busData;
    }
    if !i.resetn {
      rvalid, active := false, false;
    }
    n := ReadSide(active, address, waiting, watchdog, arready, rvalid, rid, rdata);
  }

  // ---- what becomes of each signal -------------------------------------------------------

  function WriteRequest(s: WriteSide): Option<(nat, nat)> {
    if s.active && s.dataActive then Some((Register(s.address), s.data)) else None
  }

  predicate WriteIdle(w: WriteSide) {
    !w.active && !w.dataActive && !w.bvalid
  }

  /** The request waits for the write channel to be idle. */
  function ReadRequest(s: ReadSide, w: WriteSide): Option<nat> {
    if s.request && WriteIdle(w) then Some(Register(s.address)) else None
  }

  function NextWrite(s: WriteSide, i: Inputs): WriteSide {
    var complete := s.active && s.dataActive;
    var keep := i.resetn && !(complete && !s.bvalid && i.bready);
    WriteSide(
      keep && (s.active || i.awvalid),
      keep && (s.dataActive || i.wvalid),
      if i.awvalid && !s.active then i.awaddr else s.address,
      if i.wvalid && !s.dataActive then i.wdata else s.data,
      keep && (if s.active then s.awready else !i.awvalid),
      keep && (if s.dataActive then s.wready else !i.wvalid),
      i.resetn && complete,
      if i.awvalid && !s.active then i.awid else s.bid)
  }

  /** A read address is taken; read data is handed over; the answer - or its substitute - is in. */
  predicate Takes(s: ReadSide, i: Inputs) {
    i.arvalid && !s.active
  }

  predicate Hands(s: ReadSide, i: Inputs) {
    s.rvalid && i.rready
  }

  predicate Answered(s: ReadSide, i: Inputs) {
    i.reply || s.watchdog == 1
  }

  function NextRead(s: ReadSide, w: WriteSide, i: Inputs): ReadSide {
    ReadSide(
      i.resetn && !Hands(s, i) && (s.active || i.arvalid),
      if Takes(s, i) then i.araddr else s.address,
      ReadRequest(s, w).None? && (Takes(s, i) || s.request),
      if Answered(s, i) then 0 else if Takes(s, i) then READ_TIMEOUT else if s.watchdog > 0 then s.watchdog - 1 else 0,
      Hands(s, i) || (if s.active then s.arready else !i.arvalid),
      i.resetn && (Answered(s, i) || (s.rvalid && !i.rready)),
      if Takes(s, i) then i.arid else s.rid,
      if Answered(s, i) then i.busData else if Hands(s, i) then 0 else s.rdata)
  }

  function Next(s: Signals, i: Inputs): Signals {
    Signals(NextWrite(s.w, i), NextRead(s.r, s.w, i), Bus(WriteRequest(s.w), ReadRequest(s.r, s.w)))
  }

  // ---- reads -----------------------------------------------------------------------------

  /** The read channel between any two clocks of a run without reset. */
  predicate Steady(s: ReadSide) {
    && s.arready == !s.active
    && (s.rvalid ==> s.active)
    && (if s.active && !s.rvalid then 1 <= s.watchdog <= READ_TIMEOUT else s.watchdog == 0)
  }

  /** No reset, and the register file replies only while a read is open: taken and not yet
      answered. */
  predicate WellFed(s: ReadSide, i: Inputs) {
    i.resetn && (i.reply ==> s.active && !s.rvalid)
  }

  ghost predicate Run(states: seq<Signals>, inputs: seq<Inputs>) {
    && |states| == |inputs| + 1 && Steady(states[0].r)
    && forall k | 0 <= k < |inputs| :: WellFed(states[k].r, inputs[k]) && states[k + 1] == Next(states[k], inputs[k])
  }

  lemma StaysSteady(s: Signals, i: Inputs)
    requires Steady(s.r) && WellFed(s.r, i)
    ensures Steady(Next(s, i).r)
  {
  }

  lemma {:induction false} AlwaysSteady(states: seq<Signals>, inputs: seq<Inputs>, k: nat)
    requires Run(states, inputs) && k < |states|
    ensures Steady(states[k].r)
  {
    if k > 0 {
      AlwaysSteady(states, inputs, k - 1);
      StaysSteady(states[k - 1], inputs[k - 1]);
    }
  }

  /** The handshake of a read address. */
  predicate Accepts(s: ReadSide, i: Inputs) {
    i.arvalid && s.arready
  }

  /** How often, in the first k clocks, a read was accepted, its data handed over, and rvalid
      rose. */
  function Accepted(states: seq<Signals>, inputs: seq<Inputs>, k: nat): nat
    requires k <= |inputs| < |states|
  {
    if k == 0 then 0 else Accepted(states, inputs, k - 1) + if Accepts(states[k - 1].r, inputs[k - 1]) then 1 else 0
  }

  function HandedOver(states: seq<Signals>, inputs: seq<Inputs>, k: nat): nat
    requires k <= |inputs| < |states|
  {
    if k == 0 then 0 else HandedOver(states, inputs, k - 1) + if Hands(states[k - 1].r, inputs[k - 1]) then 1 else 0
  }

  function Rises(states: seq<Signals>, k: nat): nat
    requires k < |states|
  {
    if k == 0 then 0 else Rises(states, k - 1) + if !states[k - 1].r.rvalid && states[k].r.rvalid then 1 else 0
  }

  function One(b: bool): nat {
    if b then 1 else 0
  }

  /** Main result. In every run from an idle bridge, every accepted read has had exactly one
      rvalid and one handover of its data, but for the read that is still open; and there was
      no rvalid without a read. */
  lemma {:induction false} OneAnswerPerRead(states: seq<Signals>, inputs: seq<Inputs>, k: nat)
    requires Run(states, inputs) && k <= |inputs| && !states[0].r.active
    ensures Accepted(states, inputs, k) == HandedOver(states, inputs, k) + One(states[k].r.active)
    ensures Rises(states, k) == HandedOver(states, inputs, k) + One(states[k].r.rvalid)
  {
    if k > 0 {
      OneAnswerPerRead(states, inputs, k - 1);
      AlwaysSteady(states, inputs, k - 1);
      AlwaysSteady(states, inputs, k);
    }
  }

  /** A read accepted at clock k, at clock m, as long as it was not answered before. */
  lemma {:induction false} Countdown(states: seq<Signals>, inputs: seq<Inputs>, k: nat, m: nat)
    requires Run(states, inputs) && k < |inputs| && Accepts(states[k].r, inputs[k])
    requires k < m < |states| && forall e | k < e < m :: !states[e].r.rvalid
    ensures var s := states[m].r;
            && s.active && s.rid == inputs[k].arid
            && (s.rvalid || s.watchdog == READ_TIMEOUT - (m - k - 1))
    ensures m == k + 1 ==> !states[m].r.rvalid
  {
    AlwaysSteady(states, inputs, m - 1);
    AlwaysSteady(states, inputs, m);
    assert WellFed(states[m - 1].r, inputs[m - 1]) && states[m - 1 + 1] == Next(states[m - 1], inputs[m - 1]);
    if m > k + 1 {
      Countdown(states, inputs, k, m - 1);
    }
  }

  /** Main result. A read accepted at clock k has its answer, under its own id, within seven
      clocks, whether the register file replies or not. */
  lemma AnsweredInTime(states: seq<Signals>, inputs: seq<Inputs>, k: nat)
    requires Run(states, inputs) && k < |inputs| && Accepts(states[k].r, inputs[k])
    requires k + 1 + READ_TIMEOUT < |states|
    ensures exists m | k + 1 < m <= k + 1 + READ_TIMEOUT ::
              states[m].r.rvalid && states[m].r.active && states[m].r.rid == inputs[k].arid
  {
    var m := FirstAnswer(states, k, k + 1);
    if m > k + 1 + READ_TIMEOUT {
      Countdown(states, inputs, k, k + 1 + READ_TIMEOUT);
      AlwaysSteady(states, inputs, k + 1 + READ_TIMEOUT);
      assert false;
    }
    Countdown(states, inputs, k, m);
  }

  /** The first clock from m on with rvalid, if there is one. */
  lemma {:induction false} FirstAnswer(states: seq<Signals>, k: nat, m: nat) returns (first: nat)
    requires k < m <= |states| && forall e | k < e < m :: !states[e].r.rvalid
    ensures m <= first <= |states| && forall e | k < e < first :: !states[e].r.rvalid
    ensures first < |states| ==> states[first].r.rvalid
    decreases |states| - m
  {
    if m == |states| || states[m].r.rvalid {
      first := m;
    } else {
      first := FirstAnswer(states, k, m + 1);
    }
  }

  /** The answer stays, under its id, until it is taken, and is then gone. */
  lemma AnswerHolds(s: Signals, i: Inputs)
    requires Steady(s.r) && WellFed(s.r, i) && s.r.rvalid
    ensures var n := Next(s, i).r;
            if i.rready then !n.rvalid && !n.active && n.arready
            else n.rvalid && n.active && n.rid == s.r.rid && n.rdata == s.r.rdata
  {
  }

  /** A reply while the bridge is idle, or in the clock of a handover. */
  predicate Stray(s: ReadSide, i: Inputs) {
    i.reply && (Hands(s, i) || (!s.active && !i.arvalid))
  }

  /** One clock: rvalid stays tied to an open read exactly when no reply strays. */
  lemma StrayReply(s: Signals, i: Inputs)
    requires Steady(s.r) && i.resetn
    ensures (Next(s, i).r.rvalid ==> Next(s, i).r.active) <==> !Stray(s.r, i)
    ensures !Stray(s.r, i) ==> Steady(Next(s, i).r)
  {
  }

  /** A run without reset, whatever the register file replies and when. */
  ghost predicate FreeRun(states: seq<Signals>, inputs: seq<Inputs>) {
    && |states| == |inputs| + 1 && Steady(states[0].r)
    && forall k | 0 <= k < |inputs| :: inputs[k].resetn && states[k + 1] == Next(states[k], inputs[k])
  }

  lemma {:induction false} SteadyUntilStray(states: seq<Signals>, inputs: seq<Inputs>, k: nat)
    requires FreeRun(states, inputs) && k < |states| && forall j | 0 <= j < k :: !Stray(states[j].r, inputs[j])
    ensures Steady(states[k].r)
  {
    if k > 0 {
      SteadyUntilStray(states, inputs, k - 1);
      assert inputs[k - 1].resetn && states[k - 1 + 1] == Next(states[k - 1], inputs[k - 1]);
      StrayReply(states[k - 1], inputs[k - 1]);
    }
  }

  lemma {:induction false} FirstStray(states: seq<Signals>, inputs: seq<Inputs>, k: nat) returns (first: nat)
    requires |states| == |inputs| + 1 && k < |inputs| && Stray(states[k].r, inputs[k])
    ensures first <= k && Stray(states[first].r, inputs[first])
    ensures forall j | 0 <= j < first :: !Stray(states[j].r, inputs[j])
  {
    if j: nat :| j < k && Stray(states[j].r, inputs[j]) {
      first := FirstStray(states, inputs, j);
    } else {
      first := k;
    }
  }

  /** Main result, of every run without reset: rvalid is only ever up for an open read exactly
      if no reply of the register file strays. */
  lemma RvalidHasReadIff(states: seq<Signals>, inputs: seq<Inputs>)
    requires FreeRun(states, inputs)
    ensures (forall m | 0 <= m < |states| :: states[m].r.rvalid ==> states[m].r.active)
       <==> (forall k | 0 <= k < |inputs| :: !Stray(states[k].r, inputs[k]))
  {
    if k: nat :| k < |inputs| && Stray(states[k].r, inputs[k]) {
      var first := FirstStray(states, inputs, k);
      SteadyUntilStray(states, inputs, first);
      StrayReply(states[first], inputs[first]);
      assert inputs[first].resetn && states[first + 1] == Next(states[first], inputs[first]);
    } else {
      forall m | 0 <= m < |states|
        ensures states[m].r.rvalid ==> states[m].r.active
      {
        SteadyUntilStray(states, inputs, m);
      }
    }
  }

  /** No clock puts a read request and a write on the interconnect. */
  lemma NoClash(s: Signals, i: Inputs)
    ensures Next(s, i).bus.read.None? || Next(s, i).bus.write.None?
  {
  }

  // ---- the request of a read -------------------------------------------------------------

  /** An accepted read's own request is pending after the clock exactly when no older request
      goes out in that clock: one that a timed-out read left behind takes its place. */
  lemma OwnRequestPending(s: Signals, i: Inputs)
    requires Steady(s.r) && i.resetn && Accepts(s.r, i)
    ensures Next(s, i).r.request <==> ReadRequest(s.r, s.w).None?
    ensures Next(s, i).r.address == i.araddr
    ensures ReadRequest(s.r, s.w).Some? ==>
              Next(s, i).bus.read.Some? && Selects(s.r.address, Next(s, i).bus.read.value)
  {
    RegisterSelects(s.r.address, Register(s.r.address));
  }

  /** A pending request goes out once, for the address of the read. */
  lemma RequestGoesOutOnce(s: Signals, i: Inputs)
    requires s.r.request && s.r.active
    ensures Next(s, i).bus.read.Some? <==> !Next(s, i).r.request
    ensures Next(s, i).bus.read.Some? ==> Selects(s.r.address, Next(s, i).bus.read.value)
  {
    RegisterSelects(s.r.address, Register(s.r.address));
  }

  /** Read k, accepted at clock k, has its answer at clock a. */
  ghost predicate AnsweredAt(states: seq<Signals>, inputs: seq<Inputs>, k: nat, a: nat) {
    && k < |inputs| < |states| && k < a < |states|
    && Accepts(states[k].r, inputs[k]) && states[a].r.rvalid && forall m | k < m < a :: !states[m].r.rvalid
  }

  /** While the read waits for its answer the write channel is idle in some clock. */
  ghost predicate Free(states: seq<Signals>, k: nat, a: nat)
    requires a <= |states|
  {
    exists m | k < m < a :: WriteIdle(states[m].w)
  }

  /** No later than its answer exactly one read request is on the interconnect, for the read's
      own address. */
  ghost predicate AsksOnce(states: seq<Signals>, inputs: seq<Inputs>, k: nat, a: nat)
    requires k < |inputs| && a < |states|
  {
    exists m | k + 1 < m <= a ::
      && states[m].bus.read.Some? && Selects(inputs[k].araddr, states[m].bus.read.value)
      && forall n | k + 1 < n <= a && n != m :: states[n].bus.read.None?
  }

  /** A request waits as long as the write channel is busy. */
  lemma {:induction false} RequestWaits(states: seq<Signals>, inputs: seq<Inputs>, k: nat, m: nat)
    requires Run(states, inputs) && k < |inputs| && Accepts(states[k].r, inputs[k])
    requires k < m < |states| && forall e | k < e < m :: !states[e].r.rvalid
    ensures states[m].r.active && states[m].r.address == inputs[k].araddr
    ensures states[m].r.request <==> states[k + 1].r.request && forall n | k < n < m :: !WriteIdle(states[n].w)
  {
    Countdown(states, inputs, k, m);
    AlwaysSteady(states, inputs, m - 1);
    assert states[m - 1 + 1] == Next(states[m - 1], inputs[m - 1]);
    if m > k + 1 {
      RequestWaits(states, inputs, k, m - 1);
      assert WellFed(states[m - 1].r, inputs[m - 1]);
    }
  }

  lemma BusShows(states: seq<Signals>, inputs: seq<Inputs>, m: nat)
    requires Run(states, inputs) && 0 < m < |states|
    ensures states[m].bus.read == ReadRequest(states[m - 1].r, states[m - 1].w)
  {
    assert states[m - 1 + 1] == Next(states[m - 1], inputs[m - 1]);
  }

  /** The first clock from m on in which the write channel is idle. */
  lemma {:induction false} FirstIdle(states: seq<Signals>, k: nat, m: nat, a: nat) returns (first: nat)
    requires k < m <= a < |states| && forall n | k < n < m :: !WriteIdle(states[n].w)
    requires exists n | m <= n < a :: WriteIdle(states[n].w)
    ensures m <= first < a && WriteIdle(states[first].w) && forall n | k < n < first :: !WriteIdle(states[n].w)
    decreases a - m
  {
    if WriteIdle(states[m].w) {
      first := m;
    } else {
      first := FirstIdle(states, k, m + 1, a);
    }
  }

  lemma RequestAt(states: seq<Signals>, inputs: seq<Inputs>, k: nat, a: nat, n: nat)
    requires Run(states, inputs) && AnsweredAt(states, inputs, k, a) && k + 1 < n <= a
    ensures states[n].bus.read.Some? <==>
              && states[k + 1].r.request && WriteIdle(states[n - 1].w)
              && forall e | k < e < n - 1 :: !WriteIdle(states[e].w)
    ensures states[n].bus.read.Some? ==> states[n].bus.read == Some(Register(inputs[k].araddr))
  {
    RequestWaits(states, inputs, k, n - 1);
    BusShows(states, inputs, n);
  }

  /** A read asks once exactly if its own request became pending and the write channel left it a
      clock. */
  lemma AsksOnceIff(states: seq<Signals>, inputs: seq<Inputs>, k: nat, a: nat)
    requires Run(states, inputs) && AnsweredAt(states, inputs, k, a)
    ensures AsksOnce(states, inputs, k, a) <==> states[k + 1].r.request && Free(states, k, a)
  {
    if states[k + 1].r.request && Free(states, k, a) {
      var m := FirstIdle(states, k, k + 1, a);
      RequestAt(states, inputs, k, a, m + 1);
      forall n | k + 1 < n <= a && n != m + 1
        ensures states[n].bus.read.None?
      {
        RequestAt(states, inputs, k, a, n);
      }
      RegisterSelects(inputs[k].araddr, Register(inputs[k].araddr));
      assert states[m + 1].bus.read.Some? && Selects(inputs[k].araddr, states[m + 1].bus.read.value);
    } else {
      forall n | k + 1 < n <= a
        ensures states[n].bus.read.None?
      {
        RequestAt(states, inputs, k, a, n);
      }
    }
  }

  /** An open, unanswered read was accepted before. */
  lemma {:induction false} OpenSince(states: seq<Signals>, inputs: seq<Inputs>, m: nat) returns (k: nat)
    requires Run(states, inputs) && m < |states| && !states[0].r.active
    requires states[m].r.active && !states[m].r.rvalid
    ensures k < m && Accepts(states[k].r, inputs[k]) && forall e | k < e <= m :: !states[e].r.rvalid
  {
    assert m > 0;
    AlwaysSteady(states, inputs, m - 1);
    assert WellFed(states[m - 1].r, inputs[m - 1]) && states[m - 1 + 1] == Next(states[m - 1], inputs[m - 1]);
    if Accepts(states[m - 1].r, inputs[m - 1]) {
      k := m - 1;
    } else {
      k := OpenSince(states, inputs, m - 1);
    }
  }

  ghost predicate AllFree(states: seq<Signals>, inputs: seq<Inputs>) {
    forall k: nat, a: nat | AnsweredAt(states, inputs, k, a) :: Free(states, k, a)
  }

  ghost predicate AllAskOnce(states: seq<Signals>, inputs: seq<Inputs>) {
    forall k: nat, a: nat | AnsweredAt(states, inputs, k, a) :: AsksOnce(states, inputs, k, a)
  }

  /** If the write channel leaves every read a clock, no request outlives its read. */
  lemma {:induction false} NothingLeft(states: seq<Signals>, inputs: seq<Inputs>, m: nat)
    requires Run(states, inputs) && m < |states| && AllFree(states, inputs)
    requires !states[0].r.active && !states[0].r.request
    ensures states[m].r.request ==> states[m].r.active && !states[m].r.rvalid
  {
    if m > 0 {
      NothingLeft(states, inputs, m - 1);
      AlwaysSteady(states, inputs, m - 1);
      assert WellFed(states[m - 1].r, inputs[m - 1]) && states[m - 1 + 1] == Next(states[m - 1], inputs[m - 1]);
      if states[m].r.request && states[m].r.rvalid {
        var k := OpenSince(states, inputs, m - 1);
        RequestWaits(states, inputs, k, m);
        assert AnsweredAt(states, inputs, k, m);
        assert false;
      }
    }
  }

  /** Main result, of every run from an idle bridge: every answered read has put exactly one
      request, for its own address, on the interconnect before its answer, exactly if the write
      channel was idle for some clock while each of them waited. */
  lemma AllAskOnceIff(states: seq<Signals>, inputs: seq<Inputs>)
    requires Run(states, inputs) && !states[0].r.active && !states[0].r.request
    ensures AllAskOnce(states, inputs) <==> AllFree(states, inputs)
  {
    forall k: nat, a: nat | AnsweredAt(states, inputs, k, a)
      ensures AsksOnce(states, inputs, k, a) ==> Free(states, k, a)
      ensures AllFree(states, inputs) ==> AsksOnce(states, inputs, k, a)
    {
      AsksOnceIff(states, inputs, k, a);
      if AllFree(states, inputs) {
        NothingLeft(states, inputs, k);
        AlwaysSteady(states, inputs, k);
        assert states[k + 1] == Next(states[k], inputs[k]);
        OwnRequestPending(states[k], inputs[k]);
      }
    }
  }

  // ---- writes ----------------------------------------------------------------------------

  predicate Complete(w: WriteSide) {
    w.active && w.dataActive
  }

  /** The addresses and the data that the bridge took in the first k clocks. */
  function Addresses(states: seq<Signals>, inputs: seq<Inputs>, k: nat): seq<nat>
    requires k <= |inputs| < |states|
  {
    if k == 0 then []
    else Addresses(states, inputs, k - 1) +
         if inputs[k - 1].awvalid && !states[k - 1].w.active then [inputs[k - 1].awaddr] else []
  }

  function Data(states: seq<Signals>, inputs: seq<Inputs>, k: nat): seq<nat>
    requires k <= |inputs| < |states|
  {
    if k == 0 then []
    else Data(states, inputs, k - 1) +
         if inputs[k - 1].wvalid && !states[k - 1].w.dataActive then [inputs[k - 1].wdata] else []
  }

  /** The writes that they put on the interconnect. */
  function Written(states: seq<Signals>, k: nat): seq<(nat, nat)>
    requires k < |states|
  {
    if k == 0 then []
    else Written(states, k - 1) + if states[k].bus.write.Some? then [states[k].bus.write.value] else []
  }

  /** A run without reset, with no write under way at its start. */
  ghost predicate WriteRun(states: seq<Signals>, inputs: seq<Inputs>) {
    && |states| == |inputs| + 1 && WriteIdle(states[0].w)
    && forall k | 0 <= k < |inputs| :: inputs[k].resetn && states[k + 1] == Next(states[k], inputs[k])
  }

  /** Every address taken has gone to the interconnect once with the data taken at its place, in
      order, but for the address and the data that still wait for each other. */
  predicate EachOnce(states: seq<Signals>, inputs: seq<Inputs>, k: nat)
    requires k <= |inputs| < |states|
  {
    var a, d, w := Addresses(states, inputs, k), Data(states, inputs, k), Written(states, k);
    && |a| == |w| + One(states[k].w.active) && |d| == |w| + One(states[k].w.dataActive)
    && forall m | 0 <= m < |w| :: Selects(a[m], w[m].0) && w[m].1 == d[m]
  }

  /** What waits is what was taken last. */
  predicate Waiting(states: seq<Signals>, inputs: seq<Inputs>, k: nat)
    requires k <= |inputs| < |states|
  {
    var a, d, w := Addresses(states, inputs, k), Data(states, inputs, k), states[k].w;
    && (w.active ==> a != [] && a[|a| - 1] == w.address) && (w.dataActive ==> d != [] && d[|d| - 1] == w.data)
    && (Complete(w) ==> !w.bvalid)
  }

  /** The master is ready for the response in the clock in which a write is complete. */
  predicate ReadyAt(states: seq<Signals>, inputs: seq<Inputs>, k: nat)
    requires k < |inputs| < |states|
  {
    Complete(states[k].w) ==> inputs[k].bready
  }

  lemma {:induction false} WritesGoOut(states: seq<Signals>, inputs: seq<Inputs>, k: nat)
    requires WriteRun(states, inputs) && k <= |inputs| && forall j | 0 <= j < k :: ReadyAt(states, inputs, j)
    ensures EachOnce(states, inputs, k) && Waiting(states, inputs, k)
  {
    if k > 0 {
      WritesGoOut(states, inputs, k - 1);
      assert inputs[k - 1].resetn && states[k - 1 + 1] == Next(states[k - 1], inputs[k - 1]);
      assert ReadyAt(states, inputs, k - 1);
      WriteStep(states, inputs, k);
    }
  }

  lemma WriteStep(states: seq<Signals>, inputs: seq<Inputs>, k: nat)
    requires 0 < k <= |inputs| < |states| && EachOnce(states, inputs, k - 1) && Waiting(states, inputs, k - 1)
    requires inputs[k - 1].resetn && states[k] == Next(states[k - 1], inputs[k - 1]) && ReadyAt(states, inputs, k - 1)
    ensures EachOnce(states, inputs, k) && Waiting(states, inputs, k)
  {
    RegisterSelects(states[k - 1].w.address, Register(states[k - 1].w.address));
  }

  lemma {:induction false} FirstUnready(states: seq<Signals>, inputs: seq<Inputs>, k: nat) returns (first: nat)
    requires k < |inputs| < |states| && !ReadyAt(states, inputs, k)
    ensures first <= k && !ReadyAt(states, inputs, first) && forall j | 0 <= j < first :: ReadyAt(states, inputs, j)
  {
    if j: nat :| j < k && !ReadyAt(states, inputs, j) {
      first := FirstUnready(states, inputs, j);
    } else {
      first := k;
    }
  }

  /** Main result, of every run without reset: every address is written once, with its own data, in
      order, exactly if the master is always ready for the response in the clock in which address
      and data have both been taken. */
  lemma EachOnceIff(states: seq<Signals>, inputs: seq<Inputs>)
    requires WriteRun(states, inputs)
    ensures (forall k | 0 <= k <= |inputs| :: EachOnce(states, inputs, k))
       <==> (forall k | 0 <= k < |inputs| :: ReadyAt(states, inputs, k))
  {
    if k: nat :| k < |inputs| && !ReadyAt(states, inputs, k) {
      var first := FirstUnready(states, inputs, k);
      WritesGoOut(states, inputs, first);
      assert inputs[first].resetn && states[first + 1] == Next(states[first], inputs[first]);
      assert !EachOnce(states, inputs, first + 1);
    } else {
      forall k | 0 <= k <= |inputs|
        ensures EachOnce(states, inputs, k)
      {
        WritesGoOut(states, inputs, k);
      }
    }
  }

  /** If it is not, the write is never over: it goes out again in every clock from then on, and no
      other is taken, whatever the master does. */
  lemma {:induction false} StuckWrite(states: seq<Signals>, inputs: seq<Inputs>, k: nat, m: nat)
    requires WriteRun(states, inputs) && k < m < |states|
    requires Complete(states[k].w) && !inputs[k].bready
    ensures Complete(states[m].w) && states[m].w.bvalid
    ensures states[m].bus.write.Some? && Selects(states[k].w.address, states[m].bus.write.value.0)
            && states[m].bus.write.value.1 == states[k].w.data
    ensures states[m].w.address == states[k].w.address && states[m].w.data == states[k].w.data
  {
    RegisterSelects(states[k].w.address, Register(states[k].w.address));
    assert inputs[m - 1].resetn && states[m - 1 + 1] == Next(states[m - 1], inputs[m - 1]);
    if m > k + 1 {
      StuckWrite(states, inputs, k, m - 1);
    }
  }

  // ---- two runs that go wrong ------------------------------------------------------------

  /** After reset, with nothing under way. */
  const IDLE: Signals := Signals(WriteSide(false, false, 0, 0, true, true, false, 0),
                                 ReadSide(false, 0, false, 0, true, false, 0, 0), Bus(None, None))

  /** A clock in which nobody asks for anything; the master takes write responses at once. */
  const QUIET: Inputs := Inputs(true, false, 0, 0, false, 0, true, false, 0, 0, false, false, 0)

  /** A write address is taken, its data is not there yet; a read waits behind it. */
  function Blocked(write: nat, read: nat, watchdog: nat): Signals {
    Signals(WriteSide(true, false, write, 0, false, true, false, 0),
            ReadSide(true, read, true, watchdog, false, false, 0, 0), Bus(None, None))
  }

  /** One clock more. */
  lemma Grow(states: seq<Signals>, inputs: seq<Inputs>, i: Inputs, n: Signals)
    returns (states': seq<Signals>, inputs': seq<Inputs>)
    requires Run(states, inputs) && WellFed(states[|inputs|].r, i) && n == Next(states[|inputs|], i)
    ensures states' == states + [n] && inputs' == inputs + [i] && Run(states', inputs')
  {
    states', inputs' := states + [n], inputs + [i];
    forall k | 0 <= k < |inputs'|
      ensures WellFed(states'[k].r, inputs'[k]) && states'[k + 1] == Next(states'[k], inputs'[k])
    {
      if k < |inputs| {
        assert WellFed(states[k].r, inputs[k]) && states[k + 1] == Next(states[k], inputs[k]);
      }
    }
  }

  /** Eight clocks: a write address and a read come together, the write data is late, and the
      watchdog answers the read. */
  lemma TimedOutBehindWrite(write: nat, data: nat, read: nat) returns (states: seq<Signals>, inputs: seq<Inputs>)
    ensures Run(states, inputs) && states[0] == IDLE && |inputs| == 8
    ensures states[8] == Signals(WriteSide(true, true, write, data, false, false, false, 0),
                                 ReadSide(true, read, true, 0, false, true, 0, 0), Bus(None, None))
  {
    states, inputs := Grow([IDLE], [], QUIET.(awvalid := true, awaddr := write, arvalid := true, araddr := read),
                           Blocked(write, read, 7));
    var d := 7;
    while d > 1
      invariant 1 <= d <= 7 && Run(states, inputs) && |inputs| == 8 - d
      invariant states[0] == IDLE && states[|inputs|] == Blocked(write, read, d)
    {
      states, inputs := Grow(states, inputs, QUIET, Blocked(write, read, d - 1));
      d := d - 1;
    }
    var last := Next(states[7], QUIET.(wvalid := true, wdata := data));
    states, inputs := Grow(states, inputs, QUIET.(wvalid := true, wdata := data), last);
  }

  /** The write completes, and the next read is accepted in the clock in which the write channel
      becomes idle: the old request goes out in its place, and the reply to it is handed over as
      the answer to the new read. The new read never asks. */
  lemma WrongAnswer(write: nat, data: nat, first: nat, second: nat, id: nat, reply: nat)
    returns (states: seq<Signals>, inputs: seq<Inputs>)
    ensures Run(states, inputs) && states[0] == IDLE && |inputs| == 12
    ensures inputs[10].araddr == second && AnsweredAt(states, inputs, 10, 12)
    ensures states[11].bus.read.Some? && Selects(first, states[11].bus.read.value) && states[12].bus.read.None?
    ensures states[12].r.rid == id && states[12].r.rdata == reply
    ensures !AsksOnce(states, inputs, 10, 12) && !states[12].r.request
  {
    RegisterSelects(first, Register(first));
    states, inputs := TimedOutBehindWrite(write, data, first);
    states, inputs := Grow(states, inputs, QUIET.(rready := true), Next(states[8], QUIET.(rready := true)));
    states, inputs := Grow(states, inputs, QUIET, Next(states[9], QUIET));
    var next := QUIET.(arvalid := true, arid := id, araddr := second);
    states, inputs := Grow(states, inputs, next, Next(states[10], next));
    var answer := QUIET.(reply := true, busData := reply);
    states, inputs := Grow(states, inputs, answer, Next(states[11], answer));
  }

  /** A register file that replies once more in the clock of the handover: the bridge has rvalid
      up again, with no read open. */
  lemma StrayRun(read: nat, id: nat, reply: nat, again: nat) returns (states: seq<Signals>, inputs: seq<Inputs>)
    ensures FreeRun(states, inputs) && states[0] == IDLE && |inputs| == 3
    ensures AnsweredAt(states, inputs, 0, 2) && states[2].r.rdata == reply && inputs[2].rready
    ensures Stray(states[2].r, inputs[2]) && states[3].r.rvalid && !states[3].r.active && states[3].r.rdata == again
  {
    var ask := QUIET.(arvalid := true, arid := id, araddr := read);
    var answer := QUIET.(reply := true, busData := reply);
    var take := QUIET.(rready := true, reply := true, busData := again);
    states, inputs := Grow([IDLE], [], ask, Next(IDLE, ask));
    states, inputs := Grow(states, inputs, answer, Next(states[1], answer));
    states, inputs := states + [Next(states[2], take)], inputs + [take];
  }
}
