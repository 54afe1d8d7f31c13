/**
One TFTP transfer (`serve_file` of tftp_server.py): lock step with retries and 16-bit block
numbers, and its client (RFC 1350, sections 2 and 6) over a network that loses, duplicates
and reorders packets.
*/
module TftpTransfer {
  import opened Wrappers

  type Bytes = string

  const RETRIES: nat := 8
  const WRAP: nat := 0x1_0000

  /** A file and the block size that was agreed on. */
  datatype Job = Job(file: Bytes, size: nat, oack: bool)

  predicate Proper(j: Job) {
    8 <= j.size <= 65464
  }

  function Apart(a: int, b: int): nat {
    if a < b then b - a else a - b
  }

  /** The block size: the nearest in RFC 2348's range to what the client asked for; 512 if it did
      not ask. */
  function BlockSize(asked: Option<int>): (size: nat)
    ensures 8 <= size <= 65464
    ensures asked.Some? ==> forall v: nat | 8 <= v <= 65464 :: Apart(size, asked.value) <= Apart(v, asked.value)
    ensures asked.None? ==> size == 512
  {
    match asked
    case None => 512
    case Some(n) => if n < 8 then 8 else if n > 65464 then 65464 else n
  }

  /** The bytes before block k + 1. */
  function Before(j: Job, k: nat): (b: nat)
    ensures b <= |j.file|
  {
    if k * j.size < |j.file| then k * j.size else |j.file|
  }

  /** Block k, as `f.read` returns it. */
  function Chunk(j: Job, k: nat): Bytes
    requires k >= 1
  {
    AboutBefore(j, k);
    j.file[Before(j, k - 1)..Before(j, k)]
  }

  lemma AboutBefore(j: Job, k: nat)
    requires k >= 1
    ensures Before(j, k - 1) <= Before(j, k)
  {
    assert (k - 1) * j.size + j.size == k * j.size;
  }

  /** The last block: the first that is shorter than the block size. */
  function Last(j: Job): nat
    requires Proper(j)
  {
    |j.file| / j.size + 1
  }

  lemma LastIsShort(j: Job, k: nat)
    requires Proper(j) && 1 <= k <= Last(j)
    ensures |Chunk(j, k)| < j.size <==> k == Last(j)
    ensures k == Last(j) ==> Before(j, k) == |j.file|
  {
    var q := |j.file| / j.size;
    var r := |j.file| % j.size;
    AboutBefore(j, k);
    assert |j.file| == q * j.size + r && 0 <= r < j.size;
    assert (k - 1) * j.size + j.size == k * j.size;
    if k == Last(j) {
      assert (k - 1) * j.size == q * j.size;
    } else {
      MulMonotone(k, q, j.size);
    }
  }

  lemma MulMonotone(a: nat, b: nat, c: nat)
    requires a <= b
    ensures a * c <= b * c
  {
  }

  // ---- the server's machine --------------------------------------------------------------

  datatype Phase = Active | Sent | Failed

  /** The block on its way (0: the option acknowledgment), how often it went out, and how many
      packets went out in all. */
  datatype Server = Server(block: nat, tries: nat, phase: Phase, sends: nat)

  datatype Action = SendPacket | GotAck(num: nat) | GotOther | GotError | GiveUp

  function First(j: Job): Server {
    Server(if j.oack then 0 else 1, 0, Active, 0)
  }

  predicate CanDo(j: Job, s: Server, a: Action) {
    && s.phase == Active
    && match a
       case SendPacket => s.tries < RETRIES
       case GiveUp => s.tries == RETRIES
       case _ => s.tries >= 1
  }

  /** The next block, or the end after a short one. */
  function Advance(j: Job, s: Server): Server {
    if s.block >= 1 && |Chunk(j, s.block)| < j.size then s.(phase := Sent) else s.(block := s.block + 1, tries := 0)
  }

  function Do(j: Job, s: Server, a: Action): Server {
    match a
    case SendPacket => s.(tries := s.tries + 1, sends := s.sends + 1)
    case GotAck(num) => if num == s.block % WRAP then Advance(j, s) else s
    case GotOther => s
    case GotError => s.(phase := Failed)
    case GiveUp => s.(phase := Failed)
  }

  predicate Valid(j: Job, s: Server, log: seq<Action>)
  {
    log == [] || (Valid(j, s, log[..|log| - 1]) && CanDo(j, After(j, s, log[..|log| - 1]), log[|log| - 1]))
  }

  function After(j: Job, s: Server, log: seq<Action>): Server {
    if log == [] then s else Do(j, After(j, s, log[..|log| - 1]), log[|log| - 1])
  }

  lemma AfterOne(j: Job, s: Server, log: seq<Action>, a: Action)
    requires Valid(j, s, log) && CanDo(j, After(j, s, log), a)
    ensures Valid(j, s, log + [a]) && After(j, s, log + [a]) == Do(j, After(j, s, log), a)
  {
    assert (log + [a])[..|log|] == log;
  }

  /** Main result: in every run each packet goes out at most eight times, so all of them
      together at most eight times the packets of the file. */
  lemma {:induction false} SendsAreBounded(j: Job, log: seq<Action>)
    requires Proper(j) && Valid(j, First(j), log)
    ensures var s := After(j, First(j), log);
            && First(j).block <= s.block <= Last(j) && s.tries <= 8
            && s.sends <= 8 * (s.block - First(j).block) + s.tries
            && s.sends <= 8 * (Last(j) - First(j).block + 1)
            && (s.phase == Sent ==> s.block == Last(j))
  {
    if log != [] {
      SendsAreBounded(j, log[..|log| - 1]);
      var p := After(j, First(j), log[..|log| - 1]);
      if p.block >= 1 {
        LastIsShort(j, p.block);
      }
    }
  }

  // ---- the server's loop -----------------------------------------------------------------

  /** What the socket gives next: nothing before the deadline, or a packet. */
  datatype Arrival = TimedOut | Got(fromClient: bool, length: nat, op: nat, num: nat)

  const ACK: nat := 4
  const ERROR: nat := 5

  function At(env: seq<Arrival>, k: nat): Arrival {
    if k < |env| then env[k] else TimedOut
  }

  /** How many deadlines pass among the arrivals from..to. */
  function Timeouts(env: seq<Arrival>, from: nat, to: nat): nat
    requires from <= to
  {
    if from == to then 0 else Timeouts(env, from, to - 1) + if At(env, to - 1).TimedOut? then 1 else 0
  }

  lemma {:induction false} TimeoutsSplit(env: seq<Arrival>, from: nat, mid: nat, to: nat)
    requires from <= mid <= to
    ensures Timeouts(env, from, to) == Timeouts(env, from, mid) + Timeouts(env, mid, to)
  {
    if mid < to {
      TimeoutsSplit(env, from, mid, to - 1);
    }
  }

  lemma {:induction false} NoTimeouts(env: seq<Arrival>, from: nat, to: nat)
    requires from <= to && forall i | from <= i < to :: !At(env, i).TimedOut?
    ensures Timeouts(env, from, to) == 0
  {
    if from < to {
      NoTimeouts(env, from, to - 1);
    }
  }

  predicate FromClient(a: Arrival) {
    a.Got? && a.fromClient && a.length >= 4
  }

  /** The client's ACK of a block, and its ERROR. */
  predicate Acks(a: Arrival, block: nat) {
    FromClient(a) && a.op == 4 && a.num == block % 0x1_0000
  }

  predicate Aborts(a: Arrival) {
    FromClient(a) && a.op == 5
  }

  predicate Ends(a: Arrival, block: nat) {
    Acks(a, block) || Aborts(a)
  }

  /** The numbers of the client's ACKs among the arrivals from..upto. */
  function AcksIn(env: seq<Arrival>, from: nat, upto: nat): seq<nat>
    requires from <= upto
  {
    if from == upto then []
    else
      var a := At(env, upto - 1);
      AcksIn(env, from, upto - 1) + if FromClient(a) && a.op == ACK then [a.num] else []
  }

  lemma {:induction false} AcksSplit(env: seq<Arrival>, from: nat, mid: nat, upto: nat)
    requires from <= mid <= upto
    ensures AcksIn(env, from, upto) == AcksIn(env, from, mid) + AcksIn(env, mid, upto)
  {
    if mid < upto {
      AcksSplit(env, from, mid, upto - 1);
    }
  }

  /** And those of the ACKs that a run of the machine takes. */
  function AcksOf(log: seq<Action>): seq<nat> {
    if log == [] then []
    else
      var a := log[|log| - 1];
      AcksOf(log[..|log| - 1]) + if a.GotAck? then [a.num] else []
  }

  /** What `log` has more than `log0` are, as far as ACKs go, the client's from..next. */
  predicate Follows(env: seq<Arrival>, from: nat, next: nat, log0: seq<Action>, log: seq<Action>)
    requires from <= next
  {
    AcksOf(log) == AcksOf(log0) + AcksIn(env, from, next)
  }

  lemma AcksOfOne(log: seq<Action>, a: Action)
    ensures AcksOf(log + [a]) == AcksOf(log) + if a.GotAck? then [a.num] else []
  {
    assert (log + [a])[..|log|] == log;
  }

  /** What goes out: the option acknowledgment, or a block with its 16-bit number. */
  datatype Packet = OackPacket | DataPacket(num: nat, bytes: Bytes)

  function PacketOf(j: Job, block: nat): Packet {
    if block == 0 then OackPacket else DataPacket(block % WRAP, Chunk(j, block))
  }

  function Repeat(p: Packet, n: nat): seq<Packet> {
    if n == 0 then [] else Repeat(p, n - 1) + [p]
  }

  /** The packets that a run of the machine sends. */
  function WireOf(j: Job, log: seq<Action>): seq<Packet> {
    if log == [] then []
    else
      var front := log[..|log| - 1];
      WireOf(j, front) + if log[|log| - 1] == SendPacket then [PacketOf(j, After(j, First(j), front).block)] else []
  }

  lemma WireOne(j: Job, log: seq<Action>, a: Action)
    ensures WireOf(j, log + [a])
         == WireOf(j, log) + if a == SendPacket then [PacketOf(j, After(j, First(j), log).block)] else []
  {
    assert (log + [a])[..|log|] == log;
  }

  datatype Answer = Acked | NoAnswer | Aborted

  /** The log is a run of the machine that has sent the packet of state `s` k times. */
  ghost predicate Sending(j: Job, s: Server, log: seq<Action>, k: nat) {
    && Valid(j, First(j), log) && s.phase == Active && s.tries == 0
    && After(j, First(j), log) == s.(tries := k, sends := s.sends + k)
  }

  lemma KeepWaiting(j: Job, s: Server, log: seq<Action>, k: nat, a: Action)
    requires Sending(j, s, log, k) && k >= 1
    requires a == GotOther || (a.GotAck? && a.num != s.block % WRAP)
    ensures Sending(j, s, log + [a], k)
  {
    AfterOne(j, First(j), log, a);
  }

  /** What an arrival that ends nothing is to the machine. */
  function Dropped(a: Arrival): Action {
    if FromClient(a) && a.op == ACK then GotAck(a.num) else GotOther
  }

  lemma Logged(j: Job, env: seq<Arrival>, from: nat, next: nat, log0: seq<Action>, log: seq<Action>, a: Action)
    requires from <= next && Follows(env, from, next, log0, log)
    requires a != SendPacket
    requires var x := At(env, next); (a.GotAck? <==> FromClient(x) && x.op == ACK) && (a.GotAck? ==> a.num == x.num)
    ensures Follows(env, from, next + 1, log0, log + [a]) && WireOf(j, log + [a]) == WireOf(j, log)
  {
    AcksOfOne(log, a);
    WireOne(j, log, a);
  }

  /** The wait after one sending: until the client's ACK of this very block, its ERROR, or the
      deadline. Everything else - an ACK of an older block too - is taken from the socket and
      dropped. */
  method AwaitAck(j: Job, ghost s: Server, block: nat, env: seq<Arrival>, from: nat, log0: seq<Action>, ghost k: nat)
    returns (r: Answer, next: nat, log: seq<Action>)
    requires Sending(j, s, log0, k) && k >= 1 && s.block == block
    ensures next > from
    ensures r == Acked <==> Acks(At(env, next - 1), block)
    ensures r == Aborted <==> Aborts(At(env, next - 1))
    ensures r == NoAnswer <==> At(env, next - 1).TimedOut?
    ensures forall i | from <= i < next - 1 :: !At(env, i).TimedOut? && !Ends(At(env, i), block)
    ensures r == NoAnswer ==> Sending(j, s, log, k)
    ensures r != NoAnswer ==> Valid(j, First(j), log)
    ensures r == Acked ==> After(j, First(j), log) == Advance(j, s.(tries := k, sends := s.sends + k))
    ensures r == Aborted ==> After(j, First(j), log).phase == Failed
    ensures Follows(env, from, next, log0, log) && WireOf(j, log) == WireOf(j, log0)
  {
    next, log := from, log0;
    while true
      invariant next >= from && Sending(j, s, log, k)
      invariant forall i | from <= i < next :: !At(env, i).TimedOut? && !Ends(At(env, i), block)
      invariant Follows(env, from, next, log0, log) && WireOf(j, log) == WireOf(j, log0)
      decreases |env| - next
    {
      var a := At(env, next);
      next := next + 1;
      if a.TimedOut? {
        return NoAnswer, next, log;
      }
      if !a.fromClient || a.length < 4 {
        Logged(j, env, from, next - 1, log0, log, GotOther);
        KeepWaiting(j, s, log, k, GotOther);
        log := log + [GotOther];
        continue;
      }
      if a.op == ACK && a.num == block % WRAP {
        Logged(j, env, from, next - 1, log0, log, GotAck(a.num));
        AfterOne(j, First(j), log, GotAck(a.num));
        return Acked, next, log + [GotAck(a.num)];
      }
      if a.op == ERROR {
        Logged(j, env, from, next - 1, log0, log, GotError);
        AfterOne(j, First(j), log, GotError);
        return Aborted, next, log + [GotError];
      }
      var other := Dropped(a);
      Logged(j, env, from, next - 1, log0, log, other);
      KeepWaiting(j, s, log, k, other);
      log := log + [other];
    }
  }

  lemma SendOnce(j: Job, s: Server, log: seq<Action>, k: nat)
    requires Sending(j, s, log, k) && k < RETRIES
    ensures Sending(j, s, log + [SendPacket], k + 1)
    ensures AcksOf(log + [SendPacket]) == AcksOf(log)
    ensures WireOf(j, log + [SendPacket]) == WireOf(j, log) + [PacketOf(j, s.block)]
  {
    AfterOne(j, First(j), log, SendPacket);
    AcksOfOne(log, SendPacket);
    WireOne(j, log, SendPacket);
  }

  /** One more wait joins those before. */
  lemma Waited(env: seq<Arrival>, from: nat, before: nat, next: nat,
               log0: seq<Action>, sent: seq<Action>, log: seq<Action>)
    requires from <= before < next && forall i | before <= i < next - 1 :: !At(env, i).TimedOut?
    requires Follows(env, from, before, log0, sent) && Follows(env, before, next, sent, log)
    ensures Follows(env, from, next, log0, log)
    ensures Timeouts(env, from, next) == Timeouts(env, from, before) + if At(env, next - 1).TimedOut? then 1 else 0
  {
    AcksJoin(env, from, before, next, log0, sent, log);
    TimedOutOnce(env, from, before, next);
  }

  lemma AcksJoin(env: seq<Arrival>, from: nat, mid: nat, next: nat,
                 log0: seq<Action>, log1: seq<Action>, log: seq<Action>)
    requires from <= mid <= next && Follows(env, from, mid, log0, log1) && Follows(env, mid, next, log1, log)
    ensures Follows(env, from, next, log0, log)
  {
    AcksSplit(env, from, mid, next);
    Joined(AcksOf(log0), AcksIn(env, from, mid), AcksIn(env, mid, next),
           AcksOf(log1), AcksOf(log), AcksIn(env, from, next));
  }

  lemma Joined(a: seq<nat>, b: seq<nat>, c: seq<nat>, ab: seq<nat>, abc: seq<nat>, bc: seq<nat>)
    requires ab == a + b && abc == ab + c && bc == b + c
    ensures abc == a + bc
  {
  }

  lemma TimedOutOnce(env: seq<Arrival>, from: nat, before: nat, next: nat)
    requires from <= before < next && forall i | before <= i < next - 1 :: !At(env, i).TimedOut?
    ensures Timeouts(env, from, next) == Timeouts(env, from, before) + if At(env, next - 1).TimedOut? then 1 else 0
  {
    TimeoutsSplit(env, from, before, next - 1);
    NoTimeouts(env, before, next - 1);
  }

  predicate NoEnd(env: seq<Arrival>, from: nat, upto: nat, block: nat) {
    forall i | from <= i < upto :: !Ends(At(env, i), block)
  }

  lemma NoEndYet(env: seq<Arrival>, from: nat, before: nat, next: nat, block: nat)
    requires from <= before < next && NoEnd(env, from, before, block) && NoEnd(env, before, next - 1, block)
    ensures NoEnd(env, from, next - 1, block)
    ensures At(env, next - 1).TimedOut? ==> NoEnd(env, from, next, block)
  {
  }

  /** One sending, and the wait after it. */
  method SendAndWait(j: Job, ghost s: Server, block: nat, packet: Packet, env: seq<Arrival>, from: nat,
                     log0: seq<Action>, wire0: seq<Packet>, ghost k: nat)
    returns (r: Answer, next: nat, log: seq<Action>, wire: seq<Packet>)
    requires Sending(j, s, log0, k) && k < RETRIES && s.block == block && packet == PacketOf(j, block)
    requires wire0 == WireOf(j, log0)
    ensures next > from && wire == wire0 + [packet] && wire == WireOf(j, log)
    ensures r == Acked <==> Acks(At(env, next - 1), block)
    ensures r == Aborted <==> Aborts(At(env, next - 1))
    ensures r == NoAnswer <==> At(env, next - 1).TimedOut?
    ensures (forall i | from <= i < next - 1 :: !At(env, i).TimedOut?) && NoEnd(env, from, next - 1, block)
    ensures r == NoAnswer ==> Sending(j, s, log, k + 1)
    ensures r != NoAnswer ==> Valid(j, First(j), log)
    ensures r == Acked ==> After(j, First(j), log) == Advance(j, s.(tries := k + 1, sends := s.sends + k + 1))
    ensures r == Aborted ==> After(j, First(j), log).phase == Failed
    ensures Follows(env, from, next, log0, log)
  {
    SendOnce(j, s, log0, k);
    wire := wire0 + [packet];
    r, next, log := AwaitAck(j, s, block, env, from, log0 + [SendPacket], k + 1);
  }

  /** Waits from..next that ended at their deadlines, `sends` of them. */
  predicate Unanswered(env: seq<Arrival>, from: nat, next: nat, block: nat,
                       log0: seq<Action>, log: seq<Action>, sends: nat) {
    && from <= next && (sends > 0 ==> from < next)
    && Timeouts(env, from, next) == sends && NoEnd(env, from, next, block) && Follows(env, from, next, log0, log)
  }

  /** And one wait more, with what it answered. */
  predicate Answered(env: seq<Arrival>, from: nat, next: nat, block: nat,
                     log0: seq<Action>, log: seq<Action>, sends: nat) {
    && from < next && NoEnd(env, from, next - 1, block) && Follows(env, from, next, log0, log)
    && Timeouts(env, from, next) == if At(env, next - 1).TimedOut? then sends else sends - 1
  }

  lemma WaitedOnce(env: seq<Arrival>, from: nat, before: nat, next: nat, block: nat,
                   log0: seq<Action>, sent: seq<Action>, log: seq<Action>, sends: nat)
    requires Unanswered(env, from, before, block, log0, sent, sends) && before < next
    requires forall i | before <= i < next - 1 :: !At(env, i).TimedOut?
    requires NoEnd(env, before, next - 1, block) && Follows(env, before, next, sent, log)
    ensures Answered(env, from, next, block, log0, log, sends + 1)
    ensures At(env, next - 1).TimedOut? ==> Unanswered(env, from, next, block, log0, log, sends + 1)
  {
    Waited(env, from, before, next, log0, sent, log);
    NoEndYet(env, from, before, next, block);
  }

  /** `send_wait`: the packet of `block` until the client ACKs it, at most RETRIES times. */
  method SendWait(j: Job, ghost s: Server, block: nat, packet: Packet, env: seq<Arrival>, from: nat,
                  log0: seq<Action>, wire0: seq<Packet>)
    returns (r: Answer, next: nat, log: seq<Action>, wire: seq<Packet>, sends: nat)
    requires Sending(j, s, log0, 0) && s.block == block && packet == PacketOf(j, block) && wire0 == WireOf(j, log0)
    ensures 1 <= sends <= 8 && next > from
    ensures Valid(j, First(j), log)
    ensures r == Acked ==> After(j, First(j), log) == Advance(j, s.(tries := sends, sends := s.sends + sends))
    ensures r == NoAnswer ==> Sending(j, s, log, RETRIES)
    ensures r == Aborted ==> After(j, First(j), log).phase == Failed
    ensures r == Acked <==> Acks(At(env, next - 1), block)
    ensures r == Aborted <==> Aborts(At(env, next - 1))
    ensures NoEnd(env, from, next - 1, block)
    ensures Timeouts(env, from, next) == if r == NoAnswer then RETRIES else sends - 1
    ensures Follows(env, from, next, log0, log) && wire == WireOf(j, log)
    ensures wire == wire0 + Repeat(packet, sends)
  {
    next, log, wire, sends := from, log0, wire0, 0;
    r := NoAnswer;
    while sends < RETRIES
      invariant sends <= RETRIES && Sending(j, s, log, sends)
      invariant Unanswered(env, from, next, block, log0, log, sends)
      invariant wire == WireOf(j, log) && wire == wire0 + Repeat(packet, sends)
      invariant r == NoAnswer
    {
      ghost var before, logged := next, log;
      r, next, log, wire := SendAndWait(j, s, block, packet, env, next, log, wire, sends);
      sends := sends + 1;
      WaitedOnce(env, from, before, next, block, log0, logged, log, sends - 1);
      if r != NoAnswer {
        return;
      }
    }
  }

  /** The file's first blocks, in order. */
  ghost predicate FirstBlocks(j: Job, blocks: seq<Bytes>) {
    forall k | 0 <= k < |blocks| :: blocks[k] == Chunk(j, k + 1)
  }

  /** The arrivals at these places, each later than the one before, are the client's ACKs of one
      block after the other from `first` on. */
  ghost predicate AckedInOrder(env: seq<Arrival>, first: nat, places: seq<nat>) {
    && (forall k | 0 <= k < |places| :: Acks(At(env, places[k]), first + k))
    && (forall k | 0 < k < |places| :: places[k - 1] < places[k])
  }

  lemma ReadIsChunk(j: Job, block: nat)
    requires Proper(j) && 1 <= block <= Last(j)
    ensures var p := Before(j, block - 1);
            && Chunk(j, block) == j.file[p..if p + j.size < |j.file| then p + j.size else |j.file|]
            && (block < Last(j) ==> p + j.size == Before(j, block))
  {
    LastIsShort(j, block);
    AboutBefore(j, block);
    assert (block - 1) * j.size + j.size == block * j.size;
    if block > 1 {
      LastIsShort(j, block - 1);
    }
    MulMonotone(block - 1, |j.file| / j.size, j.size);
  }

  /** Reads the next block from the file and sends it. */
  method SendBlock(j: Job, ghost s: Server, block: nat, position: nat, env: seq<Arrival>, from: nat,
                   log0: seq<Action>, wire0: seq<Packet>)
    returns (r: Answer, next: nat, log: seq<Action>, wire: seq<Packet>, chunk: Bytes)
    requires Proper(j) && Sending(j, s, log0, 0) && s.block == block && 1 <= block <= Last(j)
    requires position == Before(j, block - 1) && wire0 == WireOf(j, log0)
    ensures chunk == Chunk(j, block) && Valid(j, First(j), log) && next > from
    ensures r == NoAnswer ==> Sending(j, s, log, RETRIES)
    ensures r == Aborted ==> After(j, First(j), log).phase == Failed
    ensures r == Acked && |chunk| < j.size ==> block == Last(j) && After(j, First(j), log).phase == Sent
    ensures r == Acked && |chunk| >= j.size ==>
              && block < Last(j) && position + |chunk| == Before(j, block)
              && After(j, First(j), log).block == block + 1 && Sending(j, After(j, First(j), log), log, 0)
    ensures r == Acked <==> Acks(At(env, next - 1), block)
    ensures Follows(env, from, next, log0, log) && wire == WireOf(j, log)
  {
    chunk := j.file[position..if position + j.size < |j.file| then position + j.size else |j.file|];
    ReadIsChunk(j, block);
    LastIsShort(j, block);
    var sends;
    r, next, log, wire, sends := SendWait(j, s, block, DataPacket(block % WRAP, chunk), env, from, log0, wire0);
  }

  /** Giving up after RETRIES sendings; an abort has failed already. */
  method Abandon(j: Job, ghost s: Server, r: Answer, log0: seq<Action>) returns (log: seq<Action>)
    requires Valid(j, First(j), log0)
    requires || (r == NoAnswer && Sending(j, s, log0, RETRIES))
             || (r == Aborted && After(j, First(j), log0).phase == Failed)
    ensures Valid(j, First(j), log) && After(j, First(j), log).phase == Failed
    ensures AcksOf(log) == AcksOf(log0) && WireOf(j, log) == WireOf(j, log0)
  {
    log := log0;
    if r == NoAnswer {
      AfterOne(j, First(j), log, GiveUp);
      AcksOfOne(log, GiveUp);
      WireOne(j, log, GiveUp);
      log := log + [GiveUp];
    }
  }

  predicate Between(places: seq<nat>, from: nat, next: nat) {
    forall k <- places :: from <= k < next
  }

  lemma OneMoreBlock(j: Job, blocks: seq<Bytes>, chunk: Bytes)
    requires FirstBlocks(j, blocks) && chunk == Chunk(j, |blocks| + 1)
    ensures FirstBlocks(j, blocks + [chunk])
  {
  }

  lemma OneMoreAck(env: seq<Arrival>, first: nat, places: seq<nat>, from: nat, before: nat, p: nat)
    requires AckedInOrder(env, first, places) && Acks(At(env, p), first + |places|)
    requires Between(places, from, before) && from <= before <= p
    ensures AckedInOrder(env, first, places + [p]) && Between(places + [p], from, p + 1)
  {
    var all := places + [p];
    forall k | 0 <= k < |all|
      ensures Acks(At(env, all[k]), first + k)
    {
      if k < |places| {
        assert Acks(At(env, places[k]), first + k);
      }
    }
    forall k | 0 < k < |all|
      ensures all[k - 1] < all[k]
    {
      if k == |places| {
        assert places[k - 1] in places;
      }
    }
  }

  /** The blocks of the file, one after the other, until one is short. */
  method SendBlocks(j: Job, ghost s0: Server, env: seq<Arrival>, from: nat, log0: seq<Action>, wire0: seq<Packet>)
    returns (sent: bool, next: nat, log: seq<Action>, wire: seq<Packet>, blocks: seq<Bytes>, ghost places: seq<nat>)
    requires Proper(j) && Sending(j, s0, log0, 0) && s0.block == 1 && wire0 == WireOf(j, log0)
    ensures Valid(j, First(j), log) && next >= from
    ensures After(j, First(j), log).phase == if sent then Sent else Failed
    ensures FirstBlocks(j, blocks) && |blocks| <= Last(j) && (sent ==> |blocks| == Last(j))
    ensures AckedInOrder(env, 1, places) && (sent ==> |places| == Last(j))
    ensures Between(places, from, next)
    ensures Follows(env, from, next, log0, log) && wire == WireOf(j, log)
  {
    next, log, wire, blocks, places := from, log0, wire0, [], [];
    var block, position := 1, 0;
    ghost var s := s0;
    while true
      invariant Sending(j, s, log, 0) && s.block == block && 1 <= block <= Last(j) && next >= from
      invariant position == Before(j, block - 1) && |blocks| == block - 1 && FirstBlocks(j, blocks)
      invariant AckedInOrder(env, 1, places) && |places| == block - 1 && Between(places, from, next)
      invariant Follows(env, from, next, log0, log) && wire == WireOf(j, log)
      decreases Last(j) - block
    {
      ghost var before, logged := next, log;
      var r, chunk;
      r, next, log, wire, chunk := SendBlock(j, s, block, position, env, next, log, wire);
      AcksJoin(env, from, before, next, log0, logged, log);
      OneMoreBlock(j, blocks, chunk);
      blocks := blocks + [chunk];
      if r != Acked {
        log := Abandon(j, s, r, log);
        return false, next, log, wire, blocks, places;
      }
      OneMoreAck(env, 1, places, from, before, next - 1);
      places := places + [next - 1];
      if |chunk| < j.size {
        return true, next, log, wire, blocks, places;
      }
      position := position + |chunk|;
      block := block + 1;
      s := After(j, First(j), log);
    }
  }

  /** The option acknowledgment, until the client ACKs block 0. */
  method SendOack(j: Job, env: seq<Arrival>)
    returns (acked: bool, next: nat, log: seq<Action>, wire: seq<Packet>)
    requires Proper(j) && j.oack
    ensures Valid(j, First(j), log) && next > 0
    ensures acked ==> Acks(At(env, next - 1), 0) && Sending(j, After(j, First(j), log), log, 0)
                      && After(j, First(j), log).block == 1
    ensures !acked ==> After(j, First(j), log).phase == Failed
    ensures Follows(env, 0, next, [], log) && wire == WireOf(j, log)
  {
    var r, sends;
    r, next, log, wire, sends := SendWait(j, First(j), 0, OackPacket, env, 0, [], []);
    acked := r == Acked;
    if !acked {
      log := Abandon(j, First(j), r, log);
    }
  }

  /** Main result: `serve_file` is a run of the machine whose ACKs are exactly the client's among the
      arrivals that it has taken, in order, and whose packets are those on the wire; it ends as
      sent only after the client's ACK of every block, each after the one before, of the option
      acknowledgment too if there is one. */
  method ServeFile(j: Job, env: seq<Arrival>)
    returns (sent: bool, next: nat, log: seq<Action>, wire: seq<Packet>, blocks: seq<Bytes>, ghost places: seq<nat>)
    requires Proper(j)
    ensures Valid(j, First(j), log)
    ensures After(j, First(j), log).phase == if sent then Sent else Failed
    ensures FirstBlocks(j, blocks) && |blocks| <= Last(j) && (sent ==> |blocks| == Last(j))
    ensures AcksOf(log) == AcksIn(env, 0, next) && wire == WireOf(j, log)
    ensures AckedInOrder(env, First(j).block, places) && Between(places, 0, next)
    ensures sent ==> |places| == Last(j) - First(j).block + 1
  {
    next, log, wire, blocks, places := 0, [], [], [], [];
    ghost var first: seq<nat> := [];
    if j.oack {
      var acked;
      acked, next, log, wire := SendOack(j, env);
      if !acked {
        return false, next, log, wire, blocks, places;
      }
      first := [next - 1];
    }
    ghost var before, logged := next, log;
    sent, next, log, wire, blocks, places := SendBlocks(j, After(j, First(j), log), env, next, log, wire);
    AcksJoin(env, 0, before, next, [], logged, log);
    FirstThen(env, First(j).block, first, places);
    places := first + places;
  }

  lemma FirstThen(env: seq<Arrival>, from: nat, first: seq<nat>, places: seq<nat>)
    requires from + |first| == 1 && AckedInOrder(env, from, first) && AckedInOrder(env, 1, places)
    requires forall k <- first, n <- places :: k < n
    ensures AckedInOrder(env, from, first + places)
  {
    if first == [] {
      assert first + places == places;
    } else {
      var all := [first[0]] + places;
      assert first + places == all;
      forall k | 0 <= k < |all|
        ensures Acks(At(env, all[k]), k)
      {
        if k > 0 {
          assert Acks(At(env, places[k - 1]), 1 + (k - 1));
        } else {
          assert Acks(At(env, first[0]), from + 0);
        }
      }
      forall k | 0 < k < |all|
        ensures all[k - 1] < all[k]
      {
        if k == 1 {
          assert first[0] in first && places[0] in places;
        } else {
          assert places[k - 2] < places[k - 1];
        }
      }
    }
  }

  // ---- the network -----------------------------------------------------------------------

  /** A packet in the network, with the block it really belongs to; on the wire its number is
      that modulo 2^16. */
  datatype Msg = Data(block: nat, bytes: Bytes) | Oack | Ack(block: nat)

  /** What the client holds: how many blocks it took, their bytes, and if a short one came. */
  datatype Client = Client(taken: nat, bytes: Bytes, done: bool)

  /** `wire` has every packet ever sent: any of them may arrive late, often, or never. */
  datatype Net = Net(server: Server, client: Client, wire: set<Msg>)

  datatype Event = Serve(a: Action) | ServerGets(m: Msg) | ClientGets(m: Msg) | ClientRepeats

  function Start(j: Job): Net {
    Net(First(j), Client(0, "", false), {})
  }

  function OnWire(block: nat): nat {
    block % WRAP
  }

  /** The packet that the server is sending. */
  function Outgoing(j: Job, s: Server): Msg {
    if s.block == 0 then Oack else Data(s.block, Chunk(j, s.block))
  }

  /** A packet can still arrive: the server is not 65535 or more blocks past it. */
  predicate Alive(n: Net, m: Msg) {
    m in n.wire && (m.Oack? || n.server.block < m.block + 65535)
  }

  /** A client of RFC 1350, section 2: the next block is taken and acknowledged, the last one
      acknowledged again, everything else dropped. It compares 16-bit numbers. */
  function Take(j: Job, c: Client, m: Msg): (Client, set<Msg>) {
    match m
    case Oack => (c, if c.taken == 0 then {Ack(0)} else {})
    case Ack(_) => (c, {})
    case Data(b, bytes) =>
      if OnWire(b) == OnWire(c.taken + 1) && !c.done
      then (Client(c.taken + 1, c.bytes + bytes, |bytes| < j.size), {Ack(c.taken + 1)})
      else (c, if OnWire(b) == OnWire(c.taken) && c.taken > 0 then {Ack(c.taken)} else {})
  }

  predicate Enabled(j: Job, n: Net, e: Event) {
    match e
    case Serve(a) => !a.GotAck? && CanDo(j, n.server, a)
    case ServerGets(m) => Alive(n, m) && m.Ack? && CanDo(j, n.server, GotAck(OnWire(m.block)))
    case ClientGets(m) => Alive(n, m) && !m.Ack?
    case ClientRepeats => n.client.taken > 0
  }

  function NetStep(j: Job, n: Net, e: Event): Net {
    match e
    case Serve(a) =>
      n.(server := Do(j, n.server, a), wire := if a == SendPacket then n.wire + {Outgoing(j, n.server)} else n.wire)
    case ServerGets(m) => if m.Ack? then n.(server := Do(j, n.server, GotAck(OnWire(m.block)))) else n
    case ClientGets(m) => var (c, out) := Take(j, n.client, m); n.(client := c, wire := n.wire + out)
    case ClientRepeats => n.(wire := n.wire + {Ack(n.client.taken)})
  }

  ghost predicate Run(j: Job, nets: seq<Net>, events: seq<Event>) {
    && |nets| == |events| + 1 && nets[0] == Start(j)
    && forall i | 0 <= i < |events| :: Enabled(j, nets[i], events[i]) && nets[i + 1] == NetStep(j, nets[i], events[i])
  }

  /** Lock step: the client is at the server's block or one behind, it holds exactly the bytes
      before, and the network carries nothing newer. */
  ghost predicate InStep(j: Job, n: Net)
    requires Proper(j)
  {
    var s, c := n.server, n.client;
    && s.block <= Last(j) && (s.phase == Sent ==> c.taken == Last(j))
    && c.taken <= s.block <= c.taken + 1
    && c.bytes == j.file[..Before(j, c.taken)] && (c.done <==> c.taken == Last(j))
    && (forall m <- n.wire | m.Data? :: 1 <= m.block <= s.block && m.bytes == Chunk(j, m.block))
    && (forall m <- n.wire | m.Ack? :: m.block <= c.taken)
  }

  /** Two numbers less than 2^16 apart that look the same on the wire are the same. */
  lemma SameOnWire(a: nat, b: nat)
    requires a <= b < a + WRAP && OnWire(a) == OnWire(b)
    ensures a == b
  {
  }

  lemma Extend(j: Job, k: nat)
    requires Proper(j) && k < Last(j)
    ensures j.file[..Before(j, k)] + Chunk(j, k + 1) == j.file[..Before(j, k + 1)]
  {
    AboutBefore(j, k + 1);
  }

  lemma ClientTakesNext(j: Job, n: Net, m: Msg)
    requires Proper(j) && InStep(j, n) && Alive(n, m) && m.Data?
    ensures OnWire(m.block) == OnWire(n.client.taken + 1) ==> m.block == n.client.taken + 1 && !n.client.done
  {
    if OnWire(m.block) == OnWire(n.client.taken + 1) {
      SameOnWire(m.block, n.client.taken + 1);
    }
  }

  lemma ServerTakesOwn(j: Job, n: Net, m: Msg)
    requires Proper(j) && InStep(j, n) && Alive(n, m) && m.Ack?
    ensures OnWire(m.block) == OnWire(n.server.block) ==> n.client.taken == n.server.block
  {
    if OnWire(m.block) == OnWire(n.server.block) {
      SameOnWire(m.block, n.server.block);
    }
  }

  lemma AckStaysInStep(j: Job, n: Net, m: Msg)
    requires Proper(j) && InStep(j, n) && Enabled(j, n, ServerGets(m))
    ensures InStep(j, NetStep(j, n, ServerGets(m)))
  {
    ServerTakesOwn(j, n, m);
    if n.server.block >= 1 {
      LastIsShort(j, n.server.block);
    }
  }

  lemma DataStaysInStep(j: Job, n: Net, m: Msg)
    requires Proper(j) && InStep(j, n) && Enabled(j, n, ClientGets(m)) && m.Data?
    ensures InStep(j, NetStep(j, n, ClientGets(m)))
  {
    ClientTakesNext(j, n, m);
    if m.block == n.client.taken + 1 {
      Extend(j, n.client.taken);
      LastIsShort(j, m.block);
    }
  }

  lemma StepStaysInStep(j: Job, n: Net, e: Event)
    requires Proper(j) && InStep(j, n) && Enabled(j, n, e)
    ensures InStep(j, NetStep(j, n, e))
  {
    match e
    case Serve(a) =>
    case ServerGets(m) => AckStaysInStep(j, n, m);
    case ClientGets(m) =>
      if m.Data? {
        DataStaysInStep(j, n, m);
      }
    case ClientRepeats =>
  }

  /** Main result. Whatever the network loses, repeats and reorders, the client always holds a
      prefix of the file, whole blocks, and is at most one block behind the server. */
  lemma {:induction false} AlwaysInStep(j: Job, nets: seq<Net>, events: seq<Event>, i: nat)
    requires Proper(j) && Run(j, nets, events) && i < |nets|
    ensures InStep(j, nets[i])
    ensures nets[i].client.bytes <= j.file
    ensures nets[i].client.taken <= nets[i].server.block <= nets[i].client.taken + 1
  {
    if i > 0 {
      AlwaysInStep(j, nets, events, i - 1);
      StepStaysInStep(j, nets[i - 1], events[i - 1]);
    }
  }

  /** Main result. When the server has reported the file as sent, the client holds it all, and
      knows it: its last block was the short one. */
  lemma SentMeansReceived(j: Job, nets: seq<Net>, events: seq<Event>, i: nat)
    requires Proper(j) && Run(j, nets, events) && i < |nets| && nets[i].server.phase == Sent
    ensures nets[i].client.bytes == j.file && nets[i].client.done && nets[i].client.taken == Last(j)
  {
    AlwaysInStep(j, nets, events, i);
    LastIsShort(j, Last(j));
  }

  // ---- the limit on a packet's life is sharp ---------------------------------------------

  lemma RunGrows(j: Job, nets: seq<Net>, events: seq<Event>, e: Event)
    returns (nets': seq<Net>, events': seq<Event>)
    requires Run(j, nets, events) && Enabled(j, nets[|events|], e)
    ensures nets' == nets + [NetStep(j, nets[|events|], e)] && events' == events + [e] && Run(j, nets', events')
  {
    nets', events' := nets + [NetStep(j, nets[|events|], e)], events + [e];
    forall i | 0 <= i < |events'|
      ensures Enabled(j, nets'[i], events'[i]) && nets'[i + 1] == NetStep(j, nets'[i], events'[i])
    {
      if i < |events| {
        assert Enabled(j, nets[i], events[i]) && nets[i + 1] == NetStep(j, nets[i], events[i]);
      }
    }
  }

  /** Block k is due, and the client has all before it. */
  ghost predicate Due(j: Job, n: Net, k: nat)
    requires Proper(j)
  {
    && InStep(j, n) && n.server.block == k && n.server.tries == 0 && n.server.phase == Active && n.client.taken == k - 1
    && forall b | 1 <= b < k :: Data(b, Chunk(j, b)) in n.wire
  }

  /** It has been sent and taken, but its ACK is on its way. */
  ghost predicate Taken(j: Job, n: Net, k: nat)
    requires Proper(j)
  {
    && InStep(j, n) && n.server.block == k && n.server.tries == 1 && n.server.phase == Active && n.client.taken == k
    && Ack(k) in n.wire && forall b | 1 <= b <= k :: Data(b, Chunk(j, b)) in n.wire
  }

  lemma SendOne(j: Job, n: Net, k: nat)
    requires Proper(j) && 1 <= k <= Last(j) && Due(j, n, k)
    ensures Enabled(j, n, Serve(SendPacket))
    ensures var s := NetStep(j, n, Serve(SendPacket));
            && InStep(j, s) && s.client == n.client && s.server == n.server.(tries := 1, sends := n.server.sends + 1)
            && forall b | 1 <= b <= k :: Data(b, Chunk(j, b)) in s.wire
  {
    StepStaysInStep(j, n, Serve(SendPacket));
  }

  lemma TakeOne(j: Job, n: Net, k: nat)
    requires Proper(j) && 1 <= k <= Last(j) && InStep(j, n) && n.server.block == k && n.client.taken == k - 1
    requires n.server.tries == 1 && n.server.phase == Active && forall b | 1 <= b <= k :: Data(b, Chunk(j, b)) in n.wire
    ensures Enabled(j, n, ClientGets(Data(k, Chunk(j, k))))
    ensures Taken(j, NetStep(j, n, ClientGets(Data(k, Chunk(j, k)))), k)
  {
    assert Data(k, Chunk(j, k)) in n.wire;
    StepStaysInStep(j, n, ClientGets(Data(k, Chunk(j, k))));
  }

  lemma AckOne(j: Job, n: Net, k: nat)
    requires Proper(j) && 1 <= k < Last(j) && Taken(j, n, k)
    ensures Enabled(j, n, ServerGets(Ack(k))) && Due(j, NetStep(j, n, ServerGets(Ack(k))), k + 1)
  {
    StepStaysInStep(j, n, ServerGets(Ack(k)));
    LastIsShort(j, k);
  }

  /** The transfer up to the first block. */
  lemma FirstIsDue(j: Job) returns (nets: seq<Net>, events: seq<Event>)
    requires Proper(j)
    ensures Run(j, nets, events) && Due(j, nets[|events|], 1)
  {
    nets, events := [Start(j)], [];
    assert Before(j, 0) == 0 && j.file[..0] == "";
    if j.oack {
      nets, events := RunGrows(j, nets, events, Serve(SendPacket));
      assert Oack in nets[1].wire;
      nets, events := RunGrows(j, nets, events, ClientGets(Oack));
      assert Ack(0) in nets[2].wire;
      nets, events := RunGrows(j, nets, events, ServerGets(Ack(0)));
      AlwaysInStep(j, nets, events, 3);
    } else {
      AlwaysInStep(j, nets, events, 0);
    }
  }

  /** One block after the other, nothing lost. */
  lemma {:induction false} Lockstep(j: Job, k: nat) returns (nets: seq<Net>, events: seq<Event>)
    requires Proper(j) && 1 <= k <= Last(j)
    ensures Run(j, nets, events) && Taken(j, nets[|events|], k)
  {
    if k == 1 {
      nets, events := FirstIsDue(j);
    } else {
      nets, events := Lockstep(j, k - 1);
      AckOne(j, nets[|events|], k - 1);
      nets, events := RunGrows(j, nets, events, ServerGets(Ack(k - 1)));
    }
    SendOne(j, nets[|events|], k);
    nets, events := RunGrows(j, nets, events, Serve(SendPacket));
    TakeOne(j, nets[|events|], k);
    nets, events := RunGrows(j, nets, events, ClientGets(Data(k, Chunk(j, k))));
  }

  lemma PrefixIff(file: Bytes, p: nat, size: nat, x: Bytes)
    requires p <= |file| && |x| == size
    ensures file[..p] + x <= file <==> x == file[p..if p + size < |file| then p + size else |file|]
  {
    if file[..p] + x <= file {
      assert file[..p + size] == file[..p] + x;
    }
  }

  lemma AboutChunk(j: Job, b: nat)
    requires Proper(j) && 1 <= b < Last(j)
    ensures |Chunk(j, b)| == j.size
  {
    LastIsShort(j, b);
    ReadIsChunk(j, b);
  }

  lemma TakenForNext(j: Job, n: Net, b: nat)
    requires Proper(j) && 1 <= b && b + 65535 < Last(j) && Taken(j, n, b + 65535)
    ensures var old_ := Data(b, Chunk(j, b));
            && old_ in n.wire && !Alive(n, old_) && Take(j, n.client, old_).0.taken == b + 65536
            && (Take(j, n.client, old_).0.bytes <= j.file <==> Chunk(j, b) == Chunk(j, b + 65536))
  {
    AboutChunk(j, b);
    ReadIsChunk(j, b + 65536);
    PrefixIff(j.file, Before(j, b + 65535), j.size, Chunk(j, b));
    assert OnWire(b) == OnWire(b + 65536);
  }

  /** Main result: the limit on a packet's life is sharp. For every file long enough there is a
      run - no packet of it lost, and none beyond the limit delivered - that ends with block b
      still in the network, 65535 blocks behind. It has the number of the block that the client
      waits for. If it arrives now it is taken, and what the client holds is then no longer a
      prefix of the file, unless the two blocks have the same bytes. */
  lemma OldBlockIsTaken(j: Job, b: nat) returns (nets: seq<Net>, events: seq<Event>)
    requires Proper(j) && 1 <= b && b + 65535 < Last(j)
    ensures Run(j, nets, events)
    ensures var n := nets[|events|];
            var old_ := Data(b, Chunk(j, b));
            && old_ in n.wire && n.server.block == n.client.taken == b + 65535 && !Alive(n, old_)
            && Take(j, n.client, old_).0.taken == b + 65536
            && (Take(j, n.client, old_).0.bytes <= j.file <==> Chunk(j, b) == Chunk(j, b + 65536))
  {
    nets, events := Lockstep(j, b + 65535);
    TakenForNext(j, nets[|events|], b);
  }
}
