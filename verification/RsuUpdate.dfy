/**
Remote system update (`Access.install_rsu`): a whole image, its U-Boot and its core into
slot P1, in an order that leaves something to boot wherever the power goes.
*/
module RsuUpdate {
  import opened Wrappers
  import opened CrashPlans
  import opened CoreFraming

  datatype Slot = P1 | Factory

  /** Flash partitions, the card's files, the files of /lib/firmware/rsu/<slot>, and a file
      on its way (`.new`). */
  datatype Item =
    | Image(slot: Slot) | Ssbl(slot: Slot) | CoreQspi(slot: Slot)
    | Priority(slot: Slot)        // the slot is bootable
    | CardUboot(slot: Slot) | CardCore(slot: Slot)
    | Installed(slot: Slot, name: string)
    | Staged(name: string)
    | NewFile(of: Item)

  type Board = map<Item, Bytes>

  /** What one build puts into a slot. */
  datatype Build = Build(app: Bytes, uboot: Bytes, core: Bytes, manifest: Bytes, rsuJson: Bytes)

  /** Partition sizes, as librsu lists them. */
  datatype Layout = Layout(image: nat, ssbl: nat, core: nat)

  predicate Fits(b: Build, l: Layout) {
    |b.app| <= l.image && |b.uboot| <= l.ssbl && |Frame(b.core)| <= l.core
  }

  function Blank(size: nat): Bytes {
    seq(size, _ => '\U{FF}')
  }

  /** An erased partition with data at its start. */
  function Programmed(data: Bytes, size: nat): Bytes {
    data + Blank(if |data| < size then size - |data| else 0)
  }

  function Programming(size: nat): Bytes -> Bytes {
    (data: Bytes) => Programmed(data, size)
  }

  function WriteFile(item: Item, data: Bytes): seq<Op<Item, Bytes>> {
    WriteVia(NewFile(item), item, data)
  }

  datatype Step =
    | Stage | EraseP1 | EraseSsbl | WriteSsbl | EraseCore | WriteCore | Card | Firmware | WriteP1 | VerifyP1

  /** What each step does to the board: the flash is programmed from the staged files. */
  function StepPlan(s: Step, b: Build, l: Layout): seq<Op<Item, Bytes>> {
    match s
    case Stage =>
      WriteFile(Staged("app.rpd"), b.app) + WriteFile(Staged("u-boot.itb"), b.uboot)
      + WriteFile(Staged("core.bin"), Frame(b.core))
    case EraseP1 => [Drop(Priority(P1)), Fill(Image(P1), Blank(l.image))]
    case EraseSsbl => [Fill(Ssbl(P1), Blank(l.ssbl))]
    case WriteSsbl => [Make(Staged("u-boot.itb"), Ssbl(P1), Programming(l.ssbl))]
    case EraseCore => [Fill(CoreQspi(P1), Blank(l.core))]
    case WriteCore => [Make(Staged("core.bin"), CoreQspi(P1), Programming(l.core))]
    case Card => WriteFile(CardUboot(P1), b.uboot) + WriteFile(CardCore(P1), b.core)
    case Firmware =>
      WriteFile(Installed(P1, "de25_nano.core.json"), b.manifest)
      + WriteFile(Installed(P1, "de25_nano.core.rbf"), b.core)
      + WriteFile(Installed(P1, "rsu.json"), b.rsuJson)
    case WriteP1 => [Make(Staged("app.rpd"), Image(P1), Programming(l.image)), Put(Priority(P1), "1")]
    case VerifyP1 => []
  }

  /** The steps in their order. */
  const ORDER: seq<Step> :=
    [Stage, EraseP1, EraseSsbl, WriteSsbl, EraseCore, WriteCore, Card, Firmware, WriteP1, VerifyP1]

  function PlanOf(steps: seq<Step>, b: Build, l: Layout): seq<Op<Item, Bytes>> {
    if steps == [] then [] else StepPlan(steps[0], b, l) + PlanOf(steps[1..], b, l)
  }

  function RsuPlan(b: Build, l: Layout): seq<Op<Item, Bytes>> {
    PlanOf(ORDER, b, l)
  }

  // ---- booting ---------------------------------------------------------------------------

  function BootSlot(f: Board): Slot {
    if Priority(P1) in f then P1 else Factory
  }

  /** The core in a partition, as its header says. */
  function CoreIn(partition: Bytes): Option<Bytes> {
    if |partition| < CORE_HEADER then None
    else match HeaderSize(partition[..CORE_HEADER])
      case None => None
      case Some(n) => if 0 < n <= |partition| - CORE_HEADER then Some(partition[CORE_HEADER..CORE_HEADER + n]) else None
  }

  /** What a boot takes: U-Boot and core from the card if it is there, else from QSPI. */
  function BootUboot(f: Board, card: bool): Option<Bytes> {
    var s := BootSlot(f);
    if card && CardUboot(s) in f then Some(f[CardUboot(s)])
    else if Ssbl(s) in f then Some(f[Ssbl(s)]) else None
  }

  function BootCore(f: Board, card: bool): Option<Bytes> {
    var s := BootSlot(f);
    if card && CardCore(s) in f then Some(f[CardCore(s)])
    else if CoreQspi(s) in f then CoreIn(f[CoreQspi(s)]) else None
  }

  /** The slot holds build `b`, in QSPI and - where the card has files for it - there too. */
  predicate SlotHolds(f: Board, s: Slot, b: Build, l: Layout) {
    && Fits(b, l) && b.core != "" && l.core < 0x1_0000_0000
    && Image(s) in f && f[Image(s)] == Programmed(b.app, l.image)
    && Ssbl(s) in f && f[Ssbl(s)] == Programmed(b.uboot, l.ssbl)
    && CoreQspi(s) in f && f[CoreQspi(s)] == Programmed(Frame(b.core), l.core)
    && (CardUboot(s) in f ==> f[CardUboot(s)] == b.uboot)
    && (CardCore(s) in f ==> f[CardCore(s)] == b.core)
  }

  /** A boot finds the image, the U-Boot (in its file or padded in its partition) and the core
      of one build. */
  predicate BootsBuild(f: Board, ubootCard: bool, coreCard: bool, b: Build, l: Layout) {
    var s := BootSlot(f);
    && Image(s) in f && f[Image(s)] == Programmed(b.app, l.image)
    && (BootUboot(f, ubootCard) == Some(b.uboot) || BootUboot(f, ubootCard) == Some(Programmed(b.uboot, l.ssbl)))
    && BootCore(f, coreCard) == Some(b.core)
  }

  lemma CoreInProgrammed(core: Bytes, size: nat)
    requires core != "" && |Frame(core)| <= size < 0x1_0000_0000
    ensures CoreIn(Programmed(Frame(core), size)) == Some(core)
  {
    var part := Programmed(Frame(core), size);
    var spt: Spt := map["CORE.P1" := (0, size)];
    var mtds := [Mtd(0, size, true, true)];
    assert "CORE.P1" == CorePartition("P1");
    assert part[..|Frame(core)|] == Frame(core) && |part| == size;
    assert part[0..0 + |Frame(core)|] == Frame(core);
    assert Holds(mtds[0], 0, size) && mtds[0] in mtds;
    FramedCoreReadsBack(spt, "P1", mtds, part, core);
    FlashIs(mtds, part, 0, CORE_HEADER);
    assert part[0..0 + CORE_HEADER] == part[..CORE_HEADER];
    FlashIs(mtds, part, CORE_HEADER, |core|);
  }

  lemma HeldSlotBoots(f: Board, ubootCard: bool, coreCard: bool, b: Build, l: Layout)
    requires SlotHolds(f, BootSlot(f), b, l)
    ensures BootsBuild(f, ubootCard, coreCard, b, l)
  {
    CoreInProgrammed(b.core, l.core);
  }

  // ---- plans step by step ----------------------------------------------------------------

  /** The board after the first `k` steps. */
  function Reached(k: nat, b: Build, l: Layout, start: Board): Board
    requires k <= |ORDER|
  {
    Exec(PlanOf(ORDER[..k], b, l), start)
  }

  lemma AllSteps(b: Build, l: Layout, start: Board)
    ensures Reached(10, b, l, start) == Exec(RsuPlan(b, l), start)
  {
    assert ORDER[..10] == ORDER;
  }

  lemma {:induction false} PlanConcat(s: seq<Step>, t: seq<Step>, b: Build, l: Layout)
    ensures PlanOf(s + t, b, l) == PlanOf(s, b, l) + PlanOf(t, b, l)
  {
    if s == [] {
      assert s + t == t;
    } else {
      assert (s + t)[1..] == s[1..] + t;
      PlanConcat(s[1..], t, b, l);
    }
  }

  lemma PlanOne(s: Step, b: Build, l: Layout)
    ensures PlanOf([s], b, l) == StepPlan(s, b, l)
  {
    assert [s][1..] == [];
  }

  lemma StepOf(k: nat, b: Build, l: Layout, start: Board)
    requires k < |ORDER|
    ensures Reached(k + 1, b, l, start)
         == Exec(StepPlan(ORDER[k], b, l), Reached(k, b, l, start))
  {
    assert ORDER[..k + 1] == ORDER[..k] + [ORDER[k]];
    PlanConcat(ORDER[..k], [ORDER[k]], b, l);
    PlanOne(ORDER[k], b, l);
    ExecConcat(PlanOf(ORDER[..k], b, l), StepPlan(ORDER[k], b, l), start);
  }

  lemma CutOfStep(k: nat, b: Build, l: Layout, start: Board, c: Board)
    requires k < |ORDER|
    requires Cut(StepPlan(ORDER[k], b, l), Reached(k, b, l, start), c)
    ensures Cut(RsuPlan(b, l), start, c)
  {
    var rest := ORDER[k + 1..];
    var f := Reached(k, b, l, start);
    assert ORDER == ORDER[..k] + ([ORDER[k]] + rest);
    PlanConcat(ORDER[..k], [ORDER[k]] + rest, b, l);
    PlanConcat([ORDER[k]], rest, b, l);
    PlanOne(ORDER[k], b, l);
    CutConcat(StepPlan(ORDER[k], b, l), PlanOf(rest, b, l), f, c);
    CutConcat(PlanOf(ORDER[..k], b, l), PlanOf([ORDER[k]] + rest, b, l), start, c);
  }

  /** The items a step can change. */
  function StepKeys(s: Step): set<Item> {
    match s
    case Stage =>
      {Staged("app.rpd"), Staged("u-boot.itb"), Staged("core.bin"),
       NewFile(Staged("app.rpd")), NewFile(Staged("u-boot.itb")), NewFile(Staged("core.bin"))}
    case EraseP1 => {Priority(P1), Image(P1)}
    case EraseSsbl => {Ssbl(P1)}
    case WriteSsbl => {Ssbl(P1)}
    case EraseCore => {CoreQspi(P1)}
    case WriteCore => {CoreQspi(P1)}
    case Card => {CardUboot(P1), CardCore(P1), NewFile(CardUboot(P1)), NewFile(CardCore(P1))}
    case Firmware =>
      {Installed(P1, "de25_nano.core.json"), Installed(P1, "de25_nano.core.rbf"), Installed(P1, "rsu.json"),
       NewFile(Installed(P1, "de25_nano.core.json")), NewFile(Installed(P1, "de25_nano.core.rbf")),
       NewFile(Installed(P1, "rsu.json"))}
    case WriteP1 => {Priority(P1), Image(P1)}
    case VerifyP1 => {}
  }

  lemma KeysOne(op: Op<Item, Bytes>)
    ensures AllKeys([op]) == Keys(op)
  {
    assert [op][1..] == [];
  }

  lemma WriteKeys(item: Item, data: Bytes)
    ensures AllKeys(WriteFile(item, data)) == {item, NewFile(item)}
  {
    var fill: Op<Item, Bytes> := Fill(NewFile(item), data);
    assert WriteFile(item, data)[1..] == [Move(NewFile(item), item)];
    KeysOne(Move(NewFile(item), item));
  }

  lemma WriteThreeKeys(i: Item, x: Bytes, j: Item, y: Bytes, k: Item, z: Bytes)
    ensures AllKeys(WriteFile(i, x) + WriteFile(j, y) + WriteFile(k, z))
         == {i, NewFile(i), j, NewFile(j), k, NewFile(k)}
  {
    WriteKeys(i, x);
    WriteKeys(j, y);
    WriteKeys(k, z);
    AllKeysConcat(WriteFile(i, x), WriteFile(j, y));
    AllKeysConcat(WriteFile(i, x) + WriteFile(j, y), WriteFile(k, z));
  }

  lemma StepKeysAre(s: Step, b: Build, l: Layout)
    ensures AllKeys(StepPlan(s, b, l)) == StepKeys(s)
  {
    var plan := StepPlan(s, b, l);
    match s
    case Stage =>
      WriteThreeKeys(Staged("app.rpd"), b.app, Staged("u-boot.itb"), b.uboot, Staged("core.bin"), Frame(b.core));
    case Firmware =>
      WriteThreeKeys(Installed(P1, "de25_nano.core.json"), b.manifest, Installed(P1, "de25_nano.core.rbf"), b.core,
                     Installed(P1, "rsu.json"), b.rsuJson);
    case Card =>
      WriteKeys(CardUboot(P1), b.uboot);
      WriteKeys(CardCore(P1), b.core);
      AllKeysConcat(WriteFile(CardUboot(P1), b.uboot), WriteFile(CardCore(P1), b.core));
    case VerifyP1 =>
    case EraseP1 => TwoKeys(plan[0], plan[1]);
    case WriteP1 => TwoKeys(plan[0], plan[1]);
    case _ => KeysOne(plan[0]);
  }

  lemma TwoKeys(a: Op<Item, Bytes>, b: Op<Item, Bytes>)
    ensures AllKeys([a, b]) == Keys(a) + Keys(b)
  {
    assert [a, b][1..] == [b];
    KeysOne(b);
  }

  /** The plan of some steps leaves an item alone that none of them changes. */
  lemma {:induction false} StepsKeep(steps: seq<Step>, b: Build, l: Layout, k: Item)
    requires forall s <- steps :: k !in StepKeys(s)
    ensures k !in AllKeys(PlanOf(steps, b, l))
  {
    if steps != [] {
      StepKeysAre(steps[0], b, l);
      StepsKeep(steps[1..], b, l, k);
      AllKeysConcat(StepPlan(steps[0], b, l), PlanOf(steps[1..], b, l));
    }
  }

  /** A step keeps every item it does not name. */
  lemma StepKeeps(k: nat, b: Build, l: Layout, start: Board, i: Item)
    requires k < |ORDER| && i !in StepKeys(ORDER[k])
    ensures SameAt(Reached(k + 1, b, l, start), Reached(k, b, l, start), i)
  {
    StepOf(k, b, l, start);
    StepKeysAre(ORDER[k], b, l);
    ExecKeeps(StepPlan(ORDER[k], b, l), Reached(k, b, l, start), i);
  }

  /** From the erase of P1 until its image is complete, P1 is not bootable. */
  lemma {:induction false} NotBootable(k: nat, b: Build, l: Layout, start: Board)
    requires 2 <= k <= 8
    ensures Priority(P1) !in Reached(k, b, l, start)
  {
    if k == 2 {
      StepOf(1, b, l, start);
      ExecTwo(Drop(Priority(P1)), Fill(Image(P1), Blank(l.image)), Reached(1, b, l, start));
    } else {
      NotBootable(k - 1, b, l, start);
      StepKeeps(k - 1, b, l, start, Priority(P1));
    }
  }

  lemma {:induction false} KeptUntil(j: nat, k: nat, b: Build, l: Layout, start: Board, i: Item)
    requires j <= k <= |ORDER| && forall n | j <= n < k :: i !in StepKeys(ORDER[n])
    ensures SameAt(Reached(k, b, l, start), Reached(j, b, l, start), i)
  {
    if j < k {
      KeptUntil(j, k - 1, b, l, start, i);
      StepKeeps(k - 1, b, l, start, i);
    }
  }

  /** Three files written one after the other. */
  lemma ThreeWritten(i: Item, x: Bytes, j: Item, y: Bytes, k: Item, z: Bytes, f: Board)
    requires i != j && j != k && i != k && !i.NewFile? && !j.NewFile? && !k.NewFile?
    ensures var c := Exec(WriteFile(i, x) + WriteFile(j, y) + WriteFile(k, z), f);
            Has(c, i, x) && Has(c, j, y) && Has(c, k, z)
  {
    var f1 := Exec(WriteFile(i, x), f);
    var f2 := Exec(WriteFile(j, y), f1);
    ExecConcat(WriteFile(i, x) + WriteFile(j, y), WriteFile(k, z), f);
    ExecConcat(WriteFile(i, x), WriteFile(j, y), f);
    WriteViaExec(NewFile(i), i, x, f);
    WriteViaExec(NewFile(j), j, y, f1);
    WriteViaExec(NewFile(k), k, z, f2);
  }

  predicate Has(f: Board, i: Item, data: Bytes) {
    i in f && f[i] == data
  }

  /** What was staged is there until the end. */
  lemma StagedAre(k: nat, b: Build, l: Layout, start: Board)
    requires 1 <= k <= |ORDER|
    ensures var f := Reached(k, b, l, start);
            && Has(f, Staged("app.rpd"), b.app) && Has(f, Staged("u-boot.itb"), b.uboot)
            && Has(f, Staged("core.bin"), Frame(b.core))
  {
    StagedFirst(b, l, start);
    StagedKept(k, b, l, start, "app.rpd");
    StagedKept(k, b, l, start, "u-boot.itb");
    StagedKept(k, b, l, start, "core.bin");
  }

  lemma StagedFirst(b: Build, l: Layout, start: Board)
    ensures var f := Reached(1, b, l, start);
            && Has(f, Staged("app.rpd"), b.app) && Has(f, Staged("u-boot.itb"), b.uboot)
            && Has(f, Staged("core.bin"), Frame(b.core))
  {
    StepOf(0, b, l, start);
    ThreeWritten(Staged("app.rpd"), b.app, Staged("u-boot.itb"), b.uboot, Staged("core.bin"), Frame(b.core),
                 Reached(0, b, l, start));
  }

  lemma StagedUntouched(n: nat, name: string)
    requires 1 <= n < |ORDER|
    ensures Staged(name) !in StepKeys(ORDER[n])
  {
  }

  lemma StagedKept(k: nat, b: Build, l: Layout, start: Board, name: string)
    requires 1 <= k <= |ORDER|
    ensures SameAt(Reached(k, b, l, start), Reached(1, b, l, start), Staged(name))
  {
    forall n | 1 <= n < k
      ensures Staged(name) !in StepKeys(ORDER[n])
    {
      StagedUntouched(n, name);
    }
    KeptUntil(1, k, b, l, start, Staged(name));
  }

  /** The files of /lib/firmware/rsu/P1 are the bundle's. */
  predicate InstalledAre(f: Board, b: Build) {
    && Has(f, Installed(P1, "de25_nano.core.json"), b.manifest)
    && Has(f, Installed(P1, "de25_nano.core.rbf"), b.core)
    && Has(f, Installed(P1, "rsu.json"), b.rsuJson)
  }

  lemma FirmwareWritten(b: Build, l: Layout, start: Board)
    ensures InstalledAre(Reached(10, b, l, start), b)
  {
    StepOf(7, b, l, start);
    ThreeWritten(Installed(P1, "de25_nano.core.json"), b.manifest, Installed(P1, "de25_nano.core.rbf"), b.core,
                 Installed(P1, "rsu.json"), b.rsuJson, Reached(7, b, l, start));
    InstalledKept(b, l, start, "de25_nano.core.json");
    InstalledKept(b, l, start, "de25_nano.core.rbf");
    InstalledKept(b, l, start, "rsu.json");
  }

  lemma InstalledKept(b: Build, l: Layout, start: Board, name: string)
    ensures SameAt(Reached(10, b, l, start), Reached(8, b, l, start), Installed(P1, name))
  {
    KeptUntil(8, 10, b, l, start, Installed(P1, name));
  }

  /** An update that was written: its files are installed, and the next boot - U-Boot and core each
      from the card or from QSPI - is of its build. */
  lemma UpdatedBoots(b: Build, l: Layout, start: Board)
    requires Fits(b, l)
    ensures var f := Exec(RsuPlan(b, l), start);
            && InstalledAre(f, b) && BootSlot(f) == P1
            && (b.core != "" && l.core < 0x1_0000_0000 ==>
                  forall ubootCard, coreCard :: BootsBuild(f, ubootCard, coreCard, b, l))
  {
    FirmwareWritten(b, l, start);
    P1Written(b, l, start);
    if b.core != "" && l.core < 0x1_0000_0000 {
      forall ubootCard, coreCard
        ensures BootsBuild(Exec(RsuPlan(b, l), start), ubootCard, coreCard, b, l)
      {
        HeldSlotBoots(Exec(RsuPlan(b, l), start), ubootCard, coreCard, b, l);
      }
    }
  }

  lemma CardWritten(b: Build, f: Board)
    ensures var c := Exec(WriteFile(CardUboot(P1), b.uboot) + WriteFile(CardCore(P1), b.core), f);
            CardUboot(P1) in c && c[CardUboot(P1)] == b.uboot && CardCore(P1) in c && c[CardCore(P1)] == b.core
  {
    ExecConcat(WriteFile(CardUboot(P1), b.uboot), WriteFile(CardCore(P1), b.core), f);
    WriteViaExec(NewFile(CardUboot(P1)), CardUboot(P1), b.uboot, f);
    WriteViaExec(NewFile(CardCore(P1)), CardCore(P1), b.core, Exec(WriteFile(CardUboot(P1), b.uboot), f));
  }

  lemma SsblWritten(b: Build, l: Layout, start: Board)
    ensures var f := Reached(9, b, l, start);
            Ssbl(P1) in f && f[Ssbl(P1)] == Programmed(b.uboot, l.ssbl)
  {
    StepOf(3, b, l, start);
    StagedAre(3, b, l, start);
    ExecOne(Make(Staged("u-boot.itb"), Ssbl(P1), Programming(l.ssbl)), Reached(3, b, l, start));
    KeptUntil(4, 9, b, l, start, Ssbl(P1));
  }

  lemma CoreWritten(b: Build, l: Layout, start: Board)
    ensures var f := Reached(9, b, l, start);
            CoreQspi(P1) in f && f[CoreQspi(P1)] == Programmed(Frame(b.core), l.core)
  {
    StepOf(5, b, l, start);
    StagedAre(5, b, l, start);
    ExecOne(Make(Staged("core.bin"), CoreQspi(P1), Programming(l.core)), Reached(5, b, l, start));
    KeptUntil(6, 9, b, l, start, CoreQspi(P1));
  }

  lemma CardFilesWritten(b: Build, l: Layout, start: Board)
    ensures var f := Reached(9, b, l, start);
            CardUboot(P1) in f && f[CardUboot(P1)] == b.uboot && CardCore(P1) in f && f[CardCore(P1)] == b.core
  {
    StepOf(6, b, l, start);
    CardWritten(b, Reached(6, b, l, start));
    KeptUntil(7, 9, b, l, start, CardUboot(P1));
    KeptUntil(7, 9, b, l, start, CardCore(P1));
  }

  /** With its image complete, P1 holds the build, and boots. */
  lemma P1Written(b: Build, l: Layout, start: Board)
    requires Fits(b, l)
    ensures var f := Reached(9, b, l, start);
            && Priority(P1) in f && f == Reached(10, b, l, start) == Exec(RsuPlan(b, l), start)
            && (b.core != "" && l.core < 0x1_0000_0000 ==> SlotHolds(f, P1, b, l))
  {
    SsblWritten(b, l, start);
    CoreWritten(b, l, start);
    CardFilesWritten(b, l, start);
    StepOf(8, b, l, start);
    StagedAre(8, b, l, start);
    ExecTwo(Make(Staged("app.rpd"), Image(P1), Programming(l.image)), Put(Priority(P1), "1"), Reached(8, b, l, start));
    StepOf(9, b, l, start);
    AllSteps(b, l, start);
  }

  /** A cut of the update is a cut of one of its steps. */
  lemma {:induction false} StepOfCut(k: nat, b: Build, l: Layout, start: Board, c: Board) returns (j: nat)
    requires k < |ORDER| && Cut(PlanOf(ORDER[k..], b, l), Reached(k, b, l, start), c)
    ensures k <= j < |ORDER| && Cut(StepPlan(ORDER[j], b, l), Reached(j, b, l, start), c)
    decreases |ORDER| - k
  {
    var f := Reached(k, b, l, start);
    assert ORDER[k..] == [ORDER[k]] + ORDER[k + 1..];
    PlanConcat([ORDER[k]], ORDER[k + 1..], b, l);
    PlanOne(ORDER[k], b, l);
    CutConcat(StepPlan(ORDER[k], b, l), PlanOf(ORDER[k + 1..], b, l), f, c);
    StepOf(k, b, l, start);
    ExecIsCut(StepPlan(ORDER[k], b, l), f);
    j := k;
    if !Cut(StepPlan(ORDER[k], b, l), f, c) {
      j := StepOfCut(k + 1, b, l, start, c);
    }
  }

  // ---- the update ------------------------------------------------------------------------

  /** Whether the factory image boots next, as the reply to every failed update says, when step k
      broke off at its operation n: not if staging failed with a bootable P1, not if the erase
      of P1 failed before it had made it unbootable, and not if only its verification failed. */
  predicate FactoryNext(k: nat, n: nat, start: Board) {
    k < 9 && (k >= 2 || (k == 1 && n == 1) || Priority(P1) !in start)
  }

  /** What a step that broke off leaves: a cut of the plan, and the next boot. */
  ghost predicate BrokeOff(k: nat, n: nat, b: Build, l: Layout, start: Board, f: Board) {
    && Cut(RsuPlan(b, l), start, f)
    && (BootSlot(f) == Factory <==> FactoryNext(k, n, start))
    && (k == 9 ==> f == Exec(RsuPlan(b, l), start))
  }

  /** Staging leaves P1 as bootable as it was, the erase makes it unbootable. */
  lemma PriorityAt(k: nat, b: Build, l: Layout, start: Board)
    requires k < 9
    ensures Priority(P1) in Reached(k, b, l, start) <==> k < 2 && Priority(P1) in start
  {
    if k >= 2 {
      NotBootable(k, b, l, start);
    } else if k == 1 {
      StepKeeps(0, b, l, start, Priority(P1));
    }
  }

  /** A plan of two operations that breaks off. */
  lemma BrokenAtOne(plan: seq<Op<Item, Bytes>>, n: nat, junk: Bytes, g: Board)
    requires |plan| == 2 && n < 2
    ensures n == 1 ==> Exec(plan[..1], g) == Apply(plan[0], g)
    ensures n == 0 ==> Exec(plan[..0], g) == g
  {
    assert plan[..1] == [plan[0]] && plan[..0] == [];
    ExecOne(plan[0], g);
  }

  /** Main result. A step that breaks off before the verification leaves the factory image to boot
      exactly if P1 was not bootable at the start, or has been made unbootable by then. */
  lemma BrokenBoots(k: nat, b: Build, l: Layout, start: Board, n: nat, junk: Bytes)
    requires k < 9 && n < |StepPlan(ORDER[k], b, l)|
    ensures BootSlot(Broken(StepPlan(ORDER[k], b, l), n, junk, Reached(k, b, l, start))) == Factory
       <==> FactoryNext(k, n, start)
  {
    var plan := StepPlan(ORDER[k], b, l);
    var g := Reached(k, b, l, start);
    var f := Broken(plan, n, junk, g);
    BrokenIsCut(plan, n, junk, g);
    PriorityAt(k, b, l, start);
    if k == 1 || k == 8 {
      BrokenAtOne(plan, n, junk, g);
    } else {
      StepKeysAre(ORDER[k], b, l);
      CutKeeps(plan, g, f, Priority(P1));
    }
  }

  datatype Outcome = Written | Refused | Failed(at: Step) {
    predicate IsFailure() { !Written? }
    function PropagateFailure(): Outcome requires IsFailure() { this }
  }

  /** When a step breaks off: at which operation, and what it leaves there. */
  type Fate = Step -> Option<(nat, Bytes)>

  class Updater {
    const store: Store<Item, Bytes>

    constructor (files: Board)
      ensures fresh(store) && store.files == files
    {
      store := new Store(files);
    }

    /** One step of the update; `start` is the board before the first. */
    method Perform(k: nat, b: Build, l: Layout, fate: Fate, ghost start: Board) returns (r: Outcome)
      requires k < |ORDER| && Fits(b, l) && store.files == Reached(k, b, l, start)
      modifies store
      ensures r == Written || r == Failed(ORDER[k])
      ensures r == Written ==> store.files == Reached(k + 1, b, l, start)
      ensures r != Written ==> fate(ORDER[k]).Some? && BrokeOff(k, fate(ORDER[k]).value.0, b, l, start, store.files)
    {
      StepOf(k, b, l, start);
      if k == 9 {
        P1Written(b, l, start);
        ExecIsCut(StepPlan(VerifyP1, b, l), store.files);
        CutOfStep(k, b, l, start, store.files);
        return if fate(VerifyP1).None? then Written else Failed(VerifyP1);
      }
      var plan := StepPlan(ORDER[k], b, l);
      ghost var before := store.files;
      var ok := store.Call(plan, fate(ORDER[k]));
      if ok {
        return Written;
      }
      var (n, junk) := fate(ORDER[k]).value;
      BrokenIsCut(plan, n, junk, before);
      CutOfStep(k, b, l, start, store.files);
      BrokenBoots(k, b, l, start, n, junk);
      return Failed(ORDER[k]);
    }

    /** A bundle that passed its checks, into P1. Whatever fails, the board is a cut of the
        plan; and which image boots next is told by the step that failed. */
    method InstallRsu(bundle: Option<Build>, layout: Option<Layout>, fate: Fate) returns (r: Outcome)
      modifies store
      ensures r == Refused <==> bundle.None? || layout.None? || !Fits(bundle.value, layout.value)
      ensures r == Refused ==> store.files == old(store.files)
      ensures r == Written ==> store.files == Exec(RsuPlan(bundle.value, layout.value), old(store.files))
      ensures r == Written ==>
                var b, l := bundle.value, layout.value;
                && InstalledAre(store.files, b) && BootSlot(store.files) == P1
                && (b.core != "" && l.core < 0x1_0000_0000 ==>
                      forall ubootCard, coreCard :: BootsBuild(store.files, ubootCard, coreCard, b, l))
      ensures r.Failed? ==> exists k | 0 <= k < |ORDER| ::
                              && r.at == ORDER[k] && fate(ORDER[k]).Some?
                              && BrokeOff(k, fate(ORDER[k]).value.0, bundle.value, layout.value,
                                          old(store.files), store.files)
    {
      if bundle.None? || layout.None? || !Fits(bundle.value, layout.value) {
        return Refused;
      }
      var b, l := bundle.value, layout.value;
      ghost var start := store.files;
      :- Perform(0, b, l, fate, start);
      :- Perform(1, b, l, fate, start);
      :- Perform(2, b, l, fate, start);
      :- Perform(3, b, l, fate, start);
      :- Perform(4, b, l, fate, start);
      :- Perform(5, b, l, fate, start);
      :- Perform(6, b, l, fate, start);
      :- Perform(7, b, l, fate, start);
      :- Perform(8, b, l, fate, start);
      :- Perform(9, b, l, fate, start);
      AllSteps(b, l, start);
      UpdatedBoots(b, l, start);
      return Written;
    }
  }

  // ---- every run -------------------------------------------------------------------------

  /** If P1 is bootable it holds one build. */
  ghost predicate P1Whole(f: Board, l: Layout) {
    Priority(P1) in f ==> exists b: Build :: SlotHolds(f, P1, b, l)
  }

  predicate FactoryPart(i: Item) {
    (i.Image? || i.Ssbl? || i.CoreQspi? || i.Priority? || i.CardUboot? || i.CardCore?) && i.slot == Factory
  }

  ghost predicate FactoryUntouched(c: Board, f: Board) {
    forall i: Item | FactoryPart(i) :: SameAt(c, f, i)
  }

  /** A cut in the write of P1 or in its verification. */
  lemma LastStepsKeepWhole(k: nat, f: Board, b: Build, l: Layout, c: Board)
    requires 8 <= k <= 9 && Fits(b, l) && b.core != "" && l.core < 0x1_0000_0000
    requires Cut(StepPlan(ORDER[k], b, l), Reached(k, b, l, f), c)
    ensures P1Whole(c, l)
  {
    P1Written(b, l, f);
    if k == 8 {
      var g := Reached(8, b, l, f);
      NotBootable(8, b, l, f);
      CutTwo(Make(Staged("app.rpd"), Image(P1), Programming(l.image)), Put(Priority(P1), "1"), g, c);
      ExecTwo(Make(Staged("app.rpd"), Image(P1), Programming(l.image)), Put(Priority(P1), "1"), g);
      StepOf(8, b, l, f);
    }
  }

  /** Wherever an update is cut, P1 stays whole or unbootable. */
  lemma CutKeepsWhole(f: Board, b: Build, l: Layout, c: Board)
    requires P1Whole(f, l) && Fits(b, l) && b.core != "" && l.core < 0x1_0000_0000
    requires Cut(RsuPlan(b, l), f, c)
    ensures P1Whole(c, l)
  {
    assert ORDER[0..] == ORDER;
    var k := StepOfCut(0, b, l, f, c);
    var g := Reached(k, b, l, f);
    var plan := StepPlan(ORDER[k], b, l);
    StepKeysAre(ORDER[k], b, l);
    if k == 0 {
      StageKeeps(f, b, l, c);
    } else if k == 1 {
      CutTwo(Drop(Priority(P1)), Fill(Image(P1), Blank(l.image)), g, c);
      StageKeepsAfter(f, b, l);
    } else if k <= 7 {
      NotBootable(k, b, l, f);
      CutKeeps(plan, g, c, Priority(P1));
    } else {
      LastStepsKeepWhole(k, f, b, l, c);
    }
  }

  /** Staging touches no part that boots. */
  lemma StageKeeps(f: Board, b: Build, l: Layout, c: Board)
    requires P1Whole(f, l) && Cut(StepPlan(Stage, b, l), f, c)
    ensures P1Whole(c, l)
  {
    StepKeysAre(Stage, b, l);
    var plan := StepPlan(Stage, b, l);
    CutKeeps(plan, f, c, Priority(P1));
    CutKeeps(plan, f, c, Image(P1));
    CutKeeps(plan, f, c, Ssbl(P1));
    CutKeeps(plan, f, c, CoreQspi(P1));
    CutKeeps(plan, f, c, CardUboot(P1));
    CutKeeps(plan, f, c, CardCore(P1));
    if Priority(P1) in f {
      var held: Build :| SlotHolds(f, P1, held, l);
      assert SlotHolds(c, P1, held, l);
    }
  }

  lemma StageKeepsAfter(f: Board, b: Build, l: Layout)
    requires P1Whole(f, l)
    ensures P1Whole(Reached(1, b, l, f), l)
  {
    StepOf(0, b, l, f);
    ExecIsCut(StepPlan(Stage, b, l), f);
    StageKeeps(f, b, l, Reached(1, b, l, f));
  }

  lemma FactoryKept(f: Board, b: Build, l: Layout, c: Board)
    requires Cut(RsuPlan(b, l), f, c)
    ensures FactoryUntouched(c, f)
  {
    forall i: Item | FactoryPart(i)
      ensures SameAt(c, f, i)
    {
      StepsKeep(ORDER, b, l, i);
      CutKeeps(RsuPlan(b, l), f, c, i);
    }
  }

  /** A run: updates one after the other, each cut anywhere or complete. */
  ghost predicate Run(boards: seq<Board>, builds: seq<Build>, l: Layout) {
    && |boards| == |builds| + 1 && l.core < 0x1_0000_0000
    && forall i | 0 <= i < |builds| ::
         Fits(builds[i], l) && builds[i].core != "" && Cut(RsuPlan(builds[i], l), boards[i], boards[i + 1])
  }

  lemma {:induction false} RunKeeps(boards: seq<Board>, builds: seq<Build>, l: Layout, i: nat)
    requires Run(boards, builds, l) && i < |boards| && P1Whole(boards[0], l)
    ensures P1Whole(boards[i], l) && FactoryUntouched(boards[i], boards[0])
  {
    if i > 0 {
      RunKeeps(boards, builds, l, i - 1);
      CutKeepsWhole(boards[i - 1], builds[i - 1], l, boards[i]);
      FactoryKept(boards[i - 1], builds[i - 1], l, boards[i]);
      forall p: Item | FactoryPart(p)
        ensures SameAt(boards[i], boards[0], p)
      {
        assert SameAt(boards[i], boards[i - 1], p) && SameAt(boards[i - 1], boards[0], p);
      }
    }
  }

  /** Main result. After any number of updates, each cut by a power loss at any step or not,
      a boot finds the image, U-Boot and core of one build, from the card or from QSPI; and a
      boot of the factory image finds what was there at the start. */
  lemma EveryBootWhole(boards: seq<Board>, builds: seq<Build>, l: Layout, factory: Build, i: nat,
                       ubootCard: bool, coreCard: bool)
    requires Run(boards, builds, l) && i < |boards|
    requires P1Whole(boards[0], l) && SlotHolds(boards[0], Factory, factory, l)
    ensures exists b: Build :: BootsBuild(boards[i], ubootCard, coreCard, b, l)
    ensures BootSlot(boards[i]) == Factory ==> BootsBuild(boards[i], ubootCard, coreCard, factory, l)
    ensures FactoryUntouched(boards[i], boards[0])
  {
    var f := boards[i];
    RunKeeps(boards, builds, l, i);
    assert SameAt(f, boards[0], Image(Factory)) && SameAt(f, boards[0], Ssbl(Factory));
    assert SameAt(f, boards[0], CoreQspi(Factory));
    assert SameAt(f, boards[0], CardUboot(Factory)) && SameAt(f, boards[0], CardCore(Factory));
    assert SlotHolds(f, Factory, factory, l);
    if BootSlot(f) == Factory {
      HeldSlotBoots(f, ubootCard, coreCard, factory, l);
    } else {
      var b: Build :| SlotHolds(f, P1, b, l);
      HeldSlotBoots(f, ubootCard, coreCard, b, l);
    }
  }
}
