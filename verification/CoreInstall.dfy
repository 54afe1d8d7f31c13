/**
Installing an FPGA core (`Access.install_core`, its rollback, and `_recover_install`): the
`.prev` / pending protocol on the files of /lib/firmware and the card's copy, with a power
cut possible at every step.
*/
module CoreInstall {
  import opened Wrappers
  import opened CrashPlans

  type Bytes = string

  datatype Name = CoreFile | ManifestFile | PendingFile | CardCore

  datatype Part = Now | Prev | New

  datatype Path = Path(name: Name, part: Part)

  datatype Manifest = Manifest(coreSize: int, coreSha: string, buildId: int, periphery: Option<string>)

  /** A file: the bytes, or what `json.load` makes of a manifest. */
  datatype Blob = Raw(bytes: Bytes) | Json(manifest: Manifest)

  type Disk = map<Path, Blob>

  const CORE := Path(CoreFile, Now)
  const CORE_PREV := Path(CoreFile, Prev)
  const MAN := Path(ManifestFile, Now)
  const MAN_PREV := Path(ManifestFile, Prev)
  const PENDING := Path(PendingFile, Now)
  const CARD := Path(CardCore, Now)

  function Get(d: Disk, p: Path): Option<Blob> {
    if p in d then Some(d[p]) else None
  }

  /** The manifest describes exactly this core. */
  predicate Belongs(sha: Bytes -> string, man: Blob, core: Blob) {
    && man.Json? && core.Raw?
    && man.manifest.coreSize == |core.bytes|
    && man.manifest.coreSha == sha(core.bytes)
  }

  // ---- what is checked before anything is touched ---------------------------------------

  datatype Bundle = Bundle(core: Option<Bytes>, manifest: Option<Blob>)

  datatype Refusal =
    | MissingFile | BadManifest | Truncated | Corrupt
    | InstalledUnreadable | NoManifest | WrongPeriphery | LoaderNotReady

  datatype Request = Request(core: Bytes, man: Manifest)

  function CheckBundle(sha: Bytes -> string, b: Bundle): (r: Result<Request, Refusal>)
    ensures r.Ok? <==> b.core.Some? && b.manifest.Some? && b.manifest.value.Json?
                       && b.manifest.value.manifest.periphery.Some?
                       && Belongs(sha, b.manifest.value, Raw(b.core.value))
    ensures r.Ok? ==> b == Bundle(Some(r.value.core), Some(Json(r.value.man)))
  {
    if b.core.None? || b.manifest.None? then Err(MissingFile)
    else if b.manifest.value.Raw? || b.manifest.value.manifest.periphery.None? then Err(BadManifest)
    else
      var m := b.manifest.value.manifest;
      if |b.core.value| != m.coreSize then Err(Truncated)
      else if sha(b.core.value) != m.coreSha then Err(Corrupt)
      else Ok(Request(b.core.value, m))
  }

  /** The checks of `install_core`: without `force` only a core for the installed periphery. */
  function Admit(sha: Bytes -> string, d: Disk, b: Bundle, force: bool, ready: bool): (r: Result<Request, Refusal>)
    ensures r.Ok? <==>
              && CheckBundle(sha, b).Ok? && ready && (MAN in d ==> d[MAN].Json?)
              && (force || (MAN in d && b.manifest.value.manifest.periphery == d[MAN].manifest.periphery))
    ensures r.Ok? ==> b == Bundle(Some(r.value.core), Some(Json(r.value.man)))
                      && Belongs(sha, Json(r.value.man), Raw(r.value.core))
    ensures r == Err(LoaderNotReady) ==> !ready && CheckBundle(sha, b).Ok?
    ensures r == Err(WrongPeriphery) ==> !force && MAN in d && d[MAN].Json? && CheckBundle(sha, b).Ok?
    ensures r == Err(NoManifest) <==> !force && MAN !in d && CheckBundle(sha, b).Ok?
    ensures r == Err(InstalledUnreadable) <==> MAN in d && d[MAN].Raw? && CheckBundle(sha, b).Ok?
  {
    match CheckBundle(sha, b)
    case Err(e) => Err(e)
    case Ok(req) =>
      if MAN in d && d[MAN].Raw? then Err(InstalledUnreadable)
      else if MAN !in d && !force then Err(NoManifest)
      else if MAN in d && !force && req.man.periphery != d[MAN].manifest.periphery then Err(WrongPeriphery)
      else if !ready then Err(LoaderNotReady)
      else Ok(req)
  }

  // ---- what an install is for ------------------------------------------------------------

  /** `f` has the new core and manifest installed, no mark, and the core on the card if that was
      written; else the card is as in `d`. */
  predicate HasNew(core: Bytes, man: Blob, card: bool, d: Disk, f: Disk) {
    && Get(f, CORE) == Some(Raw(core)) && Get(f, MAN) == Some(man) && PENDING !in f
    && Get(f, CARD) == if card then Some(Raw(core)) else Get(d, CARD)
  }

  /** `f` has what `d` had, and no mark. */
  predicate AsBefore(d: Disk, f: Disk) {
    Get(f, CORE) == Get(d, CORE) && Get(f, MAN) == Get(d, MAN) && Get(f, CARD) == Get(d, CARD) && PENDING !in f
  }

  // ---- the protocol ----------------------------------------------------------------------

  /** The running core kept as .prev. */
  function KeepPlan(d: Disk): seq<Op<Path, Blob>> {
    if CORE !in d then []
    else [Copy(CORE, CORE_PREV)] + (
           if MAN in d then [Copy(MAN, MAN_PREV)]
           else if MAN_PREV in d then [Drop(MAN_PREV)]
           else [])
  }

  function Write(p: Path, b: Blob): seq<Op<Path, Blob>> {
    WriteVia(p.(part := New), p, b)
  }

  /** The pending mark, then the new manifest and core. */
  function SwapPlan(req: Request, mark: Blob): seq<Op<Path, Blob>> {
    Write(PENDING, mark) + Write(MAN, Json(req.man)) + Write(CORE, Raw(req.core))
  }

  /** The .prev files back in place. */
  function RestorePlan(d: Disk): seq<Op<Path, Blob>> {
    if CORE_PREV !in d then []
    else [Move(CORE_PREV, CORE), if MAN_PREV in d then Move(MAN_PREV, MAN) else Drop(MAN)]
  }

  function BeforeLoad(d: Disk, req: Request, mark: Blob): seq<Op<Path, Blob>> {
    KeepPlan(d) + SwapPlan(req, mark)
  }

  /** After the load: a core that passed goes to the card too (if that can be written), a
      core that failed is rolled back. `d` is the disk at the load. */
  function AfterLoad(d: Disk, req: Request, passed: bool, cardWritten: bool): seq<Op<Path, Blob>> {
    if !passed then RestorePlan(d) + [Drop(PENDING)]
    else [Drop(PENDING)] + (if cardWritten then Write(CARD, Raw(req.core)) else [])
  }

  /** What a restart does: only a pending mark makes it restore. */
  function RecoverPlan(d: Disk): seq<Op<Path, Blob>> {
    if PENDING in d then RestorePlan(d) + [Drop(PENDING)] else []
  }

  function Recovered(d: Disk): Disk {
    Exec(RecoverPlan(d), d)
  }

  datatype Reply = Refused(why: Refusal) | Failed(rolledBack: bool) | Installed(card: bool)

  /** The part of `Access` that handles the core files. A load's outcome is the board's: each
      method is told what `_load` and the card answered. */
  class Firmware {
    const sha: Bytes -> string
    const store: Store<Path, Blob>

    constructor (sha: Bytes -> string, files: Disk)
      ensures fresh(store) && store.files == files && this.sha == sha
    {
      this.sha := sha;
      this.store := new Store(files);
    }

    method WriteFile(p: Path, data: Blob)
      requires p.part != New
      modifies store
      ensures store.files == Exec(Write(p, data), old(store.files))
      ensures store.journal == old(store.journal) + Write(p, data)
    {
      WriteViaExec(p.(part := New), p, data, store.files);
      store.Do(Fill(p.(part := New), data));
      store.Do(Move(p.(part := New), p));
    }

    /** The previous core back, if there is one. */
    method Restore() returns (restored: bool)
      modifies store
      ensures restored == (CORE_PREV in old(store.files))
      ensures store.files == Exec(RestorePlan(old(store.files)), old(store.files))
      ensures store.journal == old(store.journal) + RestorePlan(old(store.files))
      ensures restored ==> Get(store.files, CORE) == Get(old(store.files), CORE_PREV)
                           && Get(store.files, MAN) == Get(old(store.files), MAN_PREV)
      ensures !restored ==> store.files == old(store.files)
    {
      RestoredIs(store.files);
      restored := CORE_PREV in store.files;
      if restored {
        var second := if MAN_PREV in store.files then Move(MAN_PREV, MAN) else Drop(MAN);
        ExecTwo(Move(CORE_PREV, CORE), second, store.files);
        store.Do(Move(CORE_PREV, CORE));
        store.Do(second);
      }
    }

    method RecoverInstall()
      modifies store
      ensures store.files == Recovered(old(store.files))
      ensures store.journal == old(store.journal) + RecoverPlan(old(store.files))
      ensures PENDING !in store.files && Get(store.files, CARD) == Get(old(store.files), CARD)
      ensures if PENDING in old(store.files) && CORE_PREV in old(store.files)
              then Get(store.files, CORE) == Get(old(store.files), CORE_PREV)
                   && Get(store.files, MAN) == Get(old(store.files), MAN_PREV)
              else Get(store.files, CORE) == Get(old(store.files), CORE)
                   && Get(store.files, MAN) == Get(old(store.files), MAN)
    {
      RecoveredHas(store.files);
      if PENDING !in store.files {
        return;
      }
      ghost var plan := RestorePlan(store.files);
      ExecConcat(plan, [Drop(PENDING)], store.files);
      ExecOne(Drop(PENDING), Restored(store.files));
      var _ := Restore();
      ClearPending();
    }

    method ClearPending()
      modifies store
      ensures store.files == old(store.files) - {PENDING}
      ensures store.journal == old(store.journal) + [Drop(PENDING)]
    {
      store.Do(Drop(PENDING));
    }

    /** The running core kept as .prev. */
    method KeepPrevious()
      modifies store
      ensures store.files == Exec(KeepPlan(old(store.files)), old(store.files))
      ensures store.journal == old(store.journal) + KeepPlan(old(store.files))
      ensures CORE in old(store.files) ==> Kept(old(store.files), store.files)
    {
      KeptWhenDone(store.files);
      if CORE in store.files {
        ghost var d := store.files;
        store.Do(Copy(CORE, CORE_PREV));
        if MAN in store.files {
          ExecTwo(Copy(CORE, CORE_PREV), Copy(MAN, MAN_PREV), d);
          store.Do(Copy(MAN, MAN_PREV));
        } else if MAN_PREV in store.files {
          ExecTwo(Copy(CORE, CORE_PREV), Drop(MAN_PREV), d);
          store.Do(Drop(MAN_PREV));
        } else {
          ExecOne(Copy(CORE, CORE_PREV), d);
        }
      }
    }

    /** The pending mark, then the new manifest and core in their place. */
    method SwapIn(req: Request, mark: Blob)
      modifies store
      ensures store.files == Exec(SwapPlan(req, mark), old(store.files))
      ensures store.journal == old(store.journal) + SwapPlan(req, mark)
      ensures Get(store.files, PENDING) == Some(mark)
      ensures Get(store.files, MAN) == Some(Json(req.man)) && Get(store.files, CORE) == Some(Raw(req.core))
    {
      SwapExec(store.files, req, mark);
      SwapExecSteps(store.files, req, mark);
      WriteFile(PENDING, mark);
      WriteFile(MAN, Json(req.man));
      WriteFile(CORE, Raw(req.core));
    }

    /** What follows the load, which `passed` or failed. */
    method Conclude(req: Request, passed: bool, rollbackPassed: bool, cardWritten: bool) returns (reply: Reply)
      modifies store
      ensures store.files == Exec(AfterLoad(old(store.files), req, passed, cardWritten), old(store.files))
      ensures store.journal == old(store.journal) + AfterLoad(old(store.files), req, passed, cardWritten)
      ensures reply == if passed then Installed(cardWritten)
                       else Failed(CORE_PREV in old(store.files) && rollbackPassed)
    {
      ghost var d := store.files;
      ExecOne(Drop(PENDING), d);
      ExecOne(Drop(PENDING), Exec(RestorePlan(d), d));
      if !passed {
        ExecConcat(RestorePlan(d), [Drop(PENDING)], d);
        var restored := Restore();
        ClearPending();
        return Failed(restored && rollbackPassed);
      }
      ClearPending();
      if cardWritten {
        ExecConcat([Drop(PENDING)], Write(CARD, Raw(req.core)), d);
        WriteFile(CARD, Raw(req.core));
      }
      return Installed(cardWritten);
    }

    /** An admitted bundle, from the .prev copies to the reply. */
    method Install(req: Request, mark: Blob, passed: bool, rollbackPassed: bool, cardWritten: bool)
      returns (reply: Reply)
      modifies store
      ensures var d := old(store.files);
              var loaded := Exec(BeforeLoad(d, req, mark), d);
              && store.files == Exec(AfterLoad(loaded, req, passed, cardWritten), loaded)
              && store.journal == old(store.journal) + BeforeLoad(d, req, mark) +
                                  AfterLoad(loaded, req, passed, cardWritten)
              && reply == if passed then Installed(cardWritten)
                          else Failed(CORE_PREV in loaded && rollbackPassed)
      ensures reply.Installed? ==> HasNew(req.core, Json(req.man), reply.card, old(store.files), store.files)
      ensures reply.Failed? && CORE in old(store.files) ==> AsBefore(old(store.files), store.files)
    {
      ghost var d := store.files;
      Outcome(d, req, mark, passed, cardWritten);
      ExecConcat(KeepPlan(d), SwapPlan(req, mark), d);
      KeepPrevious();
      SwapIn(req, mark);
      reply := Conclude(req, passed, rollbackPassed, cardWritten);
    }

    method InstallCore(b: Bundle, force: bool, ready: bool, mark: Blob,
                       passed: bool, rollbackPassed: bool, cardWritten: bool)
      returns (reply: Reply)
      modifies store
      ensures var d := old(store.files);
              match Admit(sha, d, b, force, ready)
              case Err(e) => reply == Refused(e) && store.files == d && store.journal == old(store.journal)
              case Ok(req) =>
                var loaded := Exec(BeforeLoad(d, req, mark), d);
                && store.files == Exec(AfterLoad(loaded, req, passed, cardWritten), loaded)
                && store.journal == old(store.journal) + BeforeLoad(d, req, mark) +
                                    AfterLoad(loaded, req, passed, cardWritten)
                && reply == if passed then Installed(cardWritten)
                            else Failed(CORE_PREV in loaded && rollbackPassed)
      ensures reply.Installed? ==>
                b.core.Some? && b.manifest.Some?
                && HasNew(b.core.value, b.manifest.value, reply.card, old(store.files), store.files)
      ensures reply.Failed? && CORE in old(store.files) ==> AsBefore(old(store.files), store.files)
    {
      var admitted := Admit(sha, store.files, b, force, ready);
      if admitted.Err? {
        return Refused(admitted.error);
      }
      reply := Install(admitted.value, mark, passed, rollbackPassed, cardWritten);
    }
  }

  lemma SwapExecSteps(d: Disk, req: Request, mark: Blob)
    ensures Exec(SwapPlan(req, mark), d)
         == Exec(Write(CORE, Raw(req.core)), Exec(Write(MAN, Json(req.man)), Exec(Write(PENDING, mark), d)))
  {
    var p, m, c := Write(PENDING, mark), Write(MAN, Json(req.man)), Write(CORE, Raw(req.core));
    ExecConcat(p + m, c, d);
    ExecConcat(p, m, d);
  }

  // ---- what a power cut can leave --------------------------------------------------------

  /** Nothing but the .prev files is touched before the pending mark. */
  lemma KeepCut(d: Disk, c: Disk)
    requires CORE in d && Cut(KeepPlan(d), d, c)
    ensures forall p <- [CORE, MAN, PENDING, CARD] :: Get(c, p) == Get(d, p)
  {
    var copy: Op<Path, Blob> := Copy(CORE, CORE_PREV);
    CutOne(copy, d, c);
    CutTwo(copy, Copy(MAN, MAN_PREV), d, c);
    CutTwo(copy, Drop(MAN_PREV), d, c);
  }

  lemma KeepExec(d: Disk)
    requires CORE in d
    ensures var k := Exec(KeepPlan(d), d);
            && Get(k, CORE_PREV) == Get(d, CORE) && Get(k, MAN_PREV) == Get(d, MAN)
            && (forall p <- [CORE, MAN, PENDING, CARD] :: Get(k, p) == Get(d, p))
  {
    var copy: Op<Path, Blob> := Copy(CORE, CORE_PREV);
    ExecOne(copy, d);
    ExecTwo(copy, Copy(MAN, MAN_PREV), d);
    ExecTwo(copy, Drop(MAN_PREV), d);
  }

  /** From the pending mark on the .prev files stay as they are. */
  lemma SwapCut(k: Disk, req: Request, mark: Blob, c: Disk)
    requires Cut(SwapPlan(req, mark), k, c)
    ensures forall p <- [CORE_PREV, MAN_PREV, CARD] :: Get(c, p) == Get(k, p)
    ensures PENDING !in c ==> Get(c, CORE) == Get(k, CORE) && Get(c, MAN) == Get(k, MAN)
  {
    var p, m, w := Write(PENDING, mark), Write(MAN, Json(req.man)), Write(CORE, Raw(req.core));
    var k1 := Exec(p, k);
    var k2 := Exec(m, k1);
    CutConcat(p + m, w, k, c);
    CutConcat(p, m, k, c);
    ExecConcat(p, m, k);
    WriteExec(PENDING, mark, k);
    WriteExec(MAN, Json(req.man), k1);
    if Cut(p, k, c) {
      WriteCut(PENDING, mark, k, c);
    } else if Cut(m, k1, c) {
      WriteCut(MAN, Json(req.man), k1, c);
    } else {
      WriteCut(CORE, Raw(req.core), k2, c);
    }
  }

  /** A cut write touches only its path and its .new file. */
  lemma WriteCut(path: Path, data: Blob, d: Disk, c: Disk)
    requires path.part != New && Cut(Write(path, data), d, c)
    ensures forall p: Path | p.part != New && p != path :: Get(c, p) == Get(d, p)
    ensures Get(c, path) == Get(d, path) || Get(c, path) == Some(data)
  {
    var tmp := path.(part := New);
    WriteViaCut(tmp, path, data, d, c);
    forall p: Path | p.part != New
      ensures p != path ==> Get(c, p) == Get(d, p)
      ensures p == path ==> Get(c, p) == Get(d, p) || Get(c, p) == Some(data)
    {
      assert Get(c, p) == Get(c - {tmp}, p) && Get(d, p) == Get(d - {tmp}, p);
    }
  }

  lemma WriteExec(path: Path, data: Blob, d: Disk)
    requires path.part != New
    ensures var r := Exec(Write(path, data), d);
            Get(r, path) == Some(data) && forall p: Path | p.part != New && p != path :: Get(r, p) == Get(d, p)
  {
    WriteViaExec(path.(part := New), path, data, d);
  }

  lemma SwapExec(k: Disk, req: Request, mark: Blob)
    ensures var l := Exec(SwapPlan(req, mark), k);
            && Get(l, PENDING) == Some(mark)
            && Get(l, MAN) == Some(Json(req.man)) && Get(l, CORE) == Some(Raw(req.core))
            && (forall p <- [CORE_PREV, MAN_PREV, CARD] :: Get(l, p) == Get(k, p))
  {
    SwapExecSteps(k, req, mark);
    var k1 := Exec(Write(PENDING, mark), k);
    WriteExec(PENDING, mark, k);
    WriteExec(MAN, Json(req.man), k1);
    WriteExec(CORE, Raw(req.core), Exec(Write(MAN, Json(req.man)), k1));
  }

  /** The one place where the manifest and the core part: the first of the two renames done,
      the second not. `s` is the disk at which the restore began. */
  ghost predicate BetweenRenames(s: Disk, c: Disk) {
    CORE_PREV in s && c == Apply(Move(CORE_PREV, CORE), s)
  }

  function Restored(s: Disk): Disk {
    Exec(RestorePlan(s), s)
  }

  /** The second operation of a restore. */
  function Second(s: Disk): Op<Path, Blob> {
    if MAN_PREV in s then Move(MAN_PREV, MAN) else Drop(MAN)
  }

  lemma RestoreCut(s: Disk, c: Disk)
    requires PENDING in s && Cut(RestorePlan(s) + [Drop(PENDING)], s, c)
    ensures c == s || BetweenRenames(s, c) || c == Restored(s) || c == Restored(s) - {PENDING}
  {
    CutConcat(RestorePlan(s), [Drop(PENDING)], s, c);
    CutOne(Drop(PENDING), Restored(s), c);
    CutTwo(Move(CORE_PREV, CORE), Second(s), s, c);
    ExecTwo(Move(CORE_PREV, CORE), Second(s), s);
  }

  lemma RestoredIs(s: Disk)
    ensures CORE_PREV !in s ==> Restored(s) == s
    ensures CORE_PREV in s ==>
              && Get(Restored(s), CORE) == Get(s, CORE_PREV) && CORE_PREV !in Restored(s)
              && Get(Restored(s), MAN) == Get(s, MAN_PREV) && MAN_PREV !in Restored(s)
    ensures forall p <- [PENDING, CARD] :: Get(Restored(s), p) == Get(s, p)
  {
    ExecTwo(Move(CORE_PREV, CORE), Second(s), s);
  }

  lemma RecoveredIs(d: Disk)
    ensures Recovered(d) == if PENDING in d then Restored(d) - {PENDING} else d
  {
    if PENDING in d {
      ExecConcat(RestorePlan(d), [Drop(PENDING)], d);
      ExecOne(Drop(PENDING), Restored(d));
    }
  }

  lemma RecoveredHas(d: Disk)
    ensures var r := Recovered(d);
            && PENDING !in r && Get(r, CARD) == Get(d, CARD)
            && (if PENDING in d && CORE_PREV in d
                then Get(r, CORE) == Get(d, CORE_PREV) && Get(r, MAN) == Get(d, MAN_PREV)
                else Get(r, CORE) == Get(d, CORE) && Get(r, MAN) == Get(d, MAN))
  {
    RecoveredIs(d);
    RestoredIs(d);
    assert forall p <- [CORE, MAN, CARD] :: PENDING in d ==> Get(Recovered(d), p) == Get(Restored(d), p);
    assert Get(Restored(d), CARD) == Get(d, CARD);
  }

  /** The running pair is kept as .prev, and everything else as it was. */
  predicate Kept(d: Disk, k: Disk) {
    && Get(k, CORE_PREV) == Get(d, CORE) && Get(k, MAN_PREV) == Get(d, MAN)
    && forall p <- [CORE, MAN, PENDING, CARD] :: Get(k, p) == Get(d, p)
  }

  lemma KeptWhenDone(d: Disk)
    ensures CORE in d ==> Kept(d, Exec(KeepPlan(d), d))
  {
    if CORE in d {
      KeepExec(d);
    }
  }

  /** Without a running core nothing is kept. */
  lemma LoadedHas(d: Disk, req: Request, mark: Blob)
    ensures var l := Loaded(d, req, mark);
            && Get(l, PENDING) == Some(mark) && Get(l, MAN) == Some(Json(req.man))
            && Get(l, CORE) == Some(Raw(req.core)) && Get(l, CARD) == Get(d, CARD)
  {
    var k := Exec(KeepPlan(d), d);
    ExecConcat(KeepPlan(d), SwapPlan(req, mark), d);
    SwapExec(k, req, mark);
    if CORE in d {
      KeepExec(d);
    }
    assert Get(k, CARD) == Get(d, CARD);
    assert Get(Loaded(d, req, mark), CARD) == Get(k, CARD);
  }

  /** After a good load the new pair is installed, without a mark, and on the card if that was
      written. */
  lemma InstalledHas(d: Disk, req: Request, mark: Blob, card: bool)
    ensures var l := Loaded(d, req, mark);
            HasNew(req.core, Json(req.man), card, d, Exec(AfterLoad(l, req, true, card), l))
  {
    var l := Loaded(d, req, mark);
    LoadedHas(d, req, mark);
    AfterGood(l, req, card);
  }

  lemma AfterGood(l: Disk, req: Request, card: bool)
    ensures var f := Exec(AfterLoad(l, req, true, card), l);
            && Get(f, CORE) == Get(l, CORE) && Get(f, MAN) == Get(l, MAN) && PENDING !in f
            && Get(f, CARD) == if card then Some(Raw(req.core)) else Get(l, CARD)
  {
    var unmark: seq<Op<Path, Blob>> := [Drop(PENDING)];
    ExecOne(Drop(PENDING), l);
    if card {
      ExecConcat(unmark, Write(CARD, Raw(req.core)), l);
      WriteExec(CARD, Raw(req.core), l - {PENDING});
      var f := Exec(Write(CARD, Raw(req.core)), l - {PENDING});
      assert forall p <- [CORE, MAN, PENDING] :: Get(f, p) == Get(l - {PENDING}, p);
      assert Get(f, CORE) == Get(l, CORE) && Get(f, MAN) == Get(l, MAN) && Get(f, PENDING) == None;
    } else {
      assert unmark + [] == unmark;
    }
  }

  /** After a bad one everything is as it was before. */
  lemma FailedHas(d: Disk, req: Request, mark: Blob, card: bool)
    requires CORE in d
    ensures var l := Loaded(d, req, mark);
            AsBefore(d, Exec(AfterLoad(l, req, false, card), l))
  {
    var l := Loaded(d, req, mark);
    LoadedIs(d, req, mark);
    RestoredIs(l);
    ExecConcat(RestorePlan(l), [Drop(PENDING)], l);
    ExecOne(Drop(PENDING), Restored(l));
    var f := Restored(l) - {PENDING};
    assert forall p <- [CORE, MAN, CARD] :: Get(f, p) == Get(Restored(l), p);
    assert Get(Restored(l), CARD) == Get(l, CARD);
    assert Get(f, CORE) == Get(d, CORE) && Get(f, MAN) == Get(d, MAN) && Get(f, CARD) == Get(d, CARD);
  }

  lemma Outcome(d: Disk, req: Request, mark: Blob, passed: bool, card: bool)
    ensures var l := Loaded(d, req, mark);
            var f := Exec(AfterLoad(l, req, passed, card), l);
            && (passed ==> HasNew(req.core, Json(req.man), card, d, f))
            && (!passed && CORE in d ==> AsBefore(d, f))
  {
    if passed {
      InstalledHas(d, req, mark, card);
    } else if CORE in d {
      FailedHas(d, req, mark, card);
    }
  }

  // ---- every run: installs, power cuts anywhere, restarts ------------------------------

  /** The board: its files, the cores that passed a load's checks (or were there at the
      start), and whether the access process is up. */
  datatype Board = Board(disk: Disk, passed: set<Blob>, up: bool)

  datatype Event =
    | Install(req: Request, mark: Blob, ok: bool, card: bool)
    | LostBeforeLoad(req: Request, mark: Blob)
    | LostAfterLoad(req: Request, mark: Blob, ok: bool, card: bool)
    | Restart
    | LostInRecovery

  function Loaded(d: Disk, req: Request, mark: Blob): Disk {
    Exec(BeforeLoad(d, req, mark), d)
  }

  function Passing(passed: set<Blob>, req: Request, ok: bool): set<Blob> {
    if ok then passed + {Raw(req.core)} else passed
  }

  /** One event. Only an admitted bundle gets this far; a power cut leaves any cut of what
      was under way, and a core counts as passed only once its load has returned. */
  ghost predicate Step(sha: Bytes -> string, b: Board, e: Event, n: Board) {
    match e
    case Install(req, mark, ok, card) =>
      && b.up && Belongs(sha, Json(req.man), Raw(req.core))
      && n == Board(Exec(AfterLoad(Loaded(b.disk, req, mark), req, ok, card), Loaded(b.disk, req, mark)),
                    Passing(b.passed, req, ok), true)
    case LostBeforeLoad(req, mark) =>
      && b.up && Belongs(sha, Json(req.man), Raw(req.core))
      && Cut(BeforeLoad(b.disk, req, mark), b.disk, n.disk) && n.passed == b.passed && !n.up
    case LostAfterLoad(req, mark, ok, card) =>
      && b.up && Belongs(sha, Json(req.man), Raw(req.core))
      && Cut(AfterLoad(Loaded(b.disk, req, mark), req, ok, card), Loaded(b.disk, req, mark), n.disk)
      && n.passed == Passing(b.passed, req, ok) && !n.up
    case Restart => n == Board(Recovered(b.disk), b.passed, true)
    case LostInRecovery => Cut(RecoverPlan(b.disk), b.disk, n.disk) && n.passed == b.passed && !n.up
  }

  ghost predicate Run(sha: Bytes -> string, boards: seq<Board>, events: seq<Event>) {
    && |boards| == |events| + 1
    && forall i | 0 <= i < |events| :: Step(sha, boards[i], events[i], boards[i + 1])
  }

  /** The installed core and the card's core passed a load. */
  predicate Trusted(d: Disk, passed: set<Blob>) {
    CORE in d && d[CORE] in passed && (CARD in d ==> d[CARD] in passed)
  }

  /** What every board of a run keeps: the core that a restart will install is trusted. */
  predicate Secure(d: Disk, passed: set<Blob>) {
    && (CARD in d ==> d[CARD] in passed)
    && if PENDING in d && CORE_PREV in d then d[CORE_PREV] in passed else CORE in d && d[CORE] in passed
  }

  predicate Sound(b: Board) {
    Secure(b.disk, b.passed) && (b.up ==> PENDING !in b.disk)
  }

  lemma SecureRecovers(d: Disk, passed: set<Blob>)
    requires Secure(d, passed)
    ensures Trusted(Recovered(d), passed) && PENDING !in Recovered(d)
  {
    RecoveredIs(d);
    RestoredIs(d);
    var r := Recovered(d);
    assert forall p <- [CORE, CARD] :: PENDING in d ==> Get(r, p) == Get(Restored(d), p);
    assert Get(r, CORE) == if PENDING in d && CORE_PREV in d then Get(d, CORE_PREV) else Get(d, CORE);
    assert Get(r, CARD) == Get(d, CARD);
  }

  /** The disk at the load: the previous pair as .prev, the new pair installed, the mark set. */
  lemma LoadedIs(d: Disk, req: Request, mark: Blob)
    requires CORE in d
    ensures var l := Loaded(d, req, mark);
            && Get(l, PENDING) == Some(mark)
            && Get(l, MAN) == Some(Json(req.man)) && Get(l, CORE) == Some(Raw(req.core))
            && Get(l, CORE_PREV) == Get(d, CORE) && Get(l, MAN_PREV) == Get(d, MAN) && Get(l, CARD) == Get(d, CARD)
  {
    ExecConcat(KeepPlan(d), SwapPlan(req, mark), d);
    KeepExec(d);
    SwapExec(Exec(KeepPlan(d), d), req, mark);
  }

  /** A cut before the load: still the old pair without a mark, or the old pair as .prev. */
  lemma BeforeLoadCut(d: Disk, req: Request, mark: Blob, c: Disk)
    requires CORE in d && PENDING !in d && Cut(BeforeLoad(d, req, mark), d, c)
    ensures Get(c, CARD) == Get(d, CARD)
    ensures if PENDING in c then Get(c, CORE_PREV) == Get(d, CORE) && Get(c, MAN_PREV) == Get(d, MAN)
            else Get(c, CORE) == Get(d, CORE) && Get(c, MAN) == Get(d, MAN)
  {
    var k := Exec(KeepPlan(d), d);
    CutConcat(KeepPlan(d), SwapPlan(req, mark), d, c);
    KeepExec(d);
    if Cut(KeepPlan(d), d, c) {
      KeepCut(d, c);
      assert Get(c, PENDING) == Get(d, PENDING);
    } else {
      SwapCut(k, req, mark, c);
      assert forall p <- [CORE_PREV, MAN_PREV, CARD] :: Get(c, p) == Get(k, p);
      assert Get(c, CORE_PREV) == Get(k, CORE_PREV) && Get(c, MAN_PREV) == Get(k, MAN_PREV);
    }
  }

  /** A cut after a good load: with the mark the disk at the load, without it the new pair;
      the card has its old core or the new one. */
  lemma GoodLoadCut(l: Disk, req: Request, card: bool, c: Disk)
    requires PENDING in l && Cut(AfterLoad(l, req, true, card), l, c)
    ensures PENDING in c ==> c == l
    ensures Get(c, CORE) == Get(l, CORE) && Get(c, MAN) == Get(l, MAN)
    ensures Get(c, CARD) == Get(l, CARD) || Get(c, CARD) == Some(Raw(req.core))
  {
    var copy := Write(CARD, Raw(req.core));
    var unmark: seq<Op<Path, Blob>> := [Drop(PENDING)];
    assert unmark + [] == unmark;
    CutConcat([Drop(PENDING)], copy, l, c);
    CutOne(Drop(PENDING), l, c);
    ExecOne(Drop(PENDING), l);
    if card && Cut(copy, l - {PENDING}, c) {
      WriteCut(CARD, Raw(req.core), l - {PENDING}, c);
      assert Get(c, PENDING) == None;
      assert Get(c, CORE) == Get(l - {PENDING}, CORE) && Get(c, MAN) == Get(l - {PENDING}, MAN);
    }
  }

  lemma RestoreKeepsSecure(s: Disk, passed: set<Blob>, c: Disk)
    requires Secure(s, passed) && PENDING in s
    requires Cut(RestorePlan(s) + [Drop(PENDING)], s, c)
    ensures Secure(c, passed)
  {
    RestoreCut(s, c);
    RestoredIs(s);
    var r := Restored(s);
    assert forall p <- [CORE, CARD, CORE_PREV] :: Get(r - {PENDING}, p) == Get(r, p);
    assert Get(r, CARD) == Get(s, CARD);
  }

  lemma StepKeepsSound(sha: Bytes -> string, b: Board, e: Event, n: Board)
    requires Sound(b) && Step(sha, b, e, n)
    ensures Sound(n)
  {
    match e
    case Install(req, mark, ok, card) =>
      var l := Loaded(b.disk, req, mark);
      var plan := AfterLoad(l, req, ok, card);
      LoadedIs(b.disk, req, mark);
      ExecIsCut(plan, l);
      AfterLoadDropsMark(l, req, ok, card);
      if ok {
        GoodLoadCut(l, req, card, n.disk);
      } else {
        RestoreKeepsSecure(l, b.passed, n.disk);
      }
    case LostBeforeLoad(req, mark) =>
      BeforeLoadCut(b.disk, req, mark, n.disk);
    case LostAfterLoad(req, mark, ok, card) =>
      LoadedIs(b.disk, req, mark);
      if ok {
        GoodLoadCut(Loaded(b.disk, req, mark), req, card, n.disk);
      } else {
        RestoreKeepsSecure(Loaded(b.disk, req, mark), b.passed, n.disk);
      }
    case Restart => SecureRecovers(b.disk, b.passed);
    case LostInRecovery =>
      if PENDING in b.disk {
        RestoreKeepsSecure(b.disk, b.passed, n.disk);
      }
  }

  lemma AfterLoadDropsMark(l: Disk, req: Request, ok: bool, card: bool)
    ensures PENDING !in Exec(AfterLoad(l, req, ok, card), l)
  {
    ExecConcat(RestorePlan(l), [Drop(PENDING)], l);
    ExecOne(Drop(PENDING), Exec(RestorePlan(l), l));
    ExecOne(Drop(PENDING), l);
    ExecConcat([Drop(PENDING)], Write(CARD, Raw(req.core)), l);
    WriteExec(CARD, Raw(req.core), l - {PENDING});
    assert Get(Exec(Write(CARD, Raw(req.core)), l - {PENDING}), PENDING) == None;
  }

  /** Main result. In every run the core that a restart installs, and the card's core, passed
      a load's checks (or were there at the start): never the untested or a half-written one. */
  lemma {:induction false} NeverUntested(sha: Bytes -> string, boards: seq<Board>, events: seq<Event>, i: nat)
    requires Run(sha, boards, events) && i < |boards|
    requires boards[0].up && PENDING !in boards[0].disk && Trusted(boards[0].disk, boards[0].passed)
    ensures Trusted(Recovered(boards[i].disk), boards[i].passed)
    ensures boards[i].up ==> Trusted(boards[i].disk, boards[i].passed)
    ensures Sound(boards[i])
  {
    if i > 0 {
      NeverUntested(sha, boards, events, i - 1);
      StepKeepsSound(sha, boards[i - 1], events[i - 1], boards[i]);
    }
    SecureRecovers(boards[i].disk, boards[i].passed);
  }

  // ---- the manifest ----------------------------------------------------------------------

  /** The manifest, if there is one, belongs to the installed core. */
  predicate Paired(sha: Bytes -> string, d: Disk) {
    MAN in d ==> CORE in d && Belongs(sha, d[MAN], d[CORE])
  }

  /** The pair that a restart will install fits. */
  predicate WillPair(sha: Bytes -> string, d: Disk) {
    if PENDING in d && CORE_PREV in d then MAN_PREV in d ==> Belongs(sha, d[MAN_PREV], d[CORE_PREV])
    else Paired(sha, d)
  }

  /** The event is a power cut between the two renames of a rollback or a recovery. */
  ghost predicate Mishap(b: Board, e: Event, n: Board) {
    match e
    case LostAfterLoad(req, mark, ok, _) => !ok && BetweenRenames(Loaded(b.disk, req, mark), n.disk)
    case LostInRecovery => PENDING in b.disk && BetweenRenames(b.disk, n.disk)
    case _ => false
  }

  lemma WillPairRecovers(sha: Bytes -> string, d: Disk)
    ensures WillPair(sha, d) <==> Paired(sha, Recovered(d))
  {
    RecoveredIs(d);
    RestoredIs(d);
    var r := Recovered(d);
    assert forall p <- [CORE, MAN] :: PENDING in d ==> Get(r, p) == Get(Restored(d), p);
    assert Get(r, CORE) == if PENDING in d && CORE_PREV in d then Get(d, CORE_PREV) else Get(d, CORE);
    assert Get(r, MAN) == if PENDING in d && CORE_PREV in d then Get(d, MAN_PREV) else Get(d, MAN);
  }

  lemma RestoreKeepsPair(sha: Bytes -> string, s: Disk, c: Disk)
    requires WillPair(sha, s) && PENDING in s
    requires Cut(RestorePlan(s) + [Drop(PENDING)], s, c) && !BetweenRenames(s, c)
    ensures WillPair(sha, c)
  {
    RestoreCut(s, c);
    RestoredIs(s);
    var r := Restored(s);
    assert forall p <- [CORE, MAN] :: Get(r - {PENDING}, p) == Get(r, p);
    assert CORE_PREV in s ==> Get(r, CORE) == Get(s, CORE_PREV) && Get(r, MAN) == Get(s, MAN_PREV);
  }

  lemma StepKeepsPair(sha: Bytes -> string, b: Board, e: Event, n: Board)
    requires Sound(b) && WillPair(sha, b.disk) && Step(sha, b, e, n) && !Mishap(b, e, n)
    requires e.Install? && !e.ok ==> !BetweenRenames(Loaded(b.disk, e.req, e.mark), n.disk)
    ensures WillPair(sha, n.disk)
  {
    match e
    case Install(req, mark, ok, card) =>
      var l := Loaded(b.disk, req, mark);
      LoadedIs(b.disk, req, mark);
      ExecIsCut(AfterLoad(l, req, ok, card), l);
      AfterLoadDropsMark(l, req, ok, card);
      if ok {
        GoodLoadCut(l, req, card, n.disk);
      } else {
        RestoreKeepsPair(sha, l, n.disk);
      }
    case LostBeforeLoad(req, mark) =>
      BeforeLoadCut(b.disk, req, mark, n.disk);
    case LostAfterLoad(req, mark, ok, card) =>
      LoadedIs(b.disk, req, mark);
      if ok {
        GoodLoadCut(Loaded(b.disk, req, mark), req, card, n.disk);
      } else {
        RestoreKeepsPair(sha, Loaded(b.disk, req, mark), n.disk);
      }
    case Restart =>
      WillPairRecovers(sha, b.disk);
      SecureRecovers(b.disk, b.passed);
    case LostInRecovery =>
      if PENDING in b.disk {
        RestoreKeepsPair(sha, b.disk, n.disk);
      }
  }

  /** An install that is not cut ends without a mark, so not between the renames. */
  lemma CompleteIsNotBetween(sha: Bytes -> string, b: Board, e: Event, n: Board)
    requires Sound(b) && Step(sha, b, e, n) && e.Install? && !e.ok
    ensures !BetweenRenames(Loaded(b.disk, e.req, e.mark), n.disk)
  {
    LoadedIs(b.disk, e.req, e.mark);
    AfterLoadDropsMark(Loaded(b.disk, e.req, e.mark), e.req, e.ok, e.card);
  }

  /** Main result. In every run without a cut between the two renames, a disk without a
      pending mark has the manifest of its core, and so has every disk after a restart. */
  lemma {:induction false} ManifestFollowsCore(sha: Bytes -> string, boards: seq<Board>, events: seq<Event>, i: nat)
    requires Run(sha, boards, events) && i < |boards|
    requires boards[0].up && PENDING !in boards[0].disk && Trusted(boards[0].disk, boards[0].passed)
    requires Paired(sha, boards[0].disk)
    requires forall j | 0 <= j < |events| :: !Mishap(boards[j], events[j], boards[j + 1])
    ensures PENDING !in boards[i].disk ==> Paired(sha, boards[i].disk)
    ensures Paired(sha, Recovered(boards[i].disk))
    ensures WillPair(sha, boards[i].disk)
  {
    if i > 0 {
      var b, e, n := boards[i - 1], events[i - 1], boards[i];
      ManifestFollowsCore(sha, boards, events, i - 1);
      NeverUntested(sha, boards, events, i - 1);
      if e.Install? && !e.ok {
        CompleteIsNotBetween(sha, b, e, n);
      }
      StepKeepsPair(sha, b, e, n);
    }
    WillPairRecovers(sha, boards[i].disk);
  }

  /** The exception is real, for every board and every bundle whose load fails: the cut between
      the renames can happen, the recovery then finds no .prev core, and the new manifest stays
      beside the old core - which it describes only if both bundles hold the same core. */
  lemma RenameGap(sha: Bytes -> string, d: Disk, req: Request, mark: Blob, card: bool)
    requires CORE in d
    ensures var l := Loaded(d, req, mark);
            var c := Apply(Move(CORE_PREV, CORE), l);
            && Cut(AfterLoad(l, req, false, card), l, c)
            && Get(Recovered(c), CORE) == Get(d, CORE) && Get(Recovered(c), MAN) == Some(Json(req.man))
            && (Paired(sha, Recovered(c)) <==> Belongs(sha, Json(req.man), d[CORE]))
  {
    var l := Loaded(d, req, mark);
    var c := Apply(Move(CORE_PREV, CORE), l);
    LoadedIs(d, req, mark);
    CutTwo(Move(CORE_PREV, CORE), Second(l), l, c);
    CutConcat(RestorePlan(l), [Drop(PENDING)], l, c);
    RecoveredIs(c);
    RestoredIs(c);
    assert Recovered(c) == c - {PENDING};
  }

  /** The same gap in a recovery: the manifest that stays is the one installed at the restart. */
  lemma RecoveryGap(sha: Bytes -> string, s: Disk, c: Disk)
    requires PENDING in s && BetweenRenames(s, c)
    ensures Cut(RecoverPlan(s), s, c)
    ensures Paired(sha, Recovered(c)) <==> (MAN in s ==> Belongs(sha, s[MAN], s[CORE_PREV]))
  {
    CutTwo(Move(CORE_PREV, CORE), Second(s), s, c);
    CutConcat(RestorePlan(s), [Drop(PENDING)], s, c);
    RecoveredIs(c);
    RestoredIs(c);
  }
}
