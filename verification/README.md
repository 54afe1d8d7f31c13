# DE25-Nano board software: a verified model

A model, in Dafny, of the parts of this repository where a mistake costs a board: how it updates
its FPGA core, its boot image and its web software without ever being left with nothing good to
run, how it keeps the register bus quiet while the fabric is reloaded, how it keeps the fan
turning when its controller falls silent, and the protocols, circuits and arithmetic beside them.

| module | models | main results |
|---|---|---|
| `CrashPlans` | durable stores, and what a power cut inside a sequence of operations can leave | the algebra of plans and cuts that the update modules use |
| `CoreInstall` | `install_core`, its rollback, `_recover_install` | `NeverUntested`, `ManifestFollowsCore`, `RenameGap`, `Firmware.InstallCore` |
| `RsuUpdate` | `install_rsu` | `EveryBootWhole`, `BrokenBoots`, `Updater.InstallRsu` |
| `CoreFraming` | the core in QSPI and its text header | `FramedCoreReadsBack` |
| `RegisterAccess` | the register server: requests, pauses, loads and the watchdog as one machine of steps | `LoadIsQuietIff`, `LoadRestoresIff`, `RollbackRestoresIff`, `LeasesKeptIff` |
| `FanLease` | the fan's lease over every run of that machine | `LeaseEndsIff`, `RenewalHoldsIff`, `DeadManSwitch` |
| `FanRaise` | what loads make of the raise of an expired lease | `RaiseLastsIff` |
| `TempControl` | the PI law and the controller around it | `HotDieNeverGetsLess`, `HotDieGetsFullFan`, `HotterIff`, `BumplessReset`, `TextbookLaw` |
| `FanSafety` | both processes in one run: the controller that leases the fan and the server that watches the lease | `SilentControllerRaisesFan`, `RemovedLate` |
| `TftpTransfer`, `TftpOptions` | the TFTP server, its packets and a client of RFC 1350 | `ServeFile`, `AlwaysInStep`, `SentMeansReceived`, `SendsAreBounded`, `OldBlockIsTaken`, `OptionsReadBack` |
| `Releases` | the web releases and their supervisor | `AlwaysSafe`, `EveryTestEnds`, `InstallCutRecovers`, `RevertCutRecovers` |
| `Sha256Constants`, `Sha256Spec`, `Sha256` | SHA-256 as FIPS 180-4 has it, and the page's in-place version | `Sha256Fallback` |
| `AxiBridge` | the AXI4 to register-file bridge | `OneAnswerPerRead`, `AnsweredInTime`, `AllAskOnceIff`, `EachOnceIff`, `RvalidHasReadIff` |
| `ClockBringup` | the PLL bring-up of the clock manager | `WaitPllLock`, `ClosedUntilLocked`, `ClockManager.Configure`, `HandoffIsProgrammed` |

`Wrappers` and `Hexadecimal` are shared by the others. The rest of the members in the table below
are the steps on the way, or supporting facts that follow from one definition (`NoWindup`,
`NoClash`, `ExpiryRaises`, the constants of SHA-256).

How it is built:

* What the source does step by step is a class with methods (or a method with loops), and each
  method's `ensures` ties the new state to a function of the old one: a plan of durable
  operations, a step of a machine, a function from a standard. The lemmas are then about runs of
  that machine or cuts of that plan: every run, every interleaving, every cut.
* Renames, removals and the setting of a boot flag are atomic and durable. `shutil.copyfile` and
  a plain write are not: a cut inside one leaves its target with any content. `rsu_client
  --erase` first makes its slot unbootable, `--add` makes it bootable last.
* In `RegisterAccess` what a thread does under the lock is one step, and so is each thing that it
  does outside. A pause or resume request tests `loading` before it takes the lock
  (`fpga_access.py:772`). The watchdog takes a snapshot of the leases and their deadlines
  (`fpga_access.py:1150`), tests `paused()` (`fpga_access.py:1151`) and removes the lease that the
  register has by then (`fpga_access.py:1153`), all without the lock; only its act on the fan is
  under it. What has passed a test and not yet acted is `stale`.
* Floats are reals, clocks are reals (or an integer number of seconds in the supervisor).
  Packet and block numbers, register widths, word arithmetic and JavaScript's signed 32-bit
  results are written out.
* Calls into other programs and hardware (the loader, `rsu_client`, the register file, the
  clock manager's status register, the network) are parameters or free events: the results hold
  for whatever they answer.

Where the code does less than its comments or replies say, the model follows the code, and the
exact condition is proved:

* A cut between the two renames of a rollback or a recovery (`fpga_access.py:956-960`,
  `1097-1101`) leaves the failed bundle's manifest beside the old core: `RenameGap`,
  `RecoveryGap`. It is the only such point (`ManifestFollowsCore`).
* A load is quiet exactly if, as it begins, no pause or resume request is past its unlocked test
  and the watchdog is not on its way to the fan (`LoadIsQuietIff`). It gives back the registers
  exactly if no such request is, and the watchdog not on its way to a fan that was saved below
  128 (`LoadRestoresIff`, and for a rollback `RollbackRestoresIff`); and the leases their time
  exactly if no such request is (`LeasesKeptIff`).
* A lease can be relied on exactly if the watchdog was not past its snapshot or its test of the
  lease before, when it was taken (`RenewalHoldsIff`): else the watchdog removes the new lease. In
  `RenewedTooLate` a client then lowers the fan, and nothing watches it any more (`Unwatched`).
* The watchdog's raise of the fan lasts through loads only under the condition of
  `RaiseLastsIff`: no load may lower it and all later ones keep what they find. Two ways to lose
  it, with no lease left: a load begins between the test and the act (`ExpiryLostInLoad`); a
  rollback's load, with nothing stale as it begins, writes back the duty that was read before the
  first load (`RaiseUndoneByRollback`).
* "P1 is erased or incomplete: the next boot runs the factory image" is the reply to every failed
  update. It is true exactly if P1 was not bootable before, or the update failed between the
  first operation of the erase of P1 and its verification (`BrokenBoots`, `P1Written`): not if
  staging failed, nor if the erase did before it had made P1 unbootable - the old P1 boots -, nor
  if only `--verify` failed - the new P1 boots.
* The bundle checks of `install_rsu` admit an empty core, which no reader of the partition will
  find (`EmptyCoreIsNone`); the results about boots ask for a core that is not empty.
* A web release whose install is cut between the switch of `current` and the pending file stays
  without a test (`InstallGap`), and a revert cut before the pending file is removed is reverted
  back to the release that failed (`RevertGap`).
* rvalid of the AXI bridge belongs to an open read exactly if no reply comes while the bridge is
  idle or in the clock of a handover (`RvalidHasReadIff`; `StrayRun` is a run in which one does).
* Every read puts its own request on the interconnect before its answer exactly if the write
  channel is idle for some clock while each read waits (`AllAskOnceIff`). `WrongAnswer` is a run
  in which it is not: a read times out behind a write whose data is late, the request it left
  behind goes out in place of the next read's, and the reply to it becomes the next read's answer.
* A write whose address and data have both been taken goes to the interconnect once, exactly if
  the master holds bready up in that clock (`EachOnceIff`). If it does not, only a reset gets the
  bridge out of the write: until then it repeats it in every clock (`StuckWrite`).
* With everything else equal a hotter die can get less fan. Integration stops where it would push
  the output past a limit, and the output then falls back by what the step would have added: with
  the default gains, at rest, 55.5 degrees get a duty of 253 and 55.6 degrees 248
  (`HotterGetsLess`). It never falls back by more than one integral step, and `HotterIff` says
  exactly when it does. A die that is held above the setpoint has its fan raised to the end all
  the same (`HotDieNeverGetsLess`, `HotDieGetsFullFan`).
* The life that a TFTP packet may have in the network is sharp: `OldBlockIsTaken` is a run at
  whose end a packet one block past the limit would be taken for the next block.

## Model

| member | source | states |
|---|---|---|
| `CrashPlans.WriteViaCut` | linux/webapp/fpga_access.py:687-694 | A file written through its .new file is never half written: a cut leaves the old or the new content, and nothing else changed |
| `CrashPlans.WriteViaExec` | linux/webapp/fpga_access.py:687-694 | Uncut, the file has the new content and the .new file is gone |
| `CoreInstall.CheckBundle` | linux/webapp/fpga_access.py:701-730 | A bundle passes exactly when both files are there, the manifest can be read and it has the core's size and hash; a passed request is the bundle |
| `CoreInstall.Admit` | linux/webapp/fpga_access.py:919-942 | A bundle is admitted exactly when it passes its checks, the loader is ready, an installed manifest can be read and - without force - the core is for the installed periphery; what each refusal means |
| `CoreInstall.Firmware.WriteFile` | linux/webapp/fpga_access.py:687-694 | The two operations of a write, in order |
| `CoreInstall.Firmware.KeepPrevious` | linux/webapp/fpga_access.py:938-944 | The running core and manifest are in .prev, with no stale manifest left there |
| `CoreInstall.Firmware.SwapIn` | linux/webapp/fpga_access.py:945-949 | The mark, then the manifest, then the core |
| `CoreInstall.Firmware.Restore` | linux/webapp/fpga_access.py:954-960 | The .prev pair back in place, if there is a .prev core; else nothing |
| `CoreInstall.Firmware.ClearPending` | linux/webapp/fpga_access.py:1082-1086 | The mark is gone, nothing else changed |
| `CoreInstall.Firmware.Conclude` | linux/webapp/fpga_access.py:950-976 | After a good load the mark goes before the card's copy is written; after a bad one the .prev pair is restored first; the reply tells which |
| `CoreInstall.Firmware.Install` | linux/webapp/fpga_access.py:938-976 | `Installed` means that core and manifest are the new ones, without a mark, and that the card has the new core if the reply says so, else what it had; `Failed`, with a core before, that core, manifest and card are what they were, without a mark |
| `CoreInstall.Firmware.InstallCore` | linux/webapp/fpga_access.py:919-976 | A refused bundle changes nothing; `Installed` means that exactly the bundle's core and manifest are in place, without a mark, and on the card as the reply says; `Failed`, with a core before, that all three are what they were; in between it is the whole protocol, operation by operation |
| `CoreInstall.Firmware.RecoverInstall` | linux/webapp/fpga_access.py:1088-1105 | A restart restores the .prev pair exactly when the mark and a .prev core are there, leaves the card alone and takes the mark away last |
| `CoreInstall.InstalledHas` | linux/webapp/fpga_access.py:938-976 | Uncut, the operations of an install whose load passed leave the new core and manifest, no mark, and the card written if it could be |
| `CoreInstall.FailedHas` | linux/webapp/fpga_access.py:938-967 | Uncut, those of one whose load failed leave core, manifest and card as before, and no mark |
| `CoreInstall.BeforeLoadCut` | linux/webapp/fpga_access.py:938-949 | A cut before the load leaves the old pair and no mark, or the mark and the old pair as .prev; the card is untouched |
| `CoreInstall.GoodLoadCut` | linux/webapp/fpga_access.py:968-971 | A cut after a good load leaves the new pair; the card has its old core or all of the new one |
| `CoreInstall.RestoreCut` | linux/webapp/fpga_access.py:954-967 | The four disks that a cut rollback or recovery can leave |
| `CoreInstall.SecureRecovers` | linux/webapp/fpga_access.py:1088-1105 | From every disk that the protocol keeps secure, a restart ends with a trusted core and no mark |
| `CoreInstall.StepKeepsSound` | linux/webapp/fpga_access.py:919-976 | Every install, cut install, restart and cut recovery keeps the disk secure |
| `CoreInstall.NeverUntested` | linux/webapp/fpga_access.py:919-976 | In every run with cuts anywhere, the core that a restart installs and the card's core passed a load (or were there at the start): never an untested or half-written one |
| `CoreInstall.StepKeepsPair` | linux/webapp/fpga_access.py:938-967 | Every step but a cut between the two renames keeps the manifest with its core |
| `CoreInstall.CompleteIsNotBetween` | linux/webapp/fpga_access.py:950-967 | A rollback that is not cut does not end between the renames |
| `CoreInstall.ManifestFollowsCore` | linux/webapp/fpga_access.py:938-967 | In every run without that cut, a disk without a mark - and every disk after a restart - has the manifest of its core |
| `CoreInstall.RenameGap` | linux/webapp/fpga_access.py:954-960 | That cut can happen on every board, the recovery then finds no .prev core, and the pair fits only if both bundles hold the same core |
| `CoreInstall.RecoveryGap` | linux/webapp/fpga_access.py:1096-1101 | The same inside a recovery, with the exact condition under which the pair still fits |
| `RsuUpdate.Updater.Perform` | linux/webapp/fpga_access.py:1031-1062 | One step of the update: done, or broken off with a cut of the plan |
| `RsuUpdate.Updater.InstallRsu` | linux/webapp/fpga_access.py:1006-1067 | Refused without a change exactly when the bundle is bad or does not fit; `Written` means that the three installed files hold the bundle's manifest, core and description and that P1 boots the bundle's image, U-Boot and core (one that is not empty), each from the card or from QSPI; failed as a cut of the plan, with the factory image to boot next exactly as the step and the operation that failed say |
| `RsuUpdate.StagedAre` | linux/webapp/fpga_access.py:1036-1038 | The files that the programming steps read are the bundle's, up to the step that reads them |
| `RsuUpdate.FirmwareWritten` | linux/webapp/fpga_access.py:1052-1056 | After the firmware step the installed files of P1 are the bundle's |
| `RsuUpdate.UpdatedBoots` | linux/webapp/fpga_access.py:1006-1067 | A whole update, from any board, leaves P1 as what boots, with every part of the bundle |
| `RsuUpdate.BrokenBoots` | linux/webapp/fpga_access.py:1040-1067 | A step that breaks off before the verification leaves the factory image to boot exactly if P1 was not bootable at the start or has been made unbootable by then |
| `RsuUpdate.NotBootable` | linux/webapp/fpga_access.py:1042-1058 | From the erase of P1 until its image is complete P1 is not bootable |
| `RsuUpdate.P1Written` | linux/webapp/fpga_access.py:1042-1059 | Once the image is complete P1 boots and holds the new build in QSPI and on the card, before the verification as after |
| `RsuUpdate.StepOfCut` | linux/webapp/fpga_access.py:1036-1062 | A cut update is a cut inside one of its ten steps |
| `RsuUpdate.CutKeepsWhole` | linux/webapp/fpga_access.py:1036-1062 | Wherever an update is cut, P1 is not bootable or holds one whole build |
| `RsuUpdate.FactoryKept` | linux/webapp/fpga_access.py:1036-1062 | No cut of an update has changed a part of the factory image |
| `RsuUpdate.CoreInProgrammed` | linux/webapp/fpga_access.py:1018-1020 | The core that a boot reads from the programmed partition is the core that was framed |
| `RsuUpdate.HeldSlotBoots` | linux/webapp/fpga_access.py:1036-1067 | A slot that holds a build boots it, with U-Boot and core each from the card or from QSPI |
| `RsuUpdate.EveryBootWhole` | linux/webapp/fpga_access.py:1006-1067 | After any number of updates, each cut anywhere or complete, a boot finds image, U-Boot and core of one build, and the factory image is what it was |
| `CoreFraming.ReadFlash` | linux/webapp/fpga_access.py:474-497 | The first device that holds the range decides; without one there is no answer |
| `CoreFraming.ReadQspiCore` | linux/webapp/fpga_access.py:541-554 | A core that is returned is not empty, fits its partition, has the size its header promises and is what stands behind the header; in a partition that can be read there is one exactly if the header promises one |
| `CoreFraming.CorePartitionsApart` | linux/webapp/fpga_access.py:536-538 | Two slots share a core partition exactly when they are the same or both name the factory image |
| `CoreFraming.CorePartitionIs` | linux/webapp/fpga_access.py:536-538 | Each slot's core partition has the slot's name, but the factory image's the short one |
| `CoreFraming.NumberReadsBack` | linux/webapp/fpga_access.py:549 | `int(text, 16)` of a size in `%#x` form is that size |
| `CoreFraming.HeaderReadsBack` | linux/webapp/fpga_access.py:549 | A header with any padding gives back its size |
| `CoreFraming.FramedCoreReadsBack` | linux/webapp/fpga_access.py:541-554 | A non-empty core framed into its partition is read back exactly, whatever the flash holds around it and however it is split into devices |
| `CoreFraming.EmptyCoreIsNone` | linux/webapp/fpga_access.py:552-553 | An empty core framed the same way is not found |
| `RegisterAccess.LoadStaysSheltered` | linux/webapp/fpga_access.py:861-899 | If no pause or resume request is past its test at its begin, a load keeps its pause to the end and leases can only be removed; if the watchdog is not on its way to the fan either, nothing touches the bridge |
| `RegisterAccess.LoadIsQuietIff` | linux/webapp/fpga_access.py:861-880 | No interleaving touches the bridge or ends the pause before the loader returns, exactly when no request is past its unlocked test and the watchdog not on its way to the fan as the load begins |
| `RegisterAccess.LeasesKeptIff` | linux/webapp/fpga_access.py:892-896 | However a load ends, every lease that is there has the time left that it had when the load was timed from, exactly when no pause or resume request is past its unlocked test as it begins |
| `RegisterAccess.LoadRestoresIff` | linux/webapp/fpga_access.py:865-890 | Whatever happens meanwhile, a load that succeeds ends with the four registers that it saved or was handed, exactly when no pause or resume request is past its unlocked test as it begins, and the watchdog not on its way to a fan saved below 128 |
| `RegisterAccess.RollbackRestoresIff` | linux/webapp/fpga_access.py:950-966 | A rollback's load that succeeds ends with the registers read before the first load, even if clients wrote between the two, exactly under that condition as it begins |
| `FanLease.LeaseSurvives` | linux/webapp/fpga_access.py:838-899 | As long as it is there, the deadline of the fan's lease moves only by the time that loads took |
| `FanLease.ExpiryRaises` | linux/webapp/fpga_access.py:1156-1159 | An expiry leaves the fan at 128 or more and never lowers it |
| `FanLease.LeaseEndsIff` | linux/webapp/fpga_access.py:1146-1153 | With no older tick under way, and until another lease or release, the fan's lease is gone after a run exactly if a whole tick came: a snapshot at its deadline - moved by loads - or later, then the test outside a pause, then the removal |
| `FanLease.RenewalHoldsIff` | linux/webapp/fpga_access.py:1150-1153 | The lease that a write takes goes only by a whole tick of its own, exactly if the watchdog is not past its snapshot or its test of the lease before |
| `FanLease.RenewedTooLate` | linux/webapp/fpga_access.py:1150-1159 | A run in which it is: the new lease is removed, a client lowers the fan again, and no lease and nothing stale is left |
| `FanLease.Unwatched` | linux/webapp/fpga_access.py:1150-1159 | From such a state the watchdog takes no step for the fan in any run without a new lease |
| `FanLease.WatchStays` | linux/webapp/fpga_access.py:1150-1159 | What the watchdog has seen of the fan stays to be acted on, whatever other threads do |
| `FanLease.TickGoesThrough` | linux/webapp/fpga_access.py:1150-1159 | A tick whose snapshot finds the lease over and whose test finds no pause goes through to its act, whatever comes between its steps |
| `FanLease.DeadManSwitch` | linux/webapp/fpga_access.py:1146-1162 | After a leased write with no older tick under way, and then silence, over every run: the first tick with its snapshot past the deadline and its test outside a pause goes through, whatever comes between its steps, and leaves the fan at 128 or more and not lower than it was |
| `FanRaise.DutyAtTheEnd` | linux/webapp/fpga_access.py:861-899 | For every run without a write to the fan, with any number of loads, its duty at the end, from what each load saved, whether it passed its checks and what its fabric has |
| `FanRaise.RaiseLastsIff` | linux/webapp/fpga_access.py:861-899 | The raise is still there after any number of loads, one under way at the act among them, exactly if no load lowers it with all later ones keeping what they find |
| `FanRaise.ExpiryLostInLoad` | linux/webapp/fpga_access.py:1151-1159 | A tick whose test comes before a load and whose raise comes inside it: the old duty is written back and the lease is gone |
| `FanRaise.RaiseUndoneByRollback` | linux/webapp/fpga_access.py:950-964 | A raise between a failed load and its rollback: the rollback writes the older duty back, with nothing stale as it begins, and the lease is gone |
| `RegisterAccess.Access.ReadRegister` | linux/webapp/fpga_access.py:826-831 | Refused in a pause, else the register's value |
| `RegisterAccess.Access.WriteRegister` | linux/webapp/fpga_access.py:826-842 | Refused in a pause, else written and read back - 8 bits of the fan duty, 32 of the others -, no other register or lease touched, and the lease is at least as long as asked for and as a second |
| `RegisterAccess.Access.ReleaseLease` | linux/webapp/fpga_access.py:797-799 | The lease is gone |
| `RegisterAccess.Access.Pause` | linux/webapp/fpga_access.py:772-780 | Refused during a load, else paused exactly until the seconds asked for, or 600, are over |
| `RegisterAccess.Access.Resume` | linux/webapp/fpga_access.py:772-785 | Refused during a load, else the pause is over |
| `RegisterAccess.Access.Load` | linux/webapp/fpga_access.py:861-899 | A build exactly if the load succeeded and id and build are the expected ones; then the writable registers are those of before the load; all others are the new fabric's; leases and pause put right in any case |
| `RegisterAccess.LoadPlays` | linux/webapp/fpga_access.py:861-899 | What the method does is what the machine's load steps do when no other thread comes between |
| `RegisterAccess.Access.Tick` | linux/webapp/fpga_access.py:1150-1159 | One lease under the watchdog, as the machine's steps |
| `RegisterAccess.TicksPlay` | linux/webapp/fpga_access.py:1150-1159 | The watchdog's four steps on one lease, with nothing between them, end where one step would |
| `RegisterAccess.Access.Watchdog` | linux/webapp/fpga_access.py:1146-1162 | A round leaves exactly the leases that have not expired and raises the fan exactly if its own had, in whatever order it meets them |
| `TempControl.PI.Reset` | linux/webapp/temp_control.py:147-149 | The integrator that makes the next output the given one, clamped |
| `TempControl.PI.Step` | linux/webapp/temp_control.py:151-160 | The law, and an output in its limits |
| `TempControl.PI.Conditional` | linux/webapp/temp_control.py:153-158 | The integrator moves unless it would push the output further into a limit, and is clamped |
| `TempControl.PI.SaturatedAt` | linux/webapp/temp_control.py:162-167 | After a sample with this error: saturated means that the output is at that limit and that the integrator stands still however long the error stays; free means that the raw output is not past the limit that the error pushes to |
| `TempControl.NoWindup` | linux/webapp/temp_control.py:151-160 | For every history integrator and output are in range, and when the error turns the output leaves the limit at once by the proportional part |
| `TempControl.BumplessReset` | linux/webapp/temp_control.py:147-160 | The step after a reset changes the output by at most one integral step |
| `TempControl.HeldIsHistory` | linux/webapp/temp_control.py:151-160 | A history of n samples with one error leads to the integrator that the two claims about constant errors are about |
| `TempControl.RisesMonotonically` | linux/webapp/temp_control.py:151-160 | A constant positive error never lets the output fall |
| `TempControl.ReachesUpperLimit` | linux/webapp/temp_control.py:151-160 | After at most ceil((hi - lo) / step) samples the output is within one step of the limit, and never changes again |
| `TempControl.MirrorOutput` | linux/webapp/temp_control.py:151-160 | The law is the same upside down |
| `TempControl.FallsMonotonically` | linux/webapp/temp_control.py:151-160 | A constant negative error never lets the output rise |
| `TempControl.ReachesLowerLimit` | linux/webapp/temp_control.py:151-160 | The mirror claim at the lower limit |
| `TempControl.TextbookLaw` | linux/webapp/temp_control.py:151-160 | As long as nothing is cut or stopped the output is kp times the error, plus the start, plus ki times the integral of the errors over their times |
| `TempControl.Controller.Apply` | linux/webapp/temp_control.py:201-240 | Settings out of range change nothing; else exactly the named ones take their values; a bumpless start is asked for exactly by entering auto or a new kp there; leaving for off releases the lease |
| `TempControl.StaysSane` | linux/webapp/temp_control.py:201-362 | Sampling and new settings keep integrator, gains and manual duty in range; a write comes exactly in auto and manual mode with the server answering, is a duty, and carries ten seconds of lease |
| `TempControl.Controller.Sample` | linux/webapp/temp_control.py:300-362 | A write exactly in auto and manual mode with the server answering, under ten seconds of lease: in manual mode the set duty, without a sensor the register's - from five such samples on at least 128 -, else what the law gives, at least 30; the next start is bumpless exactly if the law did not run |
| `TempControl.BumplessStart` | linux/webapp/temp_control.py:340-344 | The first sample that regulates changes the fan by at most one rounded integral step, if the integrator that this asks for is in range |
| `TempControl.HeldDie` | linux/webapp/temp_control.py:309-344 | A die held at a temperature is regulated by the law with its excess over the setpoint as the error, whatever duties are read back |
| `TempControl.HotDieNeverGetsLess` | linux/webapp/temp_control.py:309-344 | In auto a die held above the setpoint never has its duty lowered from sample to sample |
| `TempControl.ColdDieNeverGetsMore` | linux/webapp/temp_control.py:309-344 | And one held below it never has it raised |
| `TempControl.HotDieGetsFullFan` | linux/webapp/temp_control.py:309-344 | After at most 225 / step samples its duty is within one rounded integral step of 255, and stays |
| `TempControl.ColdDieGetsLittleFan` | linux/webapp/temp_control.py:309-344 | The mirror: within one rounded step of 30 |
| `TempControl.HotterIff` | linux/webapp/temp_control.py:309-344 | Of two temperatures with everything else equal the hotter gets no less output exactly if integration does not stop between the two or the proportional part makes up for it; never less by more than one integral step; the duties follow |
| `TempControl.HotterGetsLess` | linux/webapp/temp_control.py:309-344 | Two temperatures, at the default gains, of which the hotter gets the lower duty |
| `TempControl.Controller.Regulate` | linux/webapp/temp_control.py:340-344 | The law, started from the duty in the register if it was not running |
| `FanSafety.AlwaysWellbehaved` | linux/webapp/temp_control.py:300-362 | In every joint run a controller that writes is not off, and a release is under way only once it is |
| `FanSafety.LeaseHolds` | linux/webapp/fpga_access.py:826-842 | From the last write that the server took, as long as no release gets through and no tick removes it, the lease is there, with its deadline moved only by loads |
| `FanSafety.SilentControllerRaisesFan` | linux/webapp/temp_control.py:353-355 | In every joint run of controller, server and everybody else: once no more writes or releases get through - for whatever reason, switched off or not - the tick with its snapshot ten seconds after the last write plus the time of loads, and its test outside a pause, has the watchdog raise the fan to 128 or more; in the fabric that stays if no load is under way |
| `FanSafety.RemovedLate` | linux/webapp/fpga_access.py:1150-1153 | With no older tick under way at the write, its lease is removed only by such a tick |
| `FanSafety.LiveControllerKeepsFan` | linux/webapp/fpga_access.py:1150-1152 | A tick that takes its snapshot before that changes nothing |
| `TftpTransfer.BlockSize` | linux/tools/tftp_server.py:53-57 | The size in the range of RFC 2348 that is nearest to the one asked for; 512 without one |
| `TftpTransfer.LastIsShort` | linux/tools/tftp_server.py:97-103 | Exactly the last block is shorter than the block size, and with it the file is complete |
| `TftpTransfer.AwaitAck` | linux/tools/tftp_server.py:72-85 | Acked exactly if the wait ends with the client's ACK of this very block, aborted exactly if with its ERROR, without an answer exactly if at the deadline; no earlier arrival is one of these; all else is dropped, and nothing is sent for it |
| `TftpTransfer.SendWait` | linux/tools/tftp_server.py:68-86 | The packet goes out at most eight times, one more only after a deadline has passed; how it ends is told by the last arrival, and no earlier one would have ended it |
| `TftpTransfer.SendBlock` | linux/tools/tftp_server.py:97-103 | The block read at the file position is the block of that number, goes out under its 16-bit number, and ends the transfer exactly if it is short and acknowledged |
| `TftpTransfer.SendBlocks` | linux/tools/tftp_server.py:94-103 | The blocks in order, to the short one or to a failure; each that is passed was acknowledged by the client, at a later arrival than the one before |
| `TftpTransfer.SendOack` | linux/tools/tftp_server.py:89-93 | Goes on to block 1 only after the client's ACK of block 0 |
| `TftpTransfer.ServeFile` | linux/tools/tftp_server.py:88-110 | A transfer is a run of the machine whose ACKs are exactly those the client sent, in order, and whose packets are those on the wire; sent means that the client's ACKs of all blocks - and of the options - are among the arrivals, one after the other |
| `TftpTransfer.SendsAreBounded` | linux/tools/tftp_server.py:68-103 | In every run each packet goes out at most eight times, and all together at most eight times the number of packets |
| `TftpTransfer.StepStaysInStep` | linux/tools/tftp_server.py:68-103 | Every step of server, client and network keeps them in lock step |
| `TftpTransfer.AlwaysInStep` | linux/tools/tftp_server.py:68-103 | Whatever is lost, repeated or reordered, the client holds a prefix of the file and is at most one block behind |
| `TftpTransfer.SentMeansReceived` | linux/tools/tftp_server.py:96-106 | A transfer reported as sent means that the client holds exactly the file, and knows that it is complete |
| `TftpTransfer.Lockstep` | linux/tools/tftp_server.py:94-103 | For every block there is a run, with nothing lost, in which the client has just taken it |
| `TftpTransfer.OldBlockIsTaken` | linux/tools/tftp_server.py:98-103 | A run at whose end a packet 65535 blocks old has the number of the next block: it would be taken for it, and the client's bytes would stay a prefix exactly if the two blocks are equal |
| `TftpOptions.PairUp` | linux/tools/tftp_server.py:42-46 | The pairing loop computes the pairs of its list, empty names and a lone name skipped, a later value winning |
| `TftpOptions.ParseRequest` | linux/tools/tftp_server.py:39-47 | There is no request exactly without a NUL; the file name is the body up to the first; no part has a NUL in it; the mode and every option's name are in lower case, and no name is empty |
| `TftpOptions.SplitEncoded` | linux/tools/tftp_server.py:90-91 | Splitting the encoded options at NUL gives names and values by turns |
| `TftpOptions.OptionsReadBack` | linux/tools/tftp_server.py:42-46 | Encoded options read by the same loop are exactly the options, for distinct non-empty lower-case names |
| `TftpOptions.RequestReadsBack` | linux/tools/tftp_server.py:39-47 | A whole request is read back, its mode in lower case |
| `Releases.Base.Install` | linux/webapp/fpga_web.py:366-376 | Links, pending mark and releases after an install |
| `Releases.Base.Prune` | linux/webapp/fpga_web.py:406-411 | All but the newest four releases are gone, except those to keep |
| `Releases.PrunedIff` | linux/webapp/fpga_web.py:406-411 | A release is pruned exactly if at least four newer ones are there and it is not one to keep |
| `Releases.Base.Confirm` | linux/webapp/fpga_web.py:378-385 | Only the release on test, and running, can be confirmed |
| `Releases.Base.Rollback` | linux/webapp/fpga_web.py:387-397 | Current and previous change places, and the release is on test; without a previous one nothing changes |
| `Releases.Base.Revert` | linux/board/de25web-supervisor.sh:56-70 | Current and previous change places and the test is over; without a previous one only the mark goes |
| `Releases.Supervisor.constructor` | linux/board/de25web-supervisor.sh:140-146 | The start-up check is the machine's restart |
| `Releases.Supervisor.Start` | linux/board/de25web-supervisor.sh:147-157 | The head of the main loop: a new test begins with a fresh count, a running one goes on |
| `Releases.Supervisor.PollOnce` | linux/board/de25web-supervisor.sh:169-200 | One turn of the inner loop: exits counted, and the two ways to a revert |
| `Releases.Supervisor.WebExited` | linux/board/de25web-supervisor.sh:202-216 | The tail of the main loop: an exit counted only while its release is on test |
| `Releases.AlwaysSafe` | linux/webapp/fpga_web.py:337-411 | In every state of every run: no pending mark means that the current release was confirmed; a pending one is current, and the previous one was confirmed and is on the disk |
| `Releases.TestIsBounded` | linux/board/de25web-supervisor.sh:169-216 | A release that stays on test has had fewer than three exits, and every poll came within 120 seconds of its start |
| `Releases.TestEnds` | linux/board/de25web-supervisor.sh:169-216 | The step in which a release stops being on test confirms it, or reverts to a confirmed release |
| `Releases.EveryTestEnds` | linux/board/de25web-supervisor.sh:169-216 | At every moment after a release was put on test it is still on test, within the bounds of exits and time, or its test has ended with it confirmed or with a confirmed release in its place |
| `Releases.TestBegins` | linux/board/de25web-supervisor.sh:147-157 | A pending release is put on test when it is next started |
| `Releases.RevertIsConfirmed` | linux/board/de25web-supervisor.sh:56-70 | Every revert goes back to a confirmed release |
| `Releases.InstallIsSafeIff` | linux/webapp/fpga_web.py:366-376 | Exactly which installs keep the state safe, on test or not, new or not |
| `Releases.InstallPlanIs` | linux/webapp/fpga_web.py:366-376 | Uncut, the operations of an install end where the method does |
| `Releases.SwapPlansAre` | linux/board/de25web-supervisor.sh:56-70 | And so do those of a rollback and of a revert, and the start-up |
| `Releases.InstallCutRecovers` | linux/webapp/fpga_web.py:368-374 | After a cut install and a restart the old release runs, exactly unless the cut came between the switch and the mark |
| `Releases.InstallGap` | linux/webapp/fpga_web.py:372-374 | That cut can happen on every board |
| `Releases.RollbackCutRecovers` | linux/webapp/fpga_web.py:391-396 | The same for a rollback, with its exact condition |
| `Releases.RevertCutRecovers` | linux/board/de25web-supervisor.sh:64-69 | After a cut revert and a restart the good release runs, exactly unless both links were switched and the mark was left |
| `Releases.RevertGap` | linux/board/de25web-supervisor.sh:66-68 | That cut can happen on every board: the release that failed is current again |
| `Sha256Constants.ListIsThePrimes` | linux/webapp/static/app.js:452-460 | The list behind the constants is all primes up to 311, in order: the first 64 |
| `Sha256Constants.ConstantsAreCubeRoots` | linux/webapp/static/app.js:452-460 | Each round constant is the first 32 bits of the fractional part of the cube root of the prime at its place (section 4.2.2 of FIPS 180-4) |
| `Sha256Constants.InitialIsSquareRoots` | linux/webapp/static/app.js:461-462 | Each initial word is that of a prime's square root (section 5.3.3) |
| `Sha256Spec.PaddedLength` | linux/webapp/static/app.js:464 | The padded message is the shortest whole number of blocks that holds the data and nine bytes more, and has the length that the code computes |
| `Sha256.RotateRightIsRotr` | linux/webapp/static/app.js:472 | The or of two shifts, one of them signed, has the bits of the rotation of section 3.2 |
| `Sha256.ScheduleWordAgrees` | linux/webapp/static/app.js:476-478 | With signed intermediate results, the word stored is that of section 6.2.2 |
| `Sha256.T1Agrees` | linux/webapp/static/app.js:482 | The first sum of a round |
| `Sha256.T2Agrees` | linux/webapp/static/app.js:483 | The second sum of a round |
| `Sha256.LoadBlock` | linux/webapp/static/app.js:474 | The block's sixteen words, big-endian |
| `Sha256.Extend` | linux/webapp/static/app.js:475-479 | The array in place becomes the whole message schedule |
| `Sha256.MoveDown` | linux/webapp/static/app.js:484 | The eight variables move down by one |
| `Sha256.Mix` | linux/webapp/static/app.js:480-485 | The loop computes the 64 rounds |
| `Sha256.SetUint32` | linux/webapp/static/app.js:469-470 | Four bytes, most significant first; the rest stays |
| `Sha256.LengthWords` | linux/webapp/static/app.js:469-470 | The two words at the end are the 64-bit length in bits |
| `Sha256.Pad` | linux/webapp/static/app.js:463-470 | The buffer is the padded message of section 5.1.1 |
| `Sha256.Accumulate` | linux/webapp/static/app.js:486 | The hash words become their sums mod 2^32 |
| `Sha256.HashBlocks` | linux/webapp/static/app.js:471-487 | The loop over the blocks computes the hash of the whole message |
| `Sha256.PadStartIsDigits` | linux/webapp/static/app.js:488 | A word in base 16, padded to eight places, is its eight digits |
| `Sha256.Sha256Fallback` | linux/webapp/static/app.js:451-489 | For every array of bytes the text is the hexadecimal SHA-256 of FIPS 180-4 |
| `AxiBridge.Clock` | axi_lwh2f_bridge.vhd:97-207 | One clock of the process, its assignments in their order, is the next state |
| `AxiBridge.ClockWrite` | axi_lwh2f_bridge.vhd:108-159 | The write half: what becomes of each signal; a write goes out exactly with address and data taken, with that data, to the register that the address selects |
| `AxiBridge.ClockRead` | axi_lwh2f_bridge.vhd:102-204 | The read half: what becomes of each signal; a request goes out exactly if one waits and the write channel is idle, to the register that the address selects |
| `AxiBridge.RegisterSelects` | axi_lwh2f_bridge.vhd:148 | The register of an address is the one whose 16 bytes hold it, in the low megabyte |
| `AxiBridge.RegisterIs` | axi_lwh2f_bridge.vhd:192 | Every byte of register n, and whatever the address bits above say, is register n |
| `AxiBridge.AlwaysSteady` | axi_lwh2f_bridge.vhd:161-204 | In every run arready mirrors the open read, rvalid belongs to one, and the watchdog runs exactly while one is unanswered |
| `AxiBridge.OneAnswerPerRead` | axi_lwh2f_bridge.vhd:161-204 | Accepted reads, rises of rvalid and handovers match one to one, but for the read still open |
| `AxiBridge.Countdown` | axi_lwh2f_bridge.vhd:167-199 | The watchdog of an unanswered read counts down from seven, under the read's id |
| `AxiBridge.AnsweredInTime` | axi_lwh2f_bridge.vhd:102-199 | Every accepted read has rvalid with its own id within seven clocks, even if nothing replies |
| `AxiBridge.AnswerHolds` | axi_lwh2f_bridge.vhd:178-183 | The answer stays, unchanged, until it is taken, and is then gone |
| `AxiBridge.RvalidHasReadIff` | axi_lwh2f_bridge.vhd:161-204 | In every run without reset, rvalid is only up for an open read exactly if no reply comes to an idle bridge or in the clock of a handover |
| `AxiBridge.StrayRun` | axi_lwh2f_bridge.vhd:178-199 | A run from an idle bridge in which such a reply raises rvalid with no read open |
| `AxiBridge.NoClash` | axi_lwh2f_bridge.vhd:143-193 | No clock puts both a read request and a write on the interconnect |
| `AxiBridge.OwnRequestPending` | axi_lwh2f_bridge.vhd:167-193 | A new read's own request is pending exactly when no older one goes out in the same clock |
| `AxiBridge.RequestWaits` | axi_lwh2f_bridge.vhd:167-193 | While a read waits, its request is pending exactly as long as the write channel was never idle |
| `AxiBridge.AsksOnceIff` | axi_lwh2f_bridge.vhd:167-199 | One read puts exactly one request, for the register that its address selects, on the interconnect before its answer exactly if its request became pending and the write channel left it a clock |
| `AxiBridge.AllAskOnceIff` | axi_lwh2f_bridge.vhd:167-199 | In every run from an idle bridge, all reads do exactly if the write channel leaves each of them a clock |
| `AxiBridge.EachOnceIff` | axi_lwh2f_bridge.vhd:108-159 | In every run without reset, each address taken goes to the interconnect once, as the register it selects and with the data taken at its place, in order, exactly if bready is up whenever a write is complete |
| `AxiBridge.StuckWrite` | axi_lwh2f_bridge.vhd:115-152 | If it is not, that write goes out again in every later clock of the run, whatever the master does |
| `AxiBridge.WrongAnswer` | axi_lwh2f_bridge.vhd:167-199 | A run from an idle bridge in which one does not: the request of a timed-out read goes out in its place, and the reply to that becomes its answer |
| `AxiBridge.RequestGoesOutOnce` | axi_lwh2f_bridge.vhd:185-193 | A pending request goes out once, for the register that the read's address selects |
| `ClockBringup.WaitFsm` | hps/baremetal_lwh2f_regs/clkmgr_bringup.c:287-298 | Ends well exactly when one of the first thousand reads finds the state machine idle, after the first that does |
| `ClockBringup.WaitPllLock` | hps/baremetal_lwh2f_regs/clkmgr_bringup.c:300-320 | Ends well exactly when five consecutive reads among the first thousand find both PLLs locked, after the first five that do |
| `ClockBringup.ClosedUntilLocked` | hps/baremetal_lwh2f_regs/clkmgr_bringup.c:393-487 | In every history of the registers, no bypass bit and no boot mode that was on is off before the wait for the lock has begun and five of its first thousand reads in a row found the PLLs locked |
| `ClockBringup.SetTightens` | hps/baremetal_lwh2f_regs/clkmgr_bringup.c:44 | Setting bits of any register turns no guard bit off |
| `ClockBringup.PdIsElsewhere` | hps/baremetal_lwh2f_regs/clkmgr_bringup.c:383-391 | The PLLs' configuration words touch no guard register |
| `ClockBringup.ClockManager.Bypass` | hps/baremetal_lwh2f_regs/clkmgr_bringup.c:397-405 | Boot mode and every bypass on, or stuck with those on that were reached, as the status stream says |
| `ClockBringup.ClockManager.Sync` | hps/baremetal_lwh2f_regs/clkmgr_bringup.c:383-391 | Both PLLs' configuration words written, the guards as they were |
| `ClockBringup.ClockManager.Program` | hps/baremetal_lwh2f_regs/clkmgr_bringup.c:407-461 | The registers after programming, the guards as they were |
| `ClockBringup.ClockManager.Lock` | hps/baremetal_lwh2f_regs/clkmgr_bringup.c:463-464 | The wait begins here, and ends well exactly as the status stream says |
| `ClockBringup.ClockManager.Finish` | hps/baremetal_lwh2f_regs/clkmgr_bringup.c:407-486 | From the bypassed PLLs to the end: programmed before the wait for the lock begins, released only after it |
| `ClockBringup.ClockManager.Release` | hps/baremetal_lwh2f_regs/clkmgr_bringup.c:466-486 | From the lock on: the registers at the end, and what each failure leaves |
| `ClockBringup.ClockManager.Configure` | hps/baremetal_lwh2f_regs/clkmgr_bringup.c:393-487 | The status stream alone decides the stage in which the sequence ends and the read at which the wait for the lock begins; the PLLs are programmed by then; no guard opens before that wait has seen five locked reads in a row; each failure leaves on what was set, success leaves both bypass masks and boot mode off and the registers as stated |
| `ClockBringup.MainWordsA` | hps/baremetal_lwh2f_regs/clkmgr_bringup.c:407-420 | The main PLL's FDBCK, VCOCALIB and PLLC0 are the handoff's once the tables are through |
| `ClockBringup.MainWordsB` | hps/baremetal_lwh2f_regs/clkmgr_bringup.c:407-420 | Its PLLC1 to PLLC3 |
| `ClockBringup.MainWordsC` | hps/baremetal_lwh2f_regs/clkmgr_bringup.c:407-420 | Its PLLM, and NOCCLK and NOCDIV |
| `ClockBringup.PerWordsA` | hps/baremetal_lwh2f_regs/clkmgr_bringup.c:422-432 | The peripheral PLL's FDBCK, VCOCALIB and PLLC0 |
| `ClockBringup.PerWordsB` | hps/baremetal_lwh2f_regs/clkmgr_bringup.c:422-432 | Its PLLC1 to PLLC3 |
| `ClockBringup.PerWordsC` | hps/baremetal_lwh2f_regs/clkmgr_bringup.c:422-432 | Its PLLM, and EMACCTL and GPIODIV |
| `ClockBringup.AlteraWordsA` | hps/baremetal_lwh2f_regs/clkmgr_bringup.c:434-446 | The counters of the two EMACs and of PTP |
| `ClockBringup.AlteraWordsB` | hps/baremetal_lwh2f_regs/clkmgr_bringup.c:434-446 | Of the GPIO debounce and the two user clocks |
| `ClockBringup.AlteraWordsC` | hps/baremetal_lwh2f_regs/clkmgr_bringup.c:434-446 | Of PSI, USB 3.1 and the DSU |
| `ClockBringup.AlteraWordsD` | hps/baremetal_lwh2f_regs/clkmgr_bringup.c:434-446 | Of the core pairs and of core 2 |
| `ClockBringup.AlteraWordsE` | hps/baremetal_lwh2f_regs/clkmgr_bringup.c:434-446 | Of core 3 |
| `ClockBringup.PllsAreOut` | hps/baremetal_lwh2f_regs/clkmgr_bringup.c:448-449 | Both PLLs have their PLLGLOB words, and are powered and out of reset |
| `ClockBringup.HandoffIsProgrammed` | hps/baremetal_lwh2f_regs/clkmgr_bringup.c:407-461 | From any registers: when the PLLs are programmed all of these are still in place, whatever the PLLs' memories answered, and the counters are enabled |
| `ClockBringup.PdWord` | hps/baremetal_lwh2f_regs/clkmgr_bringup.c:383-391 | Each configuration word is asked for, and then written to the PLL's memory register |
| `ClockBringup.PdFields` | hps/baremetal_lwh2f_regs/clkmgr_bringup.c:353-370 | The written word has its own address, the data under its mask, and what was read elsewhere |
| `ClockBringup.LatchesAreCleared` | hps/baremetal_lwh2f_regs/clkmgr_bringup.c:466-469 | The lost-lock latches of both PLLs are cleared |
| `ClockBringup.FrequenciesAreLeft` | hps/baremetal_lwh2f_regs/clkmgr_bringup.c:471-472 | The clock frequencies are left for the next stage |
| `ClockBringup.CountersRun` | hps/baremetal_lwh2f_regs/clkmgr_bringup.c:482-483 | The lost-lock interrupts are cleared, and the external counters out of reset |

## Left out

- CoreInstall.Step: an I/O error that leaves the process running in the middle of an install is not modelled; a write or rename works or the process is gone.
- CrashPlans.Apply: a copy that has returned counts as durable. The source never syncs the .prev files before it writes and syncs the pending mark, so on a file system that delays data a cut just after the mark could leave a torn .prev, which the recovery would install; this is not modelled.
- CoreInstall.NeverUntested: installs of cores and updates of P1 are two models; their mixing (both write the card and /lib/firmware, under one lock) is not modelled, nor is `setup_slot_firmware`, which points the core files at the running slot's.
- CoreInstall.CheckBundle: tar, gzip and JSON are not modelled; a manifest is its fields or unreadable, and the hash is any function on bytes.
- RsuUpdate.EveryBootWhole: what boots is the model's reading of the design (P1 if bootable, else the factory image; U-Boot and core from the card or from QSPI); the SDM, U-Boot and rsu_client themselves are not modelled, and the reboot, `rsu-confirm` and its watchdog are left out.
- TempControl.HotDieGetsFullFan: the temperature is given; how the board answers to the fan is not modelled, so nothing is said of the temperature that is reached.
- RsuUpdate.Updater.InstallRsu: the reply is the step that failed; steps already listed, times and notes in the reply are left out, and so is the removal of the staging directory, which nothing boots from.
- RegisterAccess.Access.Watchdog: the method is a round that no other thread interrupts, at one time; the snapshot, the test, the removal and the act with other threads between them are steps of the machine. A lease that is removed or released while a load walks the leases to extend them would be an error of Python's; the walk is one step.
- RegisterAccess.Access.Load: the loader's answer and the fabric's registers are parameters; a load that never returns is a run that stays in its phase.
- RegisterAccess.Access.ReadRegister: `read_many` is not a method of its own; its check and its accesses are those of a read. Requests are taken as already parsed.
- TempControl.Controller.Apply: an unknown mode cannot be written down in the model, and the saving of settings is left out; rounding of the setpoint is decimal, not binary.
- FanSafety.Step: a request of a controller that has died does not reach the server later, and of the two registers that a sample reads only the duty counts.
- TempControl.Controller.Sample: status texts, history and the sensors' files are left out.
- TftpTransfer.AlwaysInStep: the client is one of RFC 1350, written for this model; a packet no longer arrives once the server is 65535 or more blocks past it.
- TftpTransfer.ServeFile: the file does not change during the transfer, and the choice of the acknowledged options is a flag.
- TftpOptions.ParseRequest: names and values are characters; UTF-8 decoding and its errors are left out.
- Releases.Base.Install: the archive's checks and its unpacking come before; a release is its name, and the listing by age is a parameter.
- Releases.AlwaysSafe: restarting a dead helper and stopping processes are left out; the link switches of one event are one step there, and one by one in the lemmas about cuts, where `ln -sfn` counts as atomic.
- Releases.EveryTestEnds: the clock is whatever the polls read; that polls come once a second is not modelled, nor that the web server leaves half a second after an install, which is what starts the new release.
- Sha256.Sha256Fallback: asks for fewer than 2^61 bytes, which is the standard's own limit; a JavaScript array is always shorter.
- AxiBridge.OneAnswerPerRead: the register file is any replier that answers only while a read is open; the interconnect package's functions are the fields of `Bus`, and no reset comes during a run.
- AxiBridge.EachOnceIff: an address or data is taken when the process stores it; that is not tied to the master's handshake. The process stores whatever is valid while nothing is under way, also in a clock in which its awready is down.
- ClockBringup.ClockManager.Program: registers hold what was written to them; the values that `calc_pll_vcocalibration` computes and the answers of the PLLs' memory registers are parameters, and the waits in `pll_source_sync_wait`, whose results the code ignores, are left out.
- The serial console, HTTP, sockets, the simulated board and thermal plant, the page's drawing code, deploy tools, LED blinkers, I2C and fan RTL: input and output, simulation, or sources with little state.
