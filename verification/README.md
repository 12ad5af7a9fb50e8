# spin-machine, modelled and proved

spin-machine turns a typed description of a virtual machine into a QEMU command line and into a
fingerprint that says which checkpoints the machine may load. It also drives running VMs over QMP,
times their boots, compares reports of boots, and keeps GitHub issues in step with scan findings.
This project models the logic of those parts and proves what they are for. Each module is one part:

| modules | what they model |
|---|---|
| `Text`, `Records`, `QemuOptions`, `Argv` | decimal and hexadecimal printing, splitting and joining; the record stream a fingerprint hashes; QEMU's option strings and argument list, each with a reader written independently of the printer |
| `Cmdline` | the kernel command line, its printer and its validator |
| `Machine`, `Args`, `Readback`, `Told` | `Spec`, `validate`, `Shape`, the command line, that QEMU reads it as it was meant, and that every part of the spec is found again in what it reads |
| `References`, `Closure`, `BlockGraph` | what QEMU finds on that command line: names, descriptor sets, slots, and the images behind each disk |
| `Contract`, `Fingerprint` | what a checkpoint is bound to, and when two machines have one fingerprint |
| `Console`, `Sorting`, `Percentile` | the streaming console matcher, the percentile and the summary of a row's boots |
| `Report` | the comparer: distance, renames, and which rows a section reports |
| `Findings`, `Issues`, `Reconcile` | an issue's body and the ids read back from it; the plan; what plans do to a tracker over many days |
| `Qemu`, `Qmp`, `Commands`, `Checkpoints` | QEMU as a reactive state machine that may act at any moment; the QMP client; attach and detach; save and restore |
| `Newc`, `CpuShare`, `CallGraph` | the cpio writer, the per-CPU time accountant and the call-path summer |

Code that changes things step by step is a method with loops, or a class with fields, proved against
a function or a predicate on values; the properties are lemmas about that function. `withoutTheVMs`
compacts an `array` it is still reading; `Watch` trims its window in an `array` of fixed size; the QMP
client is a class over a connection that is one too.

A `string` is a sequence of bytes: one `char` stands for one byte. Times are whole microseconds,
nanoseconds or, in a report, reals.

## What turned out to be conditional

These things the code or its comments promise hold only on a condition. Each is proved with the
condition, in both directions, beside an input for which it fails.

- A failed `attach` on a connection that lasts leaves QEMU as it was unless QEMU refuses the device and
  then the rollback's `blockdev-del`, whose error `attach` throws away: then the node it opened, and
  nothing else, stays behind (`Commands.Attach`, `Commands.ARefusedRollback`).
- QEMU reads the whole command line as it was meant unless a monitor's socket path has an `=` before
  its first comma: QEMU takes the beginning of such a path for the name of an option, which doubling
  commas does not prevent, and `validate` looks inside no path (`Readback.CommandLineIsReadBack`,
  `Readback.ASocketMisread`).
- Every chardev named on the command line is defined unless the caller's own `Serial` names one that
  no monitor defines: `validate` looks inside no `Serial` (`Closure.ChardevsResolve`,
  `Closure.ADanglingConsole`).
- An id is read back from the line of an issue it was written into exactly when it is some bytes the
  link pattern takes without the beginning of a link among them (`Findings.LineListsItsId`,
  `Findings.ALinkInsideIsLost`).
- On one CPU `cpuShare` shares out the whole window unless time passes in it while a task called
  `(window)` runs: the window's own total then overwrites that task's share
  (`CpuShare.OneCpuConserves`, `CpuShare.AWindowTaskIsLost`).
- `Percentile` answers the nearest rank exactly for p no greater than one; above that no sample is one
  and it answers the largest (`Percentile.PercentileIsNearestRank`, `Percentile.NoRankAtTwo`).
- `newcArchive` round-trips exactly for names without a NUL that are not `TRAILER!!!`
  (`Newc.ArchiveIsReadBack`, `Newc.ABadNameIsLost`, `Newc.BadNames`).

That the accepted machines the rest is about exist is `Closure.AFullMachine`.

Comments in `kernel/Dockerfile` (lines 4, 323 and 365), `qemu/Dockerfile` (line 3) and `hack/release`
(line 6) still say that a fingerprint hashes binaries by content. The code hashes none, and the model
follows the code: of the BIOS it takes only the size.

## Model

| member | source | states |
|---|---|---|
| Text.ItoaInjective | machine/machine.go:1257-1259 | two integers printed alike in decimal are one integer, negative ones included |
| Text.NumbersAreRead | machine/machine.go:1257-1259 | a number is read back from its digits, in the base it was printed in |
| Records.DecodeEncode | machine/machine.go:1249-1259 | every list of records whose keys hold no `=` is read back from its stream, whatever bytes the values hold |
| Records.EncodeDecode | machine/machine.go:1249-1259 | the reader accepts nothing but such streams: what it reads, written again, is the stream |
| Records.EncodingIsInjective | machine/machine.go:1249-1259 | two lists of records have one stream if and only if they are one list |
| QemuOptions.ParseRender | machine/machine.go:124-130 | splitting at single commas, halving doubled ones and cutting at `=` gives back exactly the options meant, each caller's value intact and no option more |
| QemuOptions.EscapingIsNeeded | machine/machine.go:124-130 | an escaped value is read as the value; written as it is, it is so read exactly when it has no comma |
| Argv.ReadRenderedAll | machine/machine.go:953-994 | QEMU's walk over a flat list of arguments reads every item by itself: no value is taken for a flag, another option or part of one |
| Argv.ReadAsMeant | machine/machine.go:1170-1176 | and what it reads is what was meant if and only if no socket's path has an `=` before its first comma |
| Cmdline.String | machine/cmdline.go:61-212 | the parts appended one after another are the console, quiet, log level, root, the fixed parameters, Extra and init, joined by spaces |
| Cmdline.Validate | machine/cmdline.go:220-237 | accepts exactly the lines whose console, init and root are one token, whose Extra holds no `--` and which are under 2048 bytes; a refusal names the first of the three fields that is not one token, the first element with a `--`, or a length that is too long |
| Cmdline.WhatIsAccepted | machine/cmdline.go:220-247 | byte by byte: no blank, quote or byte between tab and carriage return in the three fields, no `--` that stands by itself in an element, and fewer than 2048 bytes |
| Cmdline.KernelReadsWhatWasMeant | machine/cmdline.go:61-247 | an accepted line, split at the kernel's white space, is the fixed tokens one each, the tokens of each Extra in order, and init last; no token is `--` |
| Cmdline.DashDashIsRefusedExactly | machine/cmdline.go:228-232 | a line hands words to init if and only if an element of Extra holds `--` |
| Cmdline.WordsAreSaid | machine/cmdline.go:61-212 | besides what Extra says, the console, `quiet`, the log level, the root, `ro` or `rw`, and init are each there exactly as often as the caller asked |
| Machine.FDSetTable | machine/machine.go:889-906 | the table holds exactly the ids of the sets, or the first set is refused that has an id seen before, no descriptor, or one below 3 |
| Machine.CheckDisk | machine/machine.go:924-950 | accepts exactly a disk with either a path and a known format or a chain whose images are in given sets, have known formats, and are raw only at the base |
| Machine.Validate | machine/machine.go:804-886 | accepts exactly the specs every part accepts, and the refusal it returns is true of the spec |
| Machine.WhatIsAccepted | machine/machine.go:804-950 | the accepted specs, field by field: ceilings, slots and targets, descriptors above 2, sets given once and not empty and every named one given, MACs as groups of hexadecimal digits, disks as one path or one chain |
| Machine.SmpSays | machine/machine.go:781-792 | two accepted specs have one `-smp` if and only if boot vCPUs and effective ceiling agree |
| Machine.MemorySays | machine/machine.go:794-802 | two accepted specs have one `-m` if and only if memory and effective ceiling agree |
| Machine.CpuSays | machine/machine.go:622-685 | the `-cpu` strings of two models are one if and only if the models are, and the model is what is before the first comma |
| Args.ChainArgs | machine/machine.go:199-257 | the arguments of a chain, built from the base up, are its file and format nodes with their names, descriptor sets and backings |
| Args.AppendDisks | machine/machine.go:1110-1125 | each disk appends its images or its drive and then its device, on its own slot |
| Args.AppendDevices | machine/machine.go:1044-1107 | appends vmgenid, the RNG and the balloon always, and vsock, growth and the hotplug controller exactly when asked for |
| Args.AppendNICs | machine/machine.go:1128-1152 | each NIC appends its backend and its device, with an MTU and a vhost descriptor exactly when given |
| Args.AppendFDSets | machine/machine.go:1189-1202 | every descriptor of every set is added, in order, with its note escaped |
| Args.AppendMonitors | machine/machine.go:1170-1186 | every monitor in order is a socket, or a chardev and a monitor object on it |
| Args.Args | machine/machine.go:953-994 | a spec has a command line exactly when validate accepts it, and it is the rendering of the spec's items in order |
| Readback.CommandLineIsReadBack | machine/machine.go:953-994 | whatever an accepted spec's strings hold, QEMU reads every item by itself; and the whole as it was meant, value for value, if and only if no monitor's socket path has an `=` before its first comma |
| Readback.ASocketMisread | machine/machine.go:1170-1176 | `/a=b` is a socket path that is not read back, and `/a,b=c` one that is |
| Told.FirmwareIsTold | machine/machine.go:953-994 | QEMU reads the firmware's directory, the BIOS, which is `qboot.bin` when none is named, and the sandbox it is to stay in |
| Told.SizesAreTold | machine/machine.go:781-802 | it reads the board, the vCPUs and the memory, each with a ceiling exactly when that is above what the machine boots with |
| Told.CpuIsTold | machine/machine.go:622-685 | it reads the accelerator and the model, `host` under KVM and `max` under TCG when none is named; `migratable=on` follows exactly these two and `enforce=on` exactly every other |
| Told.BootIsTold | machine/machine.go:953-1042 | it reads the kernel, the kernel's command line, and the initrd and the incoming state exactly when there are any |
| Told.DisksAreTold | machine/machine.go:332-345 | of disk i it reads the device with its serial on slot 5 + i, and for a path the drive `blk<i>` with that file and format and with `readonly`, `file.locking` and `cache.direct` each exactly when its own field asks for it |
| Told.NICsAreTold | machine/machine.go:1128-1152 | of NIC i it reads the tap's descriptor, the vhost descriptor and the MTU exactly when given, the MAC, and slot 16 + i |
| Told.DevicesAreTold | machine/machine.go:1044-1107 | it reads the generation id, the RNG and the balloon, and the vsock with its context id and descriptor, the growing memory and the controller exactly when the machine has them, and no device more |
| Told.GrowthIsTold | machine/machine.go:1060-1090 | the memory that can be added is the ceiling less what the machine boots with |
| Told.ConsoleIsTold | machine/machine.go:1155-1168 | the console is the file of its descriptor set, or what the caller said, or none |
| Told.DescriptorMonitorsAreTold | machine/machine.go:1170-1186 | each monitor on a descriptor is a chardev with that descriptor and a monitor on that chardev |
| Told.SocketMonitorsAreTold | machine/machine.go:1170-1186 | each monitor on a socket listens at its path, unless that names an option |
| Told.DescriptorsAreTold | machine/machine.go:1189-1202 | each descriptor of each set is added to that set, with its note exactly when it has one, and none more |
| Closure.NamesResolve | machine/machine.go:1044-1186 | every block node, network backend and memory backend named is defined, and none twice |
| Closure.ChardevsResolve | machine/machine.go:1155-1186 | chardevs are defined once each, and all named are defined if and only if the caller's Serial names none that is missing |
| Closure.EverySetIsAdded | machine/machine.go:1189-1202 | every `/dev/fdset/N` the machine writes has an `-add-fd` with `set=N` |
| Closure.SlotsAreDistinct | machine/machine.go:55-86 | all `addr=` values are pairwise different and between 0x02 and 0x1e |
| Closure.CommandLineIsClosed | machine/machine.go:953-1201 | all of these at once, about what QEMU's reader finds in the arguments themselves |
| Closure.ADanglingConsole | machine/machine.go:1155-1168 | an accepted spec whose console names a chardev nothing defines |
| Closure.AFullMachine | machine/machine.go:804-950 | an accepted spec with a chain, a path, a NIC, a vsock, both kinds of monitor, KVM and console descriptor sets, and both ceilings |
| BlockGraph.ChainsReadBack | machine/machine.go:199-257 | QEMU opens every `-blockdev` in order, and walking the backing from `blk<i>` gives exactly the chain's sets and formats, both nodes read-only below the top and there as the disk says, locked only at the top of a disk that asks for it, past the cache at the top and through it below when it asks for that, ending in null for a base that is not raw and unsaid for a raw one |
| Contract.WithoutTheVMs | machine/machine.go:1355-1364 | compaction into the slice being read leaves the stable filter of the list as it was |
| Contract.Contract | machine/machine.go:1328-1347 | the contract is what the loop finds among the chipset's, devices' and NICs' arguments, and the serial marker exactly when there is a serial port |
| Contract.ContractIsTheCommandLine | machine/machine.go:1312-1347 | for an accepted spec, before the serial marker, it is the globals and devices QEMU reads on the whole command line, in order, without disks' devices and without one VM's properties |
| Fingerprint.ContractSays | machine/machine.go:1312-1347 | for an accepted spec the contract is these lines: three globals, generation id, RNG and balloon, and those of the vsock, the growing memory, the controller, each NIC with its MTU, and the serial port that are there |
| Fingerprint.Fingerprint | machine/machine.go:1246-1306 | of any spec, the bytes hashed are the records of the BIOS size, the shape, the contract and, when what the model has before its first comma is `host`, `max` or left out, the host's CPU, which is asked for only then; it fails only on what it needs and cannot read |
| Fingerprint.SameBytesIffSameHardware | machine/machine.go:1221-1306 | two accepted specs hash the same bytes if and only if they agree on BIOS size, accelerator, CPU model, vCPUs, memory, both effective ceilings, vsock, hotplug and serial present, the NICs' MTUs, and the host CPU when it is shown; nothing else matters |
| Fingerprint.HostCPUMatters | machine/machine.go:1296-1302 | of one machine two hosts hash the same bytes if and only if they have one CPU or the spec names a model other than `host` and `max` |
| Told.HashedIsWhatIsTold | machine/machine.go:1246-1306 | the bytes, read back, are the BIOS size, the very texts QEMU reads under `-machine`, `-cpu`, `-smp` and `-m` with the accelerator's name, the contract line by line, and the host's CPU exactly when it is shown |
| Console.ComputeOverlap | boot/phases.go:193-201 | one byte less than the longest marker of any phase |
| Console.OverlapOfMarkers | boot/phases.go:182-201 | for this package's markers that is 29 |
| Console.PhasesAreShown | boot/phases.go:182-188 | with this package's markers a phase is stamped exactly when the console shows its own: SeaBIOS, the kernel's version, the start of init, systemd's last line, the login |
| Console.Push | boot/phases.go:235-242 | appending to the window is inside the capacity it was made with |
| Console.Trim | boot/phases.go:257-259 | moving the tail down within the one buffer leaves exactly the last overlap bytes |
| Console.Watch | boot/phases.go:231-268 | each phase is stamped with the time of the first read whose whole prefix holds a marker of it; it stops at the first read that completes `until` or ends, and keeps exactly the bytes read |
| Console.StampIsFirst | boot/phases.go:231-268 | a stamp is the time of the read with which the text first shows a marker of the phase |
| Console.WatchEnds | boot/phases.go:231-268 | the last read ends the console or first shows a marker of `until`, and no read before it does |
| Console.CutsDoNotMatter | boot/phases.go:190-201 | two runs that read the same bytes, cut into reads in any two ways and stopped for any reasons, stamp the same phases |
| Console.UntilIsReachedEitherWay | boot/phases.go:231-268 | on the same console cut in any two ways, both runs reach `until` or neither does, and they do exactly when the console holds a marker of it |
| Sorting.SortedIsUnique | boot/phases.go:282-283 | two ordered arrangements of the same elements are one, so a sort is determined by its order |
| Sorting.SortInPlace | boot/phases.go:282-283 | sorting the array in place leaves that arrangement |
| Percentile.Percentile | boot/phases.go:276-289 | there is an answer exactly when there is a sample; for p no greater than one it is the nearest rank by its definition and above one the largest sample; the caller's array is not modified |
| Percentile.PercentileIsNearestRank | boot/phases.go:270-289 | the answer is the least sample with at least p of all samples not above it, if and only if p is at most one |
| Percentile.NoRankAtTwo | boot/phases.go:270-289 | for p of two an answer is given, and no sample is the nearest rank |
| Percentile.PercentileIsMonotone | boot/phases.go:276-289 | it never falls as p grows |
| Percentile.PercentileOfPermutation | boot/phases.go:276-289 | it does not depend on the order of the samples |
| Percentile.Summarise | boot/report.go:87-114 | failed boots and boots reaching Usable add up to the boots; a phase is summarised exactly when some run reached it, by the nearest ranks for a half and for 95 of 100 of its samples, each rounded to hundredths of a millisecond, with P50 no greater than P95 |
| Percentile.SamplesAre | boot/report.go:96-105 | the samples of a phase are the times at which runs reached it, one of each that did |
| Report.Distance | boot/report.go:282-295 | counting up and down and adding the counts without their signs is the size of the two multiset differences, in any order of the table |
| Report.DistanceIsAMetric | boot/report.go:282-295 | zero exactly for equal multisets, symmetric, and within the triangle |
| Report.CheckAxes | boot/report.go:268-278 | two rows have the same axes whichever side is walked |
| Report.Nearest | boot/report.go:229-249 | a row is returned exactly when it is the one eligible row strictly nearer than every other |
| Report.Renames | boot/report.go:210-264 | for unique ids, the map holds exactly the pairs of rows without a namesake that are each the other's strictly nearest |
| Report.RenamedSays | boot/report.go:210-278 | a new row was an old one exactly when neither has a namesake, they choose alike, and every other row without a namesake that chooses like one of them has a command line strictly farther from its own |
| Report.RenamingIsOneToOne | boot/report.go:210-264 | no row is renamed twice |
| Report.RenamingIsInverted | boot/report.go:210-264 | swapping the reports inverts the map |
| Report.RenamingIgnoresOrder | boot/report.go:210-264 | the map depends neither on the order of the rows nor on that of any table |
| Report.Section | boot/report.go:144-197 | the lines are those of the new rows by id and by renaming, in order, and then, unless the report is partial, the old rows nothing accounted for |
| Report.NewRowsAreNew | boot/report.go:156-176 | a new row is called new exactly when it has no namesake and no partner |
| Report.GoneRowsAreGone | boot/report.go:183-190 | an old row is called gone exactly when it has no namesake and no partner |
| Report.RowsHaveOneLine | boot/report.go:152-186 | in a whole section no row has two lines, be they of new rows or of old, and there are as many lines of rows gone as old rows with neither namesake nor partner |
| Report.ChangedRowsAreSaid | boot/report.go:154-180 | a row that carries over by id or by renaming has a line exactly when the comparison with its old one has something to say, and then that is its one line |
| Report.WhatMovedIsSaid | boot/report.go:154-180 | and that line says fingerprint, command line, outcome and time each exactly when that moved, the time by more than the threshold; a row has none exactly when nothing moved and it was not renamed |
| Report.RowsAreConserved | boot/report.go:144-197 | same-id rows are as many on either side, so are renamed rows, and with the new and the gone they are all the rows |
| Findings.Ids | hack/osvissues/main.go:132-140 | every id linked to, leftmost first, each as long as it can be, none inside another |
| Findings.WriteBody | hack/osvissues/main.go:145-164 | the builder's text is the header and one line a finding |
| Findings.BodyIsLines | hack/osvissues/main.go:145-164 | that is the header with the release and each package once, an empty line, and for each finding in order a link under its id and its summary when it has one |
| Findings.BodyListsItsFindings | hack/osvissues/main.go:132-164 | whatever the summaries, the release and the other findings say, an id of bytes the link pattern takes, with no link begun inside it, is read back from the body it was written into |
| Findings.LineListsItsId | hack/osvissues/main.go:132-164 | exactly those ids are read back from their own line: not empty, without a closing parenthesis or white space, and with no link begun inside |
| Findings.ALinkInsideIsLost | hack/osvissues/main.go:132-164 | an id of bytes the pattern takes that begins a link is not |
| Issues.Plan | hack/osvissues/main.go:196-257 | in whatever order issues are listed, the plan deals with each package's newest issue in name order and then closes, in title order, the newest open issues that stand for no finding |
| Issues.PlanIsUnique | hack/osvissues/main.go:196-257 | one tracker and one set of findings have one plan |
| Issues.BeforeSays | hack/osvissues/main.go:206-207 | names are in the order of their first byte that differs, a name before those it begins |
| Reconcile.PlanReconciles | hack/osvissues/main.go:180-257 | carried out, a plan leaves every package with findings with a newest issue open with the wanted body or closed and listing every finding, and no open issue of a package without |
| Reconcile.PlanHolds | hack/osvissues/main.go:196-257 | a plan creates, edits, reopens and closes just these: for a package with findings by its newest issue, as that is missing, open with another body or closed without a finding; and for a name without a space and without findings the newest issue, when it is open |
| Reconcile.StaleIssuesAreClosed | hack/osvissues/main.go:241-255 | carried out, for every name without a space that no finding's package has before its `@`, the newest issue titled `osv: ` and the name is closed |
| Reconcile.EveryFindingIsAnswered | hack/osvissues/main.go:213-240 | for every package with findings, whatever their versions, the newest issue of its one title is open and written from just those, or closed and lists them all |
| Reconcile.OthersAreLeft | hack/osvissues/main.go:241-255 | an issue titled otherwise, or after a name with a space, is as it was, if it is no package's with findings |
| Reconcile.OlderIssuesAreLeft | hack/osvissues/main.go:211-217 | and so is every issue but the newest of its title |
| Reconcile.PlanCanBeCarriedOut | hack/osvissues/main.go:180-257 | every plan can be carried out to its end |
| Reconcile.PlanningAgainDoesNothing | hack/osvissues/main.go:196-257 | and then planning again gives no action |
| Reconcile.ReconciledNeedsNothing | hack/osvissues/main.go:196-257 | a plan is empty if and only if the tracker is reconciled |
| Reconcile.ClosedIsActedOn | hack/osvissues/main.go:227-239 | a closed issue is acted on if and only if it is its package's newest and some finding of the package is not listed in it |
| Reconcile.AnswersAreKept | hack/osvissues/main.go:227-239 | over any runs, some cut short, and closures by hand, no run acts on a closed issue that lists every id the package has |
| Reconcile.ClosedStaysClosed | hack/osvissues/main.go:132-239 | an issue closed while its body was one this command wrote is left alone by every later run whose ids for the package were in that body |
| Qmp.QmpConn.Run | cmd/spin-machine/main.go:828-856 | wherever events fall, the command is sent once and the reply returned is the first read after it, the reply to that command and the next of all QEMU makes; every DEVICE_DELETED read on the way is kept; there is none exactly when the connection failed |
| Qmp.QmpConn.WaitDeleted | cmd/spin-machine/main.go:860-881 | true exactly when the event for its id was read earlier or comes now, and then the device is gone; what it reads is all QEMU said, in order; it stops at that event and reads nothing when it had it already; false only when the stream is at its end with nothing unread |
| Commands.Attach | cmd/spin-machine/main.go:453-485 | whatever QEMU holds and will do, how it ends and the commands it sends are those alone that decide: it fails where a command does, the device is refused exactly when another is there by then under its id or at its target, and only then is the rollback sent; done, there are one node and one device more; failed on a connection that lasts, the state is as it was, but for removals asked for before, if and only if QEMU does not refuse the rollback, and refused, the one node opened is left and nothing else; in every outcome no other node or device is touched |
| Commands.ARefusedRollback | cmd/spin-machine/main.go:479-482 | a state and a choice of answers for which the device and then the rollback are refused, so that the node stays |
| Commands.Detach | cmd/spin-machine/main.go:503-530 | `blockdev-del` is never sent before the report that its own device is gone; how it ends is decided by what QEMU holds and will do: it gives up waiting exactly when QEMU never finishes the removal, and then the device is still there and leaving, and the close fails exactly when QEMU refuses it, the node is not there or another device sits on it by then; done, exactly the node and the device are gone; failed on a connection that lasts, no node is; in every outcome every other device is as it was, but for removals asked for before |
| Commands.WaitIsExact | cmd/spin-machine/main.go:860-881 | waiting for a device that is leaving ends in time if and only if QEMU finishes its removal, while the reply was read or after, and otherwise the device is there still |
| Commands.WaitedIs | cmd/spin-machine/main.go:860-881 | and when it ends in time, of the other devices just those are gone whose removal QEMU finished before this one |
| Commands.DetachUndoesAttach | cmd/spin-machine/main.go:453-530 | attach and then detach restore the state, whatever QEMU finished by itself in between |
| Commands.TargetsAreApart | cmd/spin-machine/main.go:395-396 | two targets share neither a device id nor a node name |
| Checkpoints.WaitMigration | cmd/spin-machine/main.go:712-735 | it asks nothing but `query-migrate`: the first answer of completed, failed or cancelled ends it as that says, any other is asked past while there is time, and after the last it is not in time; it is satisfied exactly when the question is answered completed |
| Checkpoints.Save | cmd/spin-machine/main.go:616-644 | however many answers come before it, a first completed one is followed by `quit`, and a failed or cancelled one or the deadline by nothing; `quit` is sent only after a `query-migrate` was answered completed |
| Checkpoints.Restore | cmd/spin-machine/main.go:664-702 | however many answers come before it, a first completed one is followed by `query-status`, and that by `cont` exactly when it is answered anything but running, while the connection takes it; a failed or cancelled one or the deadline is followed by nothing |
| Newc.Pad | boot/probe_initrd_test.go:58-62 | the buffer is followed by the fewest NULs that reach a multiple of four |
| Newc.NewcArchive | boot/probe_initrd_test.go:56-81 | the buffer is the records of the entries and the trailer |
| Newc.ArchiveIsReadBack | boot/probe_initrd_test.go:56-81 | a reader of the form recovers name, mode, device numbers and data of every entry if and only if every name has no NUL and is not the trailer's; files are numbered in order, a directory has two links and anything else one, the rest of a header is zero, and headers and data are on multiples of four |
| Newc.ABadNameIsLost | boot/probe_initrd_test.go:76-79 | an archive of one entry with a bad name is read as some other list |
| Newc.BadNames | boot/probe_initrd_test.go:76-79 | the trailer's name and one with a NUL at its end are such names |
| CpuShare.CpuShare | boot/cpushare_test.go:121-179 | the walk over the trace answers the time each name had, from the start of the initcall to its finish, or nothing for a trace without both |
| CpuShare.SharesAre | boot/cpushare_test.go:144-152 | each share is the time of all the stretches put to its name |
| CpuShare.SharesAreWhatRan | boot/cpushare_test.go:115-186 | on any number of CPUs the window has its length and every other name the time, inside the window, that each CPU ran what goes by it: its last task switched to, by what is before a slash and by the work item it was on |
| CpuShare.NoWindowNoShares | boot/cpushare_test.go:121-179 | a trace in which no finish follows a start has no shares |
| CpuShare.OneCpuConserves | boot/cpushare_test.go:115-179 | on one CPU in order of time, the shares other than the window's add up to the window if and only if none of it passes while a task called `(window)` runs |
| CpuShare.OneCpuConservesWithoutTheName | boot/cpushare_test.go:115-179 | so they always do when no task of the trace has that name |
| CpuShare.AWindowTaskIsLost | boot/cpushare_test.go:160-164 | a trace of such a task whose shares add up to nothing |
| CpuShare.ATaskMayBeCalledWindow | boot/cpushare_test.go:181-186 | and `(window)` is such a task's name |
| CpuShare.NoCpuIsCountedTwice | boot/cpushare_test.go:121-179 | on any number of CPUs, what is counted of each is disjoint stretches of the window and so no more than the window |
| CallGraph.ParseGraph | boot/graph_test.go:106-131 | pushing, popping and adding line by line is the fold of one step over the trace |
| CallGraph.UnmatchedCloseIsNothing | boot/graph_test.go:115-119 | a close that does not match its CPU's stack changes nothing, anywhere in a trace |
| CallGraph.TotalsAreSums | boot/graph_test.go:102-131 | each path's total is the sum of what each CPU's lines come to alone |
| CallGraph.PathsAreItsCpus | boot/graph_test.go:102-131 | a path has an entry exactly when it has one on some CPU |
| CallGraph.InterleavingsAgree | boot/graph_test.go:102-131 | any two interleavings of the same lines of each CPU come to the same totals |
| CallGraph.ParsedIsWhatRan | boot/graph_test.go:99-131 | for the printed calls of every CPU, however interleaved, each path's total is the time of the calls that were on it |
| CallGraph.LostOpensCostNothing | boot/graph_test.go:116-119 | when the buffer began inside calls, what ran between the closes of those calls is credited in full and the closes with nothing |
| CallGraph.PathsAreStacks | boot/graph_test.go:99-103 | two stacks of names without a slash have one path only if they are one stack |

## Left out

- SHA-256, the JSON text of a `-blockdev` node and Go's regular expressions: proofs are about what is hashed, about nodes as records, and about a scanner written by hand for the one link pattern.
- Processes, sockets, deadlines, clocks and files: what they give is a parameter or a script of what QEMU and the console do.
- Floating-point rounding in `Percentile`, `Summarise` and the traces: reals and whole units.
- UTF-8: a `char` stands for a byte, and a comma is searched for among bytes.
- The kernel's quoting in `next_arg`: a quote in an Extra element is split at its white space like any other text.
- `Cmdline.Profiling`, `HotplugDisk`'s map, the `memory` command, flag parsing and `readFindings`.
- The Markdown of `Diff` and the wording of a section's lines: which rows and which verdicts are reported is modelled, not the text.
- The fixed sentence of an issue's header: `Findings` writes a shorter one, and nothing proved depends on it.
- Issues past the thousandth: `run` lists at most 1000, and a listing in `Issues` is of the whole tracker.
- GitHub changing an issue's body or refusing an action: a run may stop after any action, but an action that is carried out does what it says.
- `hack/releasenotes`, `hack/apklock`, `hack/machinetype`, `boot/fwstages_test.go`, Dockerfiles, Taskfiles and the tests that boot VMs.
- A second client of the same VM's monitors that changes nodes or devices while a command runs: only QEMU itself acts in between.
- Cutting a trace's text into lines and their fields: `CpuShare` and `CallGraph` begin at parsed lines.
- Args.AppendMonitors: a monitor's socket path is text, and whether QEMU can listen on it is not modelled.
- Console.Watch: a console that gives reads for ever without ending or reaching `until` is not modelled, and neither is a reader that breaks the contract of `Read`.
- Closure.ChardevsResolve: of the caller's Serial only the form `chardev:ID` is looked into.
- Commands.Attach: the driver, the read-only flag and the device's serial are not in the model of QEMU's state, only node, device and target.
- Checkpoints.Restore: a reply whose return value does not decode is not modelled; a reply is an error or a value.
- Qmp.QmpConn.Run: any command may fail at QEMU for reasons outside the model, and a failed one has changed nothing; one that answers success has done what it says.
- Percentile.Summarise: the map of phases holds times in nanoseconds, and a summary's milliseconds are whole hundredths.
