# box: a verified model of a toy container runtime

`box` prepares an OCI runtime bundle from a container image (`pull`). Its `run` command, defined
in box/cmd/run.go, runs a container from such a bundle, and the hidden `child` command, defined in
box/cmd/child.go, does the work inside the container. Neither of the two is registered with the
root command (box/cmd/root.go:67-68 adds only `pull` and `create`), so as the program stands
`box run` and the re-execution as `child` end in the command line parser's unknown-command error.
The model describes the two commands as they are defined. `run` re-executes the same program as the hidden `child` command inside
new namespaces. The child makes the mount tree private and bind-mounts the root file system onto
itself. It then pivots into that file system and detaches the old root. Last, it sets the
hostname, changes to the working directory and replaces itself with the container's program.

This project models that core in Dafny and proves properties of the model:

- `paths.dfy` (module `Paths`): Go's lexical `filepath.Clean`, `Join` and `Abs` on Unix. A path
  is read as the kept segments of its `/`-separated fields, and written back out.
- `oci.dfy` (module `Oci`): the part of the OCI runtime configuration that the runtime reads and
  writes.
- `util.dfy` (module `Util`): the mount option translator and the bundle loader. The loader's
  host is a parameter: the readable files, the JSON decoder and the result of `os.Getwd`.
- `child.dfy` (module `Child`): the child command. The class `Kernel` holds the trace of system
  calls and fails the calls whose position is in a fault set. The methods make calls against it
  and are proved against `Execute(Plan(config, rootfs), faults, at)`. That function is a plan of
  fallible steps run up to its first fatal failure.
- `pull.dfy` (module `Pull`): the entry loop of the root file system extraction, as methods on a
  class `Disk` whose `nodes` map stands for the file system. They are proved against recursive
  functions over the layers and their entries. The module also holds the default configuration
  that `pull` writes.
- `run.dfy` (module `Run`): the launcher. It covers the child's command line, the clone flags,
  the uid and gid maps, and the errors of `run`.

`wrappers.dfy` holds `Option`.

## Model

| member | source | states |
|---|---|---|
| Util.ParseMountFlagsAndDataFromOptions | box/cmd/util.go:42-48 | the flag word is 0 and there is no error, for every option list; the data is `OptionData(options)`, each option followed by a comma |
| Util.OptionDataAppend | box/cmd/util.go:43-46 | translating a concatenation concatenates the translations, so input order is kept |
| Util.OptionDataAt | box/cmd/util.go:44-45 | option `i` stands in the data right after the data of the options before it, followed by a comma |
| Util.OptionDataLength | box/cmd/util.go:44-46 | the data's length is the sum of the option lengths plus one comma per option |
| Util.OptionDataShape | box/cmd/util.go:43-47 | the data is empty exactly when there are no options, and otherwise ends with a comma |
| Util.OptionDataRoundTrip | box/cmd/util.go:44-46 | reading the data back as comma-terminated fields gives the options, when no option holds a comma |
| Util.GetConfigAndRootFromRuntimePath | box/cmd/util.go:15-37 | all or nothing: no error exactly when the configuration is returned, and then the rootfs path is `Abs(Join(p, "rootfs"))`; the open error exactly when `Join(p, "config.json")` is missing, the decode error exactly when it is present but does not decode, and the `Abs` error exactly when it decodes but `Abs(Join(p, "rootfs"))` fails; on any error the rootfs path is empty |
| Util.BundleLayout | box/cmd/util.go:18-31 | for every bundle path, the empty one included, the configuration and rootfs paths are the bundle's kept segments plus one name; the rootfs path is rooted and clean when the bundle path or the working directory is rooted |
| Paths.CleanIdempotent | box/cmd/pull.go:96 | `Clean` keeps a path rooted or relative, and cleaning twice is cleaning once |
| Paths.JoinIsClean | box/cmd/pull.go:93 | a joined path is clean |
| Paths.AbsJoin | box/cmd/util.go:31 | for every `p`, the empty path included, making `p/name` absolute is making `p` absolute and then joining `name` onto it |
| Child.Kernel.Invoke | box/cmd/child.go:28-85 | a system call is appended to the trace, and fails exactly when its position is in the fault set |
| Child.ExecuteConcat | box/cmd/child.go:28-87 | running two lists of steps is running the first and, unless it failed, the second from where it stopped |
| Child.MakeRootPrivate | box/cmd/child.go:26-36 | the trace grows by the run of the private remount of `/` (`MS_PRIVATE`/`MS_REC`, 0x40000/0x4000) and the self-bind of the rootfs (`MS_BIND`/`MS_REC`, 0x1000); the error is that run's failure |
| Child.PivotStepsRun | box/cmd/child.go:53-64 | the pivot calls `chdir(rootfs)`, `pivot_root(".", ".")`, `chdir("/")`, `umount(".", MNT_DETACH)` end with the first one that fails, with that call's error |
| Child.PivotIntoRootfs | box/cmd/child.go:50-64 | the trace grows by the run of the pivot steps, and the error is its failure |
| Child.SetHostname | box/cmd/child.go:66-70 | a declared hostname is set, and its failure never ends the run |
| Child.ExecStepsRun | box/cmd/child.go:75-87 | the tail after the hostname: a nil process fails without a call; otherwise the optional `chdir(cwd)` (its failure ends the run), then no arguments ends the run with nothing executed, else the exec, whose failure is the last error |
| Child.StartProcess | box/cmd/child.go:75-87 | the working directory, then the argument check, then `exec(args[0], args, env)`; a nil process is a failure without a call |
| Child.RunPlan | box/cmd/child.go:26-87 | after loading: the trace grows by exactly the run of the plan, the mount loop adds nothing, and the error is the plan's failure |
| Child.EnterContainer | box/cmd/child.go:50-87 | steps 4 to 7 against the kernel equal the run of their steps |
| Child.RunChild | box/cmd/child.go:15-90 | the whole child command: the trace grows by `ChildRun(...)`'s calls, and the outcome is its failure, or replacement by the program |
| Child.ExecuteCompletes | box/cmd/child.go:28-87 | a run has no failure exactly when every step goes through, and then it makes every call of the plan |
| Child.ExecuteStops | box/cmd/child.go:28-87 | a failed run stops at one step: every earlier step went through, the calls are those before it (and its own), and nothing later is called |
| Child.ExecuteCallsPrefix | box/cmd/child.go:28-64 | the calls made are always a prefix of the plan's calls |
| Child.ExecuteFaultsAgree | box/cmd/child.go:69 | failures of calls whose error is discarded change nothing |
| Child.SetupRun | box/cmd/child.go:26-64 | the setup makes at least the private remount, its calls are a prefix of the six setup calls, all six when it succeeds, and it fails only with one of the six setup errors |
| Child.TailShape | box/cmd/child.go:66-87 | after the setup only the hostname, the working directory and the exec are called; the exec is `exec(args[0], args, env)` of a process with arguments |
| Child.ChildLoad | box/cmd/child.go:21-24 | when loading fails no call is made and the failure is the loader's error; otherwise the first call is the private remount of `/` |
| Child.PlanEnd | box/cmd/child.go:77-87 | every step but the last is a system call; the last is the exec, or the nil-process or no-arguments abort |
| Child.PlanHostnameStep | box/cmd/child.go:67-70 | a declared hostname is the seventh step, and its error is discarded |
| Child.ChildMounts | box/cmd/child.go:38-48 | the first six calls are the setup calls, and mount calls appear only as the first two: declared mounts are never mounted |
| Child.ChildArgsCheckAfterPivot | box/cmd/child.go:53-84 | "no process provided" happens only for empty arguments, only after all six setup calls, the hostname call when one is declared and the change to the working directory when one is declared, and never with an exec |
| Child.NoProcessAtEnd | box/cmd/child.go:81-83 | a run that ends for want of arguments has made every call of the plan |
| Child.ChildReplaced | box/cmd/child.go:53-87 | a run that gets through makes the setup calls and then the tail calls, ends with `exec(args[0], args, env)`, and sets the hostname exactly when one is declared |
| Child.ChildWithoutFaults | box/cmd/child.go:15-90 | with no failing call, the run makes every setup and tail call and ends by nil process, by no arguments, or by exec |
| Child.ChildHostnameErrorIgnored | box/cmd/child.go:67-70 | whether `sethostname` fails changes nothing about the run |
| Pull.Disk.MkdirAll | box/cmd/pull.go:104 | an existing directory is kept, another node is an error, otherwise a directory is made |
| Pull.Disk.Create | box/cmd/pull.go:109 | an empty file replaces any node but a directory, which is an error |
| Pull.Disk.Write | box/cmd/pull.go:113 | the written bytes are appended to the open file |
| Pull.Disk.Symlink | box/cmd/pull.go:119 | a link is made where nothing is; any existing node is an error |
| Pull.ExtractEntry | box/cmd/pull.go:93-125 | one entry against the disk: the new nodes and the error are `ApplyEntry`'s (traversal check, then directory, regular file, symbolic link, or nothing) |
| Pull.ExtractLayer | box/cmd/pull.go:77-92 | one layer's entry loop against the disk equals `ApplyLayer`: the entries in order, the first error ends it, and a broken stream is an error |
| Pull.ExtractRootFS | box/cmd/pull.go:68-131 | the layer loop against the disk equals `Extract`: into `Join(path, "rootfs")`, the layers in order, the first error ends it |
| Pull.EntriesStop | box/cmd/pull.go:85-91 | once an entry fails, the later entries change nothing |
| Pull.LayersStop | box/cmd/pull.go:76-80 | once a layer fails, the later layers change nothing |
| Pull.BaseShape | box/cmd/pull.go:69 | the extraction directory is never empty, and its last kept segment is "rootfs" |
| Pull.TargetSegments | box/cmd/pull.go:93 | an entry's target is clean, on the base's side of the root, and its segments are the name's fields read after the base's |
| Pull.InsideNamesAccepted | box/cmd/pull.go:93-98 | a name without a ".." field always passes the traversal check |
| Pull.AcceptedNearBase | box/cmd/pull.go:93-98 | what passes lies in the base's parent directory, in an entry whose name starts with the base's last segment |
| Pull.ClimbOneLevel | box/cmd/pull.go:93-98 | `../other/rest` under `/parent/last` lands at `/parent/other/rest` and passes exactly when `other` starts with `last` |
| Pull.EscapeRejected | box/cmd/pull.go:96-98 | `../etc/passwd` under `/b/rootfs` targets `/b/etc/passwd` and is refused |
| Pull.SiblingAccepted | box/cmd/pull.go:96-98 | `../rootfs2/x` under `/b/rootfs` targets `/b/rootfs2/x` and passes |
| Pull.IntendedAcceptedInside | box/cmd/pull.go:96 | the corrected check passes exactly the targets whose kept segments extend the base's, and it passes nothing the original refuses |
| Pull.IntendedClimbOneLevel | box/cmd/pull.go:96 | under the corrected check `../other/rest` below `/parent/last` passes exactly when `other` is `last` |
| Pull.IntendedRejectsSibling | box/cmd/pull.go:96 | the corrected check refuses `../rootfs2/x` under `/b/rootfs` |
| Pull.EntryEffect | box/cmd/pull.go:93-125 | only the target changes; a refused entry changes nothing and is "invalid file path", and an accepted entry never is; what a directory, regular file or symbolic link entry does, and when it is an error (an existing link is none); an unknown type is skipped |
| Pull.EntriesWriteOnlyTargets | box/cmd/pull.go:84-126 | the entries remove no node, and every node they change is the target of an accepted entry |
| Pull.LayersWriteOnlyTargets | box/cmd/pull.go:76-127 | the same for all the layers' entries |
| Pull.ExtractStaysNearBase | box/cmd/pull.go:68-131 | extraction removes nothing, and every changed path, read lexically, starts with the cleaned base and lies near it |
| Pull.LaterEntryWins | box/cmd/pull.go:84-117 | a later regular file entry leaves exactly its `size` bytes at its target, and a later directory entry a directory |
| Pull.DefaultSpecShape | box/cmd/pull.go:142-267 | args, env and cwd come from the image's Cmd, Env and WorkingDir; user 0:0; identical capability sets; hostname "box"; seven mounts at `/proc`, `/dev`, `/dev/pts`, `/dev/shm`, `/dev/mqueue`, `/sys`, `/sys/fs/cgroup` in that order, each after the mounts above it; the five namespaces pid, net, ipc, uts, mount, without paths and without a user namespace |
| Pull.DefaultMountsShape | box/cmd/pull.go:177-220 | the seven default mount destinations in their order, and no mount listed after one nested under it |
| Pull.DevptsMountData | box/cmd/pull.go:190-195 | the default `/dev/pts` mount's six options give the mount data `nosuid,noexec,newinstance,ptmxmode=0666,mode=0620,gid=5,`: flag words stay in the data |
| Pull.OptionDataSix | box/cmd/util.go:43-46 | six options translate to each option followed by a comma, in order |
| Pull.MountOrder | box/cmd/pull.go:177-220 | a default mount below another comes after it |
| Pull.DefaultSpec | box/cmd/pull.go:142-267 | the record written always has a process, whose arguments are the image's command, and a Linux section (its full shape is `Pull.DefaultSpecShape`) |
| Pull.GenerateConfig | box/cmd/pull.go:133-281 | on an error the disk is as before; on success `<path>/config.json` holds the encoded default configuration of the image |
| Pull.GenerateConfigEffect | box/cmd/pull.go:133-281 | it succeeds exactly when the image configuration is readable and `<path>/config.json` is not a directory; then the only change is that file, holding the encoded default configuration; otherwise nothing changes |
| Pull.PulledBundleLoads | box/cmd/pull.go:270-278 | when the decoder reads back what the encoder wrote, the bundle `pull` writes loads the default configuration and the absolute `<path>/rootfs` |
| Run.RootMapping | box/cmd/run.go:61-74 | exactly one map line; container id 0 stands for the given host id, and no other id is mapped in either direction |
| Run.RootMappingUnique | box/cmd/run.go:61-74 | a single line mapping exactly container id 0 to the host id is `{ContainerID: 0, HostID: id, Size: 1}`, so the launcher's maps are pinned to that line |
| Run.ChildCommand | box/cmd/run.go:48-76 | argv `["/proc/self/exe", "child", arg]`; the clone flag word is exactly the union of `CLONE_NEWIPC`, `CLONE_NEWNET`, `CLONE_NEWNS`, `CLONE_NEWPID`, `CLONE_NEWUSER` and `CLONE_NEWUTS`, with no other bit, so new namespaces of every kind but cgroup; the uid and gid maps have one line each, root inside is the invoking uid and gid, and nobody else is mapped |
| Run.RunContainer | box/cmd/run.go:19-83 | a child is started exactly when the bundle loads as `GetConfigAndRootFromRuntimePath` loads it, and otherwise the error is the loader's; the child's argument is the rootfs path; a failed run is "failed to clone process" with its reason |
| Run.LaunchIgnoresConfig | box/cmd/run.go:27-38 | the launch does not depend on what the configuration declares, only on whether it decodes |
| Run.LauncherNamespacesAgainstDefault | box/cmd/run.go:59 | the launcher creates every namespace of `pull`'s configuration plus a user namespace, which that configuration does not list, and no cgroup namespace |
| Run.RootfsPathAsBundle | box/cmd/run.go:41-48 | the child's argument is `<bundle>/rootfs`, so its configuration path is `<bundle>/rootfs/config.json`, not the launcher's `<bundle>/config.json` |
| Run.NestedConfig | box/cmd/run.go:48 | the configuration path of `<bundle>/rootfs` has the kept segments of `<bundle>` plus `rootfs` and `config.json` |
| Run.ChildGivenRootfsPath | box/cmd/run.go:48 | the launched child looks for its configuration inside the root file system, and without one it fails to load before any system call |
| Run.IntendedRunContainer | box/cmd/run.go:48 | the corrected launcher passes the bundle path; otherwise it starts, reports and fails as `run` does |
| Run.IntendedChildFollowsBundle | box/cmd/run.go:48 | with the corrected argument the child loads the configuration the launcher checked and the same rootfs path, and carries out that plan |
| Run.PulledBundleRuns | box/cmd/run.go:41-80 | `pull`'s bundle run through the corrected launcher, with no failing call: setup calls, hostname "box", the image's working directory, then exec of the image's command (or no-process when it has none) |

The operations follow the code as written. The corrected launcher `Run.IntendedRunContainer` is
what `Run.PulledBundleRuns` builds on. The corrected traversal check `Pull.IntendedAccepted`
stands beside the check as written.

## Behaviour worth noting

The model follows the code in each case.

- The launcher opens and decodes the configuration under `// read config` (box/cmd/run.go:26-38)
  but reads none of its fields. The clone flags at box/cmd/run.go:53-59 are a fixed set,
  whatever `linux.namespaces` holds, and an empty namespace list is not rejected
  (`Run.LaunchIgnoresConfig`, `Run.LauncherNamespacesAgainstDefault`).
- `ParseMountFlagsAndDataFromOptions` is documented (box/cmd/util.go:39-41) as converting mount
  options into the flags and data of the mount call. Its loop recognises no flag word: the flags
  are 0 and every option goes into the data, `nosuid` and `noexec` included
  (`Util.ParseMountFlagsAndDataFromOptions`; `Pull.DevptsMountData` for the default devpts mount).
- The child's steps are numbered in its comments. The check that the process has arguments
  ("no process provided by OCI config", box/cmd/child.go:82-84) sits in step 7, after steps 1
  to 4 have remounted `/`, bound the rootfs, pivoted and changed directory
  (`Child.ChildArgsCheckAfterPivot`).
- Step 3, "create other mounts from the OCI config" (box/cmd/child.go:38-48), translates each
  mount's options, but its mount call is commented out, so no declared mount is mounted
  (`Child.ChildMounts`).
- The child reads `config.Process.Cwd` (box/cmd/child.go:77) without checking that `Process` is
  set. A configuration without a process ends in a nil dereference, modelled as the failure
  `NilProcess`.
- The default configuration takes the process arguments from the image's `Cmd`
  (box/cmd/pull.go:147). The image's `Entrypoint` is never read.
- The child's usage line is `child runtime-bundle-path` (box/cmd/child.go:12), and it loads
  `<argument>/config.json`. The launcher passes it the rootfs path (box/cmd/run.go:48), not the
  bundle path (first finding below).

## Left out

- Registry access, the media type check and layer decompression are not modelled. The layer list
  is a parameter (None: it could not be listed), and a layer may be `Unreadable`.
- The tar reader is not modelled. A layer is the sequence of entries it returns, plus whether the
  stream broke after them. Go's tar reader turns the old regular-file type flag into
  `TypeReg`/`TypeDir` before the switch; the model dispatches on the flag as delivered.
- JSON encoding and decoding are not modelled: they are the parameters `encode` and `decode`.
- System calls have no kernel semantics. They are recorded in `Kernel.trace`, and the fault set
  says which fail. There is no errno, and the model keeps only each Go error text's own prefix.
  The chdir errors, which Go returns unwrapped, get the label "chdir failed".
- `os.Getwd` (used by `filepath.Abs`), `os.Getuid`, `os.Getgid` and what `exec.Run` reports
  (`exit`) are parameters. The child's exit status is not tied to its modelled run.
- The standard stream wiring of the child (box/cmd/run.go:49-51), the `defer Close` calls, log
  lines and stdout messages are not modelled. Neither are cobra's argument count checks or the
  container id, which is only logged.
- create.go, root.go and log.go are not part of this model. They are command wiring, a config
  decode and logging. The wiring leaves `run` and `child` unregistered (box/cmd/root.go:67-68);
  the model does not capture that, and treats both commands as reachable.
- File modes, permission bits and ownership are not modelled.
- The fake disk is a map from full path strings to nodes. `os.MkdirAll` does not create parent
  directories in it. Creating a file whose parent is missing is no error, and symbolic links on
  the way to a target are not followed. The one-to-one path map cannot show a real extraction
  writing through a link.
- Pull.Disk.MkdirAll: Go follows a symbolic link at the target itself, so `os.MkdirAll` on an
  existing link to a directory succeeds and keeps the link. The model reports "not a directory".
- Pull.Disk.Create: Go's `OpenFile` with `O_CREATE|O_TRUNC` follows a link at the target and
  truncates (or fails on) what it points to. The model replaces the link by an empty file.
- The fake disk has no errors beyond a directory in the way, a non-directory in the way, and an
  existing node at a link's path. Permission errors and full disks are out.
- Namespaces and their teardown, `clone` itself and the parent waiting on the child (process-level
  concurrency) are not modelled.

## Findings

| source | as written | input that shows it | evidently intended | confidence | as-written member | corrected member |
|---|---|---|---|---|---|---|
| box/cmd/run.go:48 | the child is started with the absolute rootfs path as its only argument, and the child (box/cmd/child.go:16-21) loads a bundle from that argument | bundle `/b`: the child is given `/b/rootfs`, looks for `/b/rootfs/config.json` and would bind `/b/rootfs/rootfs`; a bundle written by `pull` has no such file unless the image holds `/config.json`, so the child fails to load | pass the bundle path itself, so that the child loads the configuration the launcher checked | high; not executed | Run.ChildGivenRootfsPath | Run.IntendedChildFollowsBundle |
| box/cmd/pull.go:96 | the traversal check is a string prefix test of the target against the cleaned base | base `/b/rootfs`, entry `../rootfs2/x`: target `/b/rootfs2/x` passes and is written outside the root file system | the target is the cleaned base itself or starts with it followed by a separator | high; not executed | Pull.SiblingAccepted | Pull.IntendedAcceptedInside |
