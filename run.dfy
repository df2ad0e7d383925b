/** The `run` command: read the runtime bundle, then start this same executable again as the
    `child` command inside fresh namespaces, mapping root inside them onto the invoking user,
    and wait for it. */
module Run {
  import opened Wrappers
  import opened Paths
  import opened Oci
  import opened Util
  import opened Child
  import opened Pull

  // ---------------------------------------------------------------------------------------
  // The clone attributes of the child
  // ---------------------------------------------------------------------------------------

  /** The `CLONE_NEW*` bits of Linux's `clone(2)`. */
  const CloneNewNs: bv64 := 0x0002_0000
  const CloneNewCgroup: bv64 := 0x0200_0000
  const CloneNewUts: bv64 := 0x0400_0000
  const CloneNewIpc: bv64 := 0x0800_0000
  const CloneNewUser: bv64 := 0x1000_0000
  const CloneNewPid: bv64 := 0x2000_0000
  const CloneNewNet: bv64 := 0x4000_0000

  /** The clone bit that asks for a new namespace of the given kind. */
  function CloneFlag(kind: NamespaceType): bv64
  {
    match kind
    case PidNamespace => CloneNewPid
    case NetworkNamespace => CloneNewNet
    case MountNamespace => CloneNewNs
    case IpcNamespace => CloneNewIpc
    case UtsNamespace => CloneNewUts
    case UserNamespace => CloneNewUser
    case CgroupNamespace => CloneNewCgroup
  }

  /** Whether a clone with `flags` gives the child a new namespace of this kind. */
  predicate Creates(flags: bv64, kind: NamespaceType)
  {
    flags & CloneFlag(kind) != 0
  }

  /** The fixed clone flags of the launcher. */
  const Cloneflags: bv64 := CloneNewIpc | CloneNewNet | CloneNewNs | CloneNewPid | CloneNewUser | CloneNewUts

  /** One line of a user namespace's uid or gid map: `size` ids from `containerId` on stand for
      the host ids from `hostId` on. */
  datatype IdMap = IdMap(containerId: int, hostId: int, size: int)

  datatype SysProcAttr = SysProcAttr(cloneflags: bv64, uidMappings: seq<IdMap>, gidMappings: seq<IdMap>)

  /** What `exec.Command` builds: the program, its whole argument vector (the program name first)
      and the clone attributes. The name holds a separator, so it is used as it is. */
  datatype Command = Command(path: string, args: seq<string>, attr: SysProcAttr)

  const SelfExe: string := "/proc/self/exe"
  const ChildVerb: string := "child"

  /** The host id that the container id `id` stands for under `maps` (the first line whose range
      holds it), or None when no line does. */
  function HostIdOf(maps: seq<IdMap>, id: int): Option<int>
  {
    if maps == [] then None
    else if maps[0].containerId <= id < maps[0].containerId + maps[0].size then Some(maps[0].hostId + (id - maps[0].containerId))
    else HostIdOf(maps[1..], id)
  }

  /** The container id under which the host id `id` appears, or None. */
  function ContainerIdOf(maps: seq<IdMap>, id: int): Option<int>
  {
    if maps == [] then None
    else if maps[0].hostId <= id < maps[0].hostId + maps[0].size then Some(maps[0].containerId + (id - maps[0].hostId))
    else ContainerIdOf(maps[1..], id)
  }

  /** The map that remaps the invoking user's id to root inside the new user namespace. */
  function RootMapping(hostId: nat): (maps: seq<IdMap>)
    ensures |maps| == 1
    ensures forall id :: HostIdOf(maps, id) == if id == 0 then Some(hostId) else None
    ensures forall id :: ContainerIdOf(maps, id) == if id == hostId then Some(0) else None
  {
    [IdMap(0, hostId, 1)]
  }

  /** One map line that maps container id 0, and only it, to `hostId` is the root mapping itself:
      the length and meaning stated for the launcher's maps leave no other line possible. */
  lemma RootMappingUnique(maps: seq<IdMap>, hostId: nat)
    requires |maps| == 1
    requires forall id :: HostIdOf(maps, id) == if id == 0 then Some(hostId) else None
    ensures maps == RootMapping(hostId)
  {
    var m := maps[0];
    assert HostIdOf(maps, 0).Some?;
    assert HostIdOf(maps, m.containerId) == Some(m.hostId);
    assert m.containerId == 0;
    assert HostIdOf(maps, m.size - 1).Some?;
    assert m.size == 1;
  }

  /** The re-execution of this program as `child <arg>`, in new IPC, network, mount, PID, user and
      UTS namespaces, with root inside standing for `uid` and `gid` outside and nobody else mapped. */
  function ChildCommand(arg: string, uid: nat, gid: nat): (c: Command)
    ensures c.path == SelfExe && c.args == [SelfExe, ChildVerb, arg]
    ensures c.attr.cloneflags == CloneNewIpc | CloneNewNet | CloneNewNs | CloneNewPid | CloneNewUser | CloneNewUts
    ensures forall kind :: Creates(c.attr.cloneflags, kind) <==> kind != CgroupNamespace
    ensures |c.attr.uidMappings| == 1 && |c.attr.gidMappings| == 1
    ensures forall id :: HostIdOf(c.attr.uidMappings, id) == if id == 0 then Some(uid) else None
    ensures forall id :: HostIdOf(c.attr.gidMappings, id) == if id == 0 then Some(gid) else None
    ensures forall id :: ContainerIdOf(c.attr.uidMappings, id) == if id == uid then Some(0) else None
    ensures forall id :: ContainerIdOf(c.attr.gidMappings, id) == if id == gid then Some(0) else None
  {
    Command(SelfExe, [SelfExe, ChildVerb, arg], SysProcAttr(Cloneflags, RootMapping(uid), RootMapping(gid)))
  }

  // ---------------------------------------------------------------------------------------
  // The command
  // ---------------------------------------------------------------------------------------

  datatype RunError =
    | ConfigFailed(cause: LoadError)
    | CloneFailed(reason: string)
  {
    function Message(): string
    {
      match this
      case ConfigFailed(cause) => cause.Message()
      case CloneFailed(_) => "failed to clone process"
    }
  }

  /** The child process the command started (None: it never got that far) and the error it returns. */
  datatype Launch = Launch(spawned: Option<Command>, err: Option<RunError>)

  /** `run <container-id> <runtime-bundle-path>`: open and decode `<bundle>/config.json`, make
      `<bundle>/rootfs` absolute, then start the child with the rootfs path as its argument.
      `uid` and `gid` are the invoking user's ids; `exit` is what `exec.Run` reports for the
      command (None: it started and exited with status 0, otherwise the error's text). */
  function RunContainer(runtimePath: string, host: Host, uid: nat, gid: nat, exit: Command -> Option<string>): (r: Launch)
    ensures r.spawned.Some? <==> GetConfigAndRootFromRuntimePath(runtimePath, host).err.None?
    ensures r.spawned.None? ==> r.err == Some(ConfigFailed(GetConfigAndRootFromRuntimePath(runtimePath, host).err.value))
    ensures r.spawned.Some? ==>
              && r.spawned.value == ChildCommand(GetConfigAndRootFromRuntimePath(runtimePath, host).rootfsPath, uid, gid)
              && Some(r.spawned.value.args[2]) == RootfsPath(runtimePath, host.getwd)
              && r.err == (if exit(r.spawned.value).None? then None else Some(CloneFailed(exit(r.spawned.value).value)))
  {
    var configPath := Join(runtimePath, ConfigFile);
    if configPath !in host.files then Launch(None, Some(ConfigFailed(OpenFailed(configPath))))
    else if host.decode(host.files[configPath]).None? then Launch(None, Some(ConfigFailed(DecodeFailed(configPath))))
    else
      var rootfsPath := Abs(Join(runtimePath, RootfsFolder), host.getwd);
      if rootfsPath.None? then Launch(None, Some(ConfigFailed(AbsFailed(Join(runtimePath, RootfsFolder)))))
      else
        var command := ChildCommand(rootfsPath.value, uid, gid);
        var status := exit(command);
        Launch(Some(command), if status.None? then None else Some(CloneFailed(status.value)))
  }

  /** The decoded configuration plays no part in the launch: two hosts that hold the same files,
      agree on which of them decode and have the same working directory launch the same child,
      whatever namespaces, mounts or process the configurations declare. */
  lemma LaunchIgnoresConfig(runtimePath: string, h1: Host, h2: Host, uid: nat, gid: nat, exit: Command -> Option<string>)
    requires h1.files == h2.files && h1.getwd == h2.getwd
    requires forall b :: h1.decode(b).None? <==> h2.decode(b).None?
    ensures RunContainer(runtimePath, h1, uid, gid, exit) == RunContainer(runtimePath, h2, uid, gid, exit)
  {
    var configPath := Join(runtimePath, ConfigFile);
    if configPath in h1.files {
      assert h1.decode(h1.files[configPath]).None? == h2.decode(h2.files[configPath]).None?;
    }
  }

  /** The launcher's namespaces against those of the configuration `pull` writes: it creates every
      one of them, and a user namespace besides, which the configuration does not list. */
  lemma LauncherNamespacesAgainstDefault()
    ensures forall i :: 0 <= i < |DefaultNamespaces| ==> Creates(Cloneflags, DefaultNamespaces[i].kind)
    ensures Creates(Cloneflags, UserNamespace)
    ensures forall i :: 0 <= i < |DefaultNamespaces| ==> DefaultNamespaces[i].kind != UserNamespace
    ensures !Creates(Cloneflags, CgroupNamespace)
  {
    var c := ChildCommand("", 0, 0);
    assert c.attr.cloneflags == Cloneflags;
  }

  // ---------------------------------------------------------------------------------------
  // The child's argument
  // ---------------------------------------------------------------------------------------

  /** The child treats its argument as a bundle path, but is given the rootfs path: it reads its
      configuration from `<bundle>/rootfs/config.json`, one directory below the file the launcher
      read, `<bundle>/config.json` (`bundle` being the absolute bundle path). */
  lemma RootfsPathAsBundle(runtimePath: string, getwd: Option<string>)
    requires RootfsPath(runtimePath, getwd).Some?
    ensures Abs(runtimePath, getwd).Some?
    ensures
      var bundle := Abs(runtimePath, getwd).value;
      var arg := RootfsPath(runtimePath, getwd).value;
      && arg == Join(bundle, RootfsFolder)
      && Abs(ConfigPath(runtimePath), getwd) == Some(Join(bundle, ConfigFile))
      && Segments(Join(bundle, ConfigFile)) == Segments(bundle) + [ConfigFile]
      && Segments(ConfigPath(arg)) == Segments(bundle) + [RootfsFolder, ConfigFile]
      && ConfigPath(arg) != Join(bundle, ConfigFile)
  {
    AbsJoin(runtimePath, RootfsFolder, getwd);
    AbsJoin(runtimePath, ConfigFile, getwd);
    NestedConfig(Abs(runtimePath, getwd).value);
  }

  /** The configuration path of `<bundle>/rootfs`, against that of `<bundle>`. */
  lemma NestedConfig(bundle: string)
    ensures Segments(Join(bundle, ConfigFile)) == Segments(bundle) + [ConfigFile]
    ensures Segments(ConfigPath(Join(bundle, RootfsFolder))) == Segments(bundle) + [RootfsFolder, ConfigFile]
    ensures ConfigPath(Join(bundle, RootfsFolder)) != Join(bundle, ConfigFile)
  {
    var inner := Join(bundle, RootfsFolder);
    BundleLayout(bundle, None);
    BundleLayout(inner, None);
    assert Segments(ConfigPath(inner)) == Segments(bundle) + [RootfsFolder] + [ConfigFile];
    assert |Segments(ConfigPath(inner))| != |Segments(Join(bundle, ConfigFile))|;
  }

  /** So the launched child looks for a configuration inside the root file system; when there is
      none it fails to load, before any system call. */
  lemma ChildGivenRootfsPath(runtimePath: string, host: Host, uid: nat, gid: nat, exit: Command -> Option<string>,
                             faults: set<nat>, at: nat)
    ensures
      var r := RunContainer(runtimePath, host, uid, gid, exit);
      r.spawned.Some? ==>
        var arg := r.spawned.value.args[2];
        && Abs(runtimePath, host.getwd).Some?
        && Segments(ConfigPath(arg)) == Segments(Abs(runtimePath, host.getwd).value) + [RootfsFolder, ConfigFile]
        && (ConfigPath(arg) !in host.files ==>
              ChildRun(arg, host, faults, at) == Run([], Some(LoadFailed(OpenFailed(ConfigPath(arg))))))
  {
    var r := RunContainer(runtimePath, host, uid, gid, exit);
    if r.spawned.Some? {
      RootfsPathAsBundle(runtimePath, host.getwd);
    }
  }

  /** `run` as evidently intended: the child is given the bundle path itself. */
  function IntendedRunContainer(runtimePath: string, host: Host, uid: nat, gid: nat, exit: Command -> Option<string>): (r: Launch)
    ensures r.spawned.Some? <==> GetConfigAndRootFromRuntimePath(runtimePath, host).err.None?
    ensures r.spawned.None? ==> r.err == Some(ConfigFailed(GetConfigAndRootFromRuntimePath(runtimePath, host).err.value))
    ensures r.spawned.Some? ==>
              && r.spawned.value == ChildCommand(runtimePath, uid, gid)
              && r.err == (if exit(r.spawned.value).None? then None else Some(CloneFailed(exit(r.spawned.value).value)))
  {
    var loaded := GetConfigAndRootFromRuntimePath(runtimePath, host);
    if loaded.err.Some? then Launch(None, Some(ConfigFailed(loaded.err.value)))
    else
      var command := ChildCommand(runtimePath, uid, gid);
      var status := exit(command);
      Launch(Some(command), if status.None? then None else Some(CloneFailed(status.value)))
  }

  /** With the bundle path passed on, the child loads the configuration the launcher checked and
      the same rootfs path, and carries out that configuration's plan. */
  lemma IntendedChildFollowsBundle(runtimePath: string, host: Host, uid: nat, gid: nat, exit: Command -> Option<string>,
                                   faults: set<nat>, at: nat)
    ensures
      var r := IntendedRunContainer(runtimePath, host, uid, gid, exit);
      var loaded := GetConfigAndRootFromRuntimePath(runtimePath, host);
      r.spawned.Some? ==>
        && GetConfigAndRootFromRuntimePath(r.spawned.value.args[2], host) == loaded
        && loaded.config == host.decode(host.files[ConfigPath(runtimePath)])
        && Some(loaded.rootfsPath) == RootfsPath(runtimePath, host.getwd)
        && ChildRun(r.spawned.value.args[2], host, faults, at) == Execute(Plan(loaded.config.value, loaded.rootfsPath), faults, at)
  {
  }

  /** From `pull` to the container, with the bundle path passed on: the bundle `pull` writes loads,
      and a child that meets no failing call sets the hostname "box", enters the image's working
      directory and executes the image's command, or stops when the image has none. */
  lemma PulledBundleRuns(nodes: Nodes, image: ImageConfig, path: string, version: string,
                         encode: Spec -> Bytes, decode: Bytes -> Option<Spec>, getwd: Option<string>,
                         uid: nat, gid: nat, exit: Command -> Option<string>, at: nat)
    requires GenerateConfig(nodes, Some(image), path, version, encode).err.None?
    requires decode(encode(DefaultSpec(version, image))) == Some(DefaultSpec(version, image))
    requires Abs(Base(path), getwd).Some?
    ensures
      var host := Host(FilesOf(GenerateConfig(nodes, Some(image), path, version, encode).nodes), decode, getwd);
      var r := IntendedRunContainer(path, host, uid, gid, exit);
      && r.spawned.Some?
      && ChildRun(r.spawned.value.args[2], host, {}, at) ==
           Run(SetupCalls(Abs(Base(path), getwd).value)
               + [SethostnameCall("box")]
               + (if image.workingDir != "" then [ChdirCall(image.workingDir)] else [])
               + (if image.cmd == [] then [] else [ExecCall(image.cmd[0], image.cmd, image.env)]),
               if image.cmd == [] then Some(NoProcess) else None)
  {
    var host := Host(FilesOf(GenerateConfig(nodes, Some(image), path, version, encode).nodes), decode, getwd);
    var rootfs := Abs(Base(path), getwd).value;
    PulledBundleLoads(nodes, image, path, version, encode, decode, getwd);
    IntendedChildFollowsBundle(path, host, uid, gid, exit, {}, at);
    DefaultPlanRun(version, image, rootfs, at);
  }

  /** The plan of the default configuration, run without faults. */
  lemma DefaultPlanRun(version: string, image: ImageConfig, rootfs: string, at: nat)
    ensures Execute(Plan(DefaultSpec(version, image), rootfs), {}, at) ==
      Run(SetupCalls(rootfs)
          + [SethostnameCall("box")]
          + (if image.workingDir != "" then [ChdirCall(image.workingDir)] else [])
          + (if image.cmd == [] then [] else [ExecCall(image.cmd[0], image.cmd, image.env)]),
          if image.cmd == [] then Some(NoProcess) else None)
  {
    var config := DefaultSpec(version, image);
    ChildWithoutFaults(config, rootfs, at);
    var cwd := if image.workingDir != "" then [ChdirCall(image.workingDir)] else [];
    var exec := if image.cmd == [] then [] else [ExecCall(image.cmd[0], image.cmd, image.env)];
    assert TailCalls(config) == [SethostnameCall("box")] + (cwd + exec);
    assert SetupCalls(rootfs) + ([SethostnameCall("box")] + (cwd + exec))
        == SetupCalls(rootfs) + [SethostnameCall("box")] + cwd + exec;
  }
}
