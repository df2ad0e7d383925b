/** The part of the OCI runtime configuration (`specs.Spec`) that the runtime reads or writes.
    Pointer fields of the Go structs (`Process`, `Capabilities`, `Linux`) are `Option`s, since a
    decoded configuration may leave them nil. */
module Oci {
  import opened Wrappers

  newtype byte = x: int | 0 <= x < 256

  type Bytes = seq<byte>

  /** The kinds of Linux namespace `specs.LinuxNamespaceType` names. */
  datatype NamespaceType = PidNamespace | NetworkNamespace | MountNamespace | IpcNamespace
                         | UtsNamespace | UserNamespace | CgroupNamespace

  datatype LinuxNamespace = LinuxNamespace(kind: NamespaceType, path: string)

  /** One declared mount: where, what kind, from what, with which option strings. */
  datatype Mount = Mount(destination: string, fstype: string, source: string, options: seq<string>)

  datatype User = User(uid: nat, gid: nat)

  datatype LinuxCapabilities = LinuxCapabilities(bounding: seq<string>, permitted: seq<string>, effective: seq<string>)

  datatype PosixRlimit = PosixRlimit(kind: string, hard: nat, soft: nat)

  datatype Process = Process(
    terminal: bool,
    user: User,
    args: seq<string>,
    env: seq<string>,
    cwd: string,
    noNewPrivileges: bool,
    capabilities: Option<LinuxCapabilities>,
    rlimits: seq<PosixRlimit>)

  datatype LinuxDeviceCgroup = LinuxDeviceCgroup(allow: bool, access: string)

  datatype Linux = Linux(
    maskedPaths: seq<string>,
    readonlyPaths: seq<string>,
    devices: seq<LinuxDeviceCgroup>,
    namespaces: seq<LinuxNamespace>)

  datatype Spec = Spec(
    version: string,
    process: Option<Process>,
    hostname: string,
    mounts: seq<Mount>,
    linux: Option<Linux>)
}
