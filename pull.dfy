/** The `pull` command's two local steps: unpacking the image's layers into `<bundle>/rootfs`, and
    writing the default runtime configuration to `<bundle>/config.json`. Fetching the image from a
    registry and reading its tar streams are outside the model: a layer is given as the headers
    and bodies its tar reader would return. The disk is a map from cleaned paths to nodes. */
module Pull {
  import opened Wrappers
  import opened Paths
  import opened Oci
  import opened Util

  // ---------------------------------------------------------------------------------------
  // Image layers
  // ---------------------------------------------------------------------------------------

  /** The tar type flags the extraction distinguishes: '0', '2' and '5'. */
  const TypeReg: byte := 48
  const TypeSymlink: byte := 50
  const TypeDir: byte := 53

  /** One tar entry: its header fields (name, type flag, size, link target) and the bytes the
      reader has available after the header. */
  datatype Entry = Entry(name: string, typeflag: byte, size: nat, linkname: string, body: Bytes)

  /** A layer's uncompressed tar stream: the entries `Next` returns, and whether `Next` then fails
      (the stream is cut off or corrupt) rather than reporting the end of the archive. */
  datatype Archive = Archive(entries: seq<Entry>, truncated: bool)

  /** A layer whose stream could not be uncompressed, or its archive. */
  datatype Layer = Unreadable | Readable(archive: Archive)

  // ---------------------------------------------------------------------------------------
  // The disk
  // ---------------------------------------------------------------------------------------

  datatype Node = Dir | File(content: Bytes) | Link(target: string)

  type Nodes = map<string, Node>

  datatype FsError = IsADirectory | NotADirectory | AlreadyExists

  /** The nodes after a file-system call, and its error. */
  datatype FsStep = FsStep(nodes: Nodes, err: Option<FsError>)

  /** `os.MkdirAll`: nothing to do for an existing directory, an error for another node. */
  function MkdirAllOn(nodes: Nodes, path: string): FsStep
  {
    if path in nodes && nodes[path].Dir? then FsStep(nodes, None)
    else if path in nodes then FsStep(nodes, Some(NotADirectory))
    else FsStep(nodes[path := Dir], None)
  }

  /** `os.OpenFile` with create and truncate: an empty file, unless a directory is in the way. */
  function CreateOn(nodes: Nodes, path: string): FsStep
  {
    if path in nodes && nodes[path].Dir? then FsStep(nodes, Some(IsADirectory))
    else FsStep(nodes[path := File([])], None)
  }

  /** Writing to an open file appends to its content. */
  function WriteOn(nodes: Nodes, path: string, bytes: Bytes): Nodes
    requires path in nodes && nodes[path].File?
  {
    nodes[path := File(nodes[path].content + bytes)]
  }

  /** `os.Symlink`: refused when anything exists at the path. */
  function SymlinkOn(nodes: Nodes, linkname: string, path: string): FsStep
  {
    if path in nodes then FsStep(nodes, Some(AlreadyExists)) else FsStep(nodes[path := Link(linkname)], None)
  }

  /** The disk the extraction writes to; each method is one `os` call. */
  class Disk {
    var nodes: Nodes

    constructor (nodes: Nodes)
      ensures this.nodes == nodes
    {
      this.nodes := nodes;
    }

    method MkdirAll(path: string) returns (err: Option<FsError>)
      modifies this
      ensures FsStep(nodes, err) == MkdirAllOn(old(nodes), path)
    {
      if path in nodes && nodes[path].Dir? {
        err := None;
      } else if path in nodes {
        err := Some(NotADirectory);
      } else {
        nodes := nodes[path := Dir];
        err := None;
      }
    }

    method Create(path: string) returns (err: Option<FsError>)
      modifies this
      ensures FsStep(nodes, err) == CreateOn(old(nodes), path)
    {
      if path in nodes && nodes[path].Dir? {
        err := Some(IsADirectory);
      } else {
        nodes := nodes[path := File([])];
        err := None;
      }
    }

    method Write(path: string, bytes: Bytes)
      requires path in nodes && nodes[path].File?
      modifies this
      ensures nodes == WriteOn(old(nodes), path, bytes)
    {
      nodes := nodes[path := File(nodes[path].content + bytes)];
    }

    method Symlink(linkname: string, path: string) returns (err: Option<FsError>)
      modifies this
      ensures FsStep(nodes, err) == SymlinkOn(old(nodes), linkname, path)
    {
      if path in nodes {
        err := Some(AlreadyExists);
      } else {
        nodes := nodes[path := Link(linkname)];
        err := None;
      }
    }
  }

  // ---------------------------------------------------------------------------------------
  // Extraction, as functions
  // ---------------------------------------------------------------------------------------

  datatype ExtractError =
    | LayersFailed
    | UncompressFailed
    | ReadFailed
    | InvalidFilePath(name: string)
    | FsFailed(cause: FsError, path: string)
    | CopyFailed(path: string)

  /** The disk after some extraction, and the error that stopped it (None: it ran to the end). */
  datatype Applied = Applied(nodes: Nodes, err: Option<ExtractError>)

  /** Where an entry is written. */
  function Target(base: string, e: Entry): string
  {
    Join(base, e.name)
  }

  /** The path-traversal check: the target must start with the cleaned base, as strings. */
  predicate Accepted(base: string, e: Entry)
  {
    Clean(base) <= Target(base, e)
  }

  /** The bytes `io.CopyN` moves from the entry into the file: `size` of them, or all there are. */
  function Copied(e: Entry): Bytes
  {
    if e.size <= |e.body| then e.body[..e.size] else e.body
  }

  /** One entry: the traversal check, then by type flag a directory, a regular file, a symbolic
      link (one that already exists is no error), or nothing. */
  function ApplyEntry(nodes: Nodes, base: string, e: Entry): Applied
  {
    var target := Target(base, e);
    if !Accepted(base, e) then Applied(nodes, Some(InvalidFilePath(e.name)))
    else if e.typeflag == TypeDir then
      var s := MkdirAllOn(nodes, target);
      Applied(s.nodes, if s.err.Some? then Some(FsFailed(s.err.value, target)) else None)
    else if e.typeflag == TypeReg then
      var s := CreateOn(nodes, target);
      if s.err.Some? then Applied(s.nodes, Some(FsFailed(s.err.value, target)))
      else Applied(WriteOn(s.nodes, target, Copied(e)), if e.size <= |e.body| then None else Some(CopyFailed(target)))
    else if e.typeflag == TypeSymlink then
      var s := SymlinkOn(nodes, e.linkname, target);
      Applied(s.nodes, if s.err.Some? && s.err.value != AlreadyExists then Some(FsFailed(s.err.value, target)) else None)
    else Applied(nodes, None)
  }

  /** The entries in order, stopping at the first error. */
  function ApplyEntries(nodes: Nodes, base: string, entries: seq<Entry>): Applied
    decreases |entries|
  {
    if entries == [] then Applied(nodes, None)
    else
      var r := ApplyEntries(nodes, base, entries[..|entries| - 1]);
      if r.err.Some? then r else ApplyEntry(r.nodes, base, entries[|entries| - 1])
  }

  /** One layer: its entries, then the end of its stream. */
  function ApplyLayer(nodes: Nodes, base: string, layer: Layer): Applied
  {
    match layer
    case Unreadable => Applied(nodes, Some(UncompressFailed))
    case Readable(archive) =>
      var r := ApplyEntries(nodes, base, archive.entries);
      if r.err.None? && archive.truncated then Applied(r.nodes, Some(ReadFailed)) else r
  }

  /** The layers in order, stopping at the first error. */
  function ApplyLayers(nodes: Nodes, base: string, layers: seq<Layer>): Applied
    decreases |layers|
  {
    if layers == [] then Applied(nodes, None)
    else
      var r := ApplyLayers(nodes, base, layers[..|layers| - 1]);
      if r.err.Some? then r else ApplyLayer(r.nodes, base, layers[|layers| - 1])
  }

  /** The directory the layers are unpacked into. */
  function Base(path: string): string
  {
    Join(path, RootfsFolder)
  }

  /** `extractRootFS`: the image's layers (None: they could not be listed) into `<path>/rootfs`. */
  function Extract(nodes: Nodes, layers: Option<seq<Layer>>, path: string): Applied
  {
    if layers.None? then Applied(nodes, Some(LayersFailed))
    else ApplyLayers(nodes, Base(path), layers.value)
  }

  // ---------------------------------------------------------------------------------------
  // Extraction against the disk
  // ---------------------------------------------------------------------------------------

  /** Once some entries have failed, the later ones change nothing. */
  lemma {:induction false} EntriesStop(nodes: Nodes, base: string, entries: seq<Entry>, k: nat)
    requires k <= |entries|
    requires ApplyEntries(nodes, base, entries[..k]).err.Some?
    ensures ApplyEntries(nodes, base, entries) == ApplyEntries(nodes, base, entries[..k])
    decreases |entries|
  {
    if k < |entries| {
      var front := entries[..|entries| - 1];
      assert front[..k] == entries[..k];
      EntriesStop(nodes, base, front, k);
    } else {
      assert entries[..k] == entries;
    }
  }

  /** Once some layers have failed, the later ones change nothing. */
  lemma {:induction false} LayersStop(nodes: Nodes, base: string, layers: seq<Layer>, k: nat)
    requires k <= |layers|
    requires ApplyLayers(nodes, base, layers[..k]).err.Some?
    ensures ApplyLayers(nodes, base, layers) == ApplyLayers(nodes, base, layers[..k])
    decreases |layers|
  {
    if k < |layers| {
      var front := layers[..|layers| - 1];
      assert front[..k] == layers[..k];
      LayersStop(nodes, base, front, k);
    } else {
      assert layers[..k] == layers;
    }
  }

  /** One entry against the disk: the body of the loop over a layer's entries. */
  method ExtractEntry(disk: Disk, base: string, e: Entry) returns (err: Option<ExtractError>)
    modifies disk
    ensures Applied(disk.nodes, err) == ApplyEntry(old(disk.nodes), base, e)
  {
    var target := Join(base, e.name);

    // refuse a target that does not start with the cleaned base
    if !(Clean(base) <= target) {
      return Some(InvalidFilePath(e.name));
    }

    if e.typeflag == TypeDir {
      var fsErr := disk.MkdirAll(target);
      if fsErr.Some? {
        return Some(FsFailed(fsErr.value, target));
      }
    } else if e.typeflag == TypeReg {
      var fsErr := disk.Create(target);
      if fsErr.Some? {
        return Some(FsFailed(fsErr.value, target));
      }
      disk.Write(target, Copied(e));
      if e.size > |e.body| {
        return Some(CopyFailed(target));
      }
    } else if e.typeflag == TypeSymlink {
      var fsErr := disk.Symlink(e.linkname, target);
      if fsErr.Some? && fsErr.value != AlreadyExists {
        return Some(FsFailed(fsErr.value, target));
      }
    }
    // any other type flag: the entry is ignored
    return None;
  }

  /** One layer against the disk: uncompress it, then read and extract its entries. */
  method ExtractLayer(disk: Disk, base: string, layer: Layer) returns (err: Option<ExtractError>)
    modifies disk
    ensures Applied(disk.nodes, err) == ApplyLayer(old(disk.nodes), base, layer)
  {
    if layer.Unreadable? {
      return Some(UncompressFailed);
    }
    ghost var before := disk.nodes;
    var entries := layer.archive.entries;
    for j := 0 to |entries|
      invariant Applied(disk.nodes, None) == ApplyEntries(before, base, entries[..j])
    {
      assert entries[..j + 1][..j] == entries[..j];
      err := ExtractEntry(disk, base, entries[j]);
      if err.Some? {
        EntriesStop(before, base, entries, j + 1);
        return;
      }
    }
    assert entries[..|entries|] == entries;
    if layer.archive.truncated {
      return Some(ReadFailed);
    }
    return None;
  }

  /** `extractRootFS` against the disk: every layer, every entry, stopping at the first error. */
  method ExtractRootFS(disk: Disk, layers: Option<seq<Layer>>, path: string) returns (err: Option<ExtractError>)
    modifies disk
    ensures Applied(disk.nodes, err) == Extract(old(disk.nodes), layers, path)
  {
    var base := Join(path, RootfsFolder);
    if layers.None? {
      return Some(LayersFailed);
    }
    var ls := layers.value;
    ghost var start := disk.nodes;
    for i := 0 to |ls|
      invariant Applied(disk.nodes, None) == ApplyLayers(start, base, ls[..i])
    {
      assert ls[..i + 1][..i] == ls[..i];
      err := ExtractLayer(disk, base, ls[i]);
      if err.Some? {
        LayersStop(start, base, ls, i + 1);
        return;
      }
    }
    assert ls[..|ls|] == ls;
    return None;
  }

  // ---------------------------------------------------------------------------------------
  // The path-traversal check
  // ---------------------------------------------------------------------------------------

  /** The extraction directory always keeps at least one segment, "rootfs" last. */
  lemma BaseShape(path: string)
    ensures Base(path) != ""
    ensures Segments(Base(path)) != [] && Segments(Base(path))[|Segments(Base(path))| - 1] == RootfsFolder
  {
    if path != "" {
      BundleLayout(path, None);
      JoinName(path, RootfsFolder);
    } else {
      SplitSepFree(RootfsFolder);
      assert Segments(RootfsFolder) == [RootfsFolder];
      assert Base(path) == RootfsFolder;
    }
  }

  /** Where an entry lands, in segments: the base's kept segments, then the entry name's fields
      cleaned on top of them. */
  lemma TargetSegments(base: string, e: Entry)
    requires base != ""
    ensures Normal(IsAbs(base), Segments(Target(base, e)))
    ensures IsAbs(Target(base, e)) == IsAbs(base)
    ensures Target(base, e) == Render(IsAbs(base), Segments(Target(base, e)))
    ensures Segments(Target(base, e)) == Fold(IsAbs(base), Segments(base), Split(e.name))
  {
    var r := IsAbs(base);
    var f := Fold(r, Segments(base), Split(e.name));
    JoinSegments(base, e.name);
    SegmentsNormal(base);
    FoldNormal(r, Segments(base), Split(e.name));
    RenderSegments(r, f);
  }

  /** Kept segments `t` inside the parent of the directory with segments `b`, in an entry whose name
      starts with the name of that directory. */
  predicate NearBase(b: seq<string>, t: seq<string>)
  {
    b != [] && |t| >= |b| && b[..|b| - 1] == t[..|b| - 1] && b[|b| - 1] <= t[|b| - 1]
  }

  /** A name without a ".." field always passes the check. */
  lemma InsideNamesAccepted(base: string, e: Entry)
    requires base != "" && Segments(base) != []
    requires forall i :: 0 <= i < |Split(e.name)| ==> Split(e.name)[i] != ".."
    ensures Accepted(base, e)
  {
    TargetSegments(base, e);
    FoldExtends(IsAbs(base), Segments(base), Split(e.name));
    RenderPrefix(IsAbs(base), Segments(base), Segments(Target(base, e)));
  }

  /** What the check lets through: a target on the same side of the root as the base, inside the
      base's parent directory, in a directory whose name starts with the base's own last segment.
      That is the base itself and everything below it, but also siblings such as "rootfs2". */
  lemma AcceptedNearBase(base: string, e: Entry)
    requires base != "" && Segments(base) != []
    requires Accepted(base, e)
    ensures IsAbs(Target(base, e)) == IsAbs(base)
    ensures NearBase(Segments(base), Segments(Target(base, e)))
  {
    TargetSegments(base, e);
    SegmentsNormal(base);
    RenderPrefixInv(IsAbs(base), Segments(base), Segments(Target(base, e)));
  }

  /** Splitting a path of three separator-free fields. */
  lemma SplitThree(x: string, y: string, z: string)
    requires Sep !in x && Sep !in y && Sep !in z
    ensures Split(x + [Sep] + y + [Sep] + z) == [x, y, z]
  {
    SplitConcat(x, y + [Sep] + z);
    SplitConcat(y, z);
    SplitSepFree(x);
    SplitSepFree(y);
    SplitSepFree(z);
    assert x + [Sep] + y + [Sep] + z == x + [Sep] + (y + [Sep] + z);
  }

  /** The rooted path `/parent/last` keeps both segments and is clean. */
  lemma TwoLevels(parent: string, last: string)
    requires PlainName(parent) && PlainName(last)
    ensures
      var base := [Sep] + parent + [Sep] + last;
      IsAbs(base) && Segments(base) == [parent, last] && Clean(base) == base
  {
    var base := [Sep] + parent + [Sep] + last;
    SplitThree("", parent, last);
    assert "" + [Sep] + parent + [Sep] + last == base;
    var segs := ["", parent, last];
    assert segs[1..] == [parent, last] && segs[1..][1..] == [last] && segs[1..][1..][1..] == [];
    assert IsAbs(base);
    assert Step(true, [], "") == [] && Step(true, [], parent) == [parent] && Step(true, [parent], last) == [parent, last];
    assert Fold(true, [parent], [last]) == [parent, last];
    assert Fold(true, [], segs[1..]) == [parent, last];
    JoinWithCons(parent, [last]);
  }

  /** The entry `../other/rest` under `/parent/last` lands at `/parent/other/rest`. */
  lemma ClimbTarget(parent: string, last: string, other: string, rest: string)
    requires PlainName(parent) && PlainName(last) && PlainName(other) && PlainName(rest)
    ensures
      var t := Target([Sep] + parent + [Sep] + last, Entry(".." + [Sep] + other + [Sep] + rest, TypeReg, 0, "", []));
      t == [Sep] + parent + [Sep] + other + [Sep] + rest && Segments(t) == [parent, other, rest]
  {
    var base := [Sep] + parent + [Sep] + last;
    var name := ".." + [Sep] + other + [Sep] + rest;
    TwoLevels(parent, last);
    SplitThree("..", other, rest);
    ClimbFold(parent, last, other, rest);
    JoinSegments(base, name);
    JoinWithCons(parent, [other, rest]);
    JoinWithCons(other, [rest]);
    TargetSegments(base, Entry(name, TypeReg, 0, "", []));
  }

  /** Cleaning `parent/last` followed by `../other/rest` keeps `parent/other/rest`. */
  lemma ClimbFold(parent: string, last: string, other: string, rest: string)
    requires PlainName(parent) && PlainName(last) && PlainName(other) && PlainName(rest)
    ensures Fold(true, [parent, last], ["..", other, rest]) == [parent, other, rest]
  {
    var fields := ["..", other, rest];
    assert fields[1..] == [other, rest] && fields[1..][1..] == [rest] && fields[1..][1..][1..] == [];
    assert Step(true, [parent, last], "..") == [parent];
    assert Step(true, [parent], other) == [parent, other] && Step(true, [parent, other], rest) == [parent, other, rest];
    assert Fold(true, [parent, other], [rest]) == [parent, other, rest];
    assert Fold(true, [parent], fields[1..]) == [parent, other, rest];
  }

  /** The base `/parent/last` and the entry `../other/rest`: the target is `/parent/other/rest`,
      and it passes the check exactly when `other` starts with `last`. */
  lemma ClimbOneLevel(parent: string, last: string, other: string, rest: string)
    requires PlainName(parent) && PlainName(last) && PlainName(other) && PlainName(rest)
    ensures
      var base := [Sep] + parent + [Sep] + last;
      var e := Entry(".." + [Sep] + other + [Sep] + rest, TypeReg, 0, "", []);
      && Target(base, e) == [Sep] + parent + [Sep] + other + [Sep] + rest
      && (Accepted(base, e) <==> last <= other)
  {
    var base := [Sep] + parent + [Sep] + last;
    var e := Entry(".." + [Sep] + other + [Sep] + rest, TypeReg, 0, "", []);
    var target := [Sep] + parent + [Sep] + other + [Sep] + rest;
    TwoLevels(parent, last);
    ClimbTarget(parent, last, other, rest);
    if last <= other {
      assert base == target[..|base|];
    } else {
      if Accepted(base, e) {
        AcceptedNearBase(base, e);
        assert false;
      }
    }
  }

  /** A name that climbs out of the extraction directory into another is refused. */
  lemma EscapeRejected()
    ensures Target("/b/rootfs", Entry("../etc/passwd", TypeReg, 0, "", [])) == "/b/etc/passwd"
    ensures !Accepted("/b/rootfs", Entry("../etc/passwd", TypeReg, 0, "", []))
  {
    ClimbOneLevel("b", "rootfs", "etc", "passwd");
    assert [Sep] + "b" + [Sep] + "rootfs" == "/b/rootfs";
    assert ".." + [Sep] + "etc" + [Sep] + "passwd" == "../etc/passwd";
    assert [Sep] + "b" + [Sep] + "etc" + [Sep] + "passwd" == "/b/etc/passwd";
    assert !("rootfs" <= "etc");
  }

  /** A name that climbs into a sibling directory whose name extends "rootfs" passes. */
  lemma SiblingAccepted()
    ensures Target("/b/rootfs", Entry("../rootfs2/x", TypeReg, 0, "", [])) == "/b/rootfs2/x"
    ensures Accepted("/b/rootfs", Entry("../rootfs2/x", TypeReg, 0, "", []))
  {
    ClimbOneLevel("b", "rootfs", "rootfs2", "x");
    assert [Sep] + "b" + [Sep] + "rootfs" == "/b/rootfs";
    assert ".." + [Sep] + "rootfs2" + [Sep] + "x" == "../rootfs2/x";
    assert [Sep] + "b" + [Sep] + "rootfs2" + [Sep] + "x" == "/b/rootfs2/x";
    assert "rootfs" <= "rootfs2";
  }

  /** The traversal check as evidently intended: the target is the cleaned base itself, or
      continues it after a separator. */
  predicate IntendedAccepted(base: string, e: Entry)
  {
    Target(base, e) == Clean(base) || Clean(base) + [Sep] <= Target(base, e)
  }

  /** The intended check lets through exactly the targets whose kept segments extend the base's:
      the base and everything below it, and no sibling. It only ever narrows the check as written. */
  lemma IntendedAcceptedInside(base: string, e: Entry)
    requires base != "" && Segments(base) != []
    ensures IntendedAccepted(base, e) <==> Segments(base) <= Segments(Target(base, e))
    ensures IntendedAccepted(base, e) ==> Accepted(base, e)
  {
    TargetSegments(base, e);
    SegmentsNormal(base);
    RenderBelow(IsAbs(base), Segments(base), Segments(Target(base, e)));
    if IntendedAccepted(base, e) && Target(base, e) != Clean(base) {
      assert (Clean(base) + [Sep])[..|Clean(base)|] == Clean(base);
    }
  }

  /** Under the intended check, `../other/rest` below `/parent/last` passes only when it climbs
      back into `last` itself. */
  lemma IntendedClimbOneLevel(parent: string, last: string, other: string, rest: string)
    requires PlainName(parent) && PlainName(last) && PlainName(other) && PlainName(rest)
    ensures
      var base := [Sep] + parent + [Sep] + last;
      var e := Entry(".." + [Sep] + other + [Sep] + rest, TypeReg, 0, "", []);
      IntendedAccepted(base, e) <==> last == other
  {
    var base := [Sep] + parent + [Sep] + last;
    var e := Entry(".." + [Sep] + other + [Sep] + rest, TypeReg, 0, "", []);
    TwoLevels(parent, last);
    ClimbTarget(parent, last, other, rest);
    IntendedAcceptedInside(base, e);
    var b, t := [parent, last], [parent, other, rest];
    if b <= t {
      assert b[1] == t[1];
    }
    if last == other {
      assert t[..2] == b;
    }
  }

  /** The sibling directory that the check as written lets through is refused by the intended one. */
  lemma IntendedRejectsSibling()
    ensures !IntendedAccepted("/b/rootfs", Entry("../rootfs2/x", TypeReg, 0, "", []))
  {
    IntendedClimbOneLevel("b", "rootfs", "rootfs2", "x");
    assert [Sep] + "b" + [Sep] + "rootfs" == "/b/rootfs";
    assert ".." + [Sep] + "rootfs2" + [Sep] + "x" == "../rootfs2/x";
  }

  // ---------------------------------------------------------------------------------------
  // What extraction does to the disk
  // ---------------------------------------------------------------------------------------

  /** What one entry does: only its target can change; a refused entry changes nothing, whatever
      its type; a directory entry makes a directory unless another node is there; a regular file
      entry replaces any node but a directory with the copied bytes; a symbolic link entry adds
      the link where nothing is, and an existing node is left alone without an error; any other
      type is ignored. */
  lemma EntryEffect(nodes: Nodes, base: string, e: Entry)
    ensures
      var r, t := ApplyEntry(nodes, base, e), Target(base, e);
      && (forall k :: k in nodes ==> k in r.nodes)
      && (forall k :: k in r.nodes && k != t ==> k in nodes && r.nodes[k] == nodes[k])
      && (!Accepted(base, e) ==> r == Applied(nodes, Some(InvalidFilePath(e.name))))
      && (Accepted(base, e) ==> !(r.err.Some? && r.err.value.InvalidFilePath?))
      && (Accepted(base, e) && e.typeflag == TypeDir ==>
            && (r.err.None? <==> t !in nodes || nodes[t].Dir?)
            && (r.err.None? ==> r.nodes[t] == Dir)
            && (r.err.Some? ==> r.nodes == nodes))
      && (Accepted(base, e) && e.typeflag == TypeReg ==>
            if t in nodes && nodes[t].Dir? then r == Applied(nodes, Some(FsFailed(IsADirectory, t)))
            else r.nodes[t] == File(Copied(e)) && (r.err.None? <==> e.size <= |e.body|))
      && (Accepted(base, e) && e.typeflag == TypeSymlink ==>
            && r.err.None?
            && (t in nodes ==> r.nodes == nodes)
            && (t !in nodes ==> r.nodes[t] == Link(e.linkname)))
      && (Accepted(base, e) && e.typeflag != TypeDir && e.typeflag != TypeReg && e.typeflag != TypeSymlink ==>
            r == Applied(nodes, None))
  {
  }

  /** The keys of `before` are all still in `after`, and every key whose node changed is the
      target of one of the accepted `entries`. */
  predicate ChangedOnlyAt(before: Nodes, after: Nodes, base: string, entries: seq<Entry>)
  {
    && (forall k :: k in before ==> k in after)
    && (forall k :: k in after && (k !in before || after[k] != before[k]) ==>
          exists i :: 0 <= i < |entries| && Accepted(base, entries[i]) && Target(base, entries[i]) == k)
  }

  /** Extracting entries writes only at the targets of entries that passed the check. */
  lemma {:induction false} EntriesWriteOnlyTargets(nodes: Nodes, base: string, entries: seq<Entry>)
    ensures ChangedOnlyAt(nodes, ApplyEntries(nodes, base, entries).nodes, base, entries)
    decreases |entries|
  {
    if entries != [] {
      var n := |entries|;
      var front, e := entries[..n - 1], entries[n - 1];
      EntriesWriteOnlyTargets(nodes, base, front);
      var r0 := ApplyEntries(nodes, base, front);
      var r := ApplyEntries(nodes, base, entries);
      forall i | 0 <= i < |front|
        ensures entries[i] == front[i]
      {
      }
      if r0.err.None? {
        EntryEffect(r0.nodes, base, e);
        forall k | k in r.nodes && (k !in nodes || r.nodes[k] != nodes[k])
          ensures exists i :: 0 <= i < |entries| && Accepted(base, entries[i]) && Target(base, entries[i]) == k
        {
          if k == Target(base, e) && Accepted(base, e) {
            assert Accepted(base, entries[n - 1]) && Target(base, entries[n - 1]) == k;
          } else {
            assert k in r0.nodes && r.nodes[k] == r0.nodes[k];
            var i :| 0 <= i < |front| && Accepted(base, front[i]) && Target(base, front[i]) == k;
            assert entries[i] == front[i];
          }
        }
      }
    }
  }

  /** The entries of the readable layers, in order. */
  function LayerEntries(layers: seq<Layer>): seq<Entry>
    decreases |layers|
  {
    if layers == [] then []
    else
      var last := layers[|layers| - 1];
      LayerEntries(layers[..|layers| - 1]) + (if last.Readable? then last.archive.entries else [])
  }

  /** Changes at the targets of `pre`, then at those of `post`, are changes at the targets of both. */
  lemma ChangedCompose(n0: Nodes, n1: Nodes, n2: Nodes, base: string, pre: seq<Entry>, post: seq<Entry>)
    requires ChangedOnlyAt(n0, n1, base, pre) && ChangedOnlyAt(n1, n2, base, post)
    ensures ChangedOnlyAt(n0, n2, base, pre + post)
  {
    var all := pre + post;
    forall k | k in n2 && (k !in n0 || n2[k] != n0[k])
      ensures exists i :: 0 <= i < |all| && Accepted(base, all[i]) && Target(base, all[i]) == k
    {
      if k !in n1 || n2[k] != n1[k] {
        var j :| 0 <= j < |post| && Accepted(base, post[j]) && Target(base, post[j]) == k;
        assert all[|pre| + j] == post[j];
      } else {
        var i :| 0 <= i < |pre| && Accepted(base, pre[i]) && Target(base, pre[i]) == k;
        assert all[i] == pre[i];
      }
    }
  }

  /** The same for whole layers: only targets of accepted entries of the layers change. */
  lemma {:induction false} LayersWriteOnlyTargets(nodes: Nodes, base: string, layers: seq<Layer>)
    ensures ChangedOnlyAt(nodes, ApplyLayers(nodes, base, layers).nodes, base, LayerEntries(layers))
    decreases |layers|
  {
    if layers != [] {
      var n := |layers|;
      var front, last := layers[..n - 1], layers[n - 1];
      LayersWriteOnlyTargets(nodes, base, front);
      var r0 := ApplyLayers(nodes, base, front);
      var es := if last.Readable? then last.archive.entries else [];
      assert LayerEntries(layers) == LayerEntries(front) + es;
      if r0.err.None? {
        LayerWritesOnlyTargets(r0.nodes, base, last);
      } else {
        NothingChanged(r0.nodes, base, es);
      }
      ChangedCompose(nodes, r0.nodes, ApplyLayers(nodes, base, layers).nodes, base, LayerEntries(front), es);
    }
  }

  /** One layer changes only targets of its own accepted entries. */
  lemma LayerWritesOnlyTargets(nodes: Nodes, base: string, layer: Layer)
    ensures ChangedOnlyAt(nodes, ApplyLayer(nodes, base, layer).nodes, base, if layer.Readable? then layer.archive.entries else [])
  {
    if layer.Readable? {
      EntriesWriteOnlyTargets(nodes, base, layer.archive.entries);
    } else {
      NothingChanged(nodes, base, []);
    }
  }

  lemma NothingChanged(nodes: Nodes, base: string, entries: seq<Entry>)
    ensures ChangedOnlyAt(nodes, nodes, base, entries)
  {
  }

  /** Whatever the layers hold, extraction changes only paths that, read lexically (links on the
      way are not followed), start with the cleaned
      extraction directory and lie in its parent, in an entry whose name starts with "rootfs";
      it never removes a path. */
  lemma ExtractStaysNearBase(nodes: Nodes, layers: Option<seq<Layer>>, path: string)
    ensures
      var r, base := Extract(nodes, layers, path), Base(path);
      && (forall k :: k in nodes ==> k in r.nodes)
      && (forall k :: k in r.nodes && (k !in nodes || r.nodes[k] != nodes[k]) ==>
            && Clean(base) <= k
            && IsAbs(k) == IsAbs(base)
            && NearBase(Segments(base), Segments(k)))
  {
    var base := Base(path);
    BaseShape(path);
    if layers.Some? {
      var r := Extract(nodes, layers, path);
      LayersWriteOnlyTargets(nodes, base, layers.value);
      var all := LayerEntries(layers.value);
      forall k | k in r.nodes && (k !in nodes || r.nodes[k] != nodes[k])
        ensures Clean(base) <= k && IsAbs(k) == IsAbs(base) && NearBase(Segments(base), Segments(k))
      {
        var i :| 0 <= i < |all| && Accepted(base, all[i]) && Target(base, all[i]) == k;
        AcceptedNearBase(base, all[i]);
      }
    }
  }

  /** Later entries overwrite earlier ones: after an entry list that ends with a regular file
      and ran without error, that file holds exactly the entry's bytes, whatever came before;
      after one that ends with a directory, a directory is there. */
  lemma LaterEntryWins(nodes: Nodes, base: string, entries: seq<Entry>, e: Entry)
    ensures
      var r, t := ApplyEntries(nodes, base, entries + [e]), Target(base, e);
      && (r.err.None? && e.typeflag == TypeReg ==> t in r.nodes && r.nodes[t] == File(e.body[..e.size]))
      && (r.err.None? && e.typeflag == TypeDir ==> t in r.nodes && r.nodes[t] == Dir)
  {
    var all := entries + [e];
    assert all[..|all| - 1] == entries && all[|all| - 1] == e;
    var r0 := ApplyEntries(nodes, base, entries);
    if r0.err.None? {
      EntryEffect(r0.nodes, base, e);
    }
  }

  // ---------------------------------------------------------------------------------------
  // The default runtime configuration
  // ---------------------------------------------------------------------------------------

  /** What the configuration takes from the image's own configuration. */
  datatype ImageConfig = ImageConfig(entrypoint: seq<string>, cmd: seq<string>, env: seq<string>, workingDir: string)

  const Capabilities: seq<string> := ["CAP_AUDIT_WRITE", "CAP_KILL", "CAP_NET_BIND_SERVICE"]

  const DefaultMounts: seq<Mount> := [
    Mount("/proc", "proc", "proc", []),
    Mount("/dev", "tmpfs", "tmpfs", ["nosuid", "strictatime", "mode=755", "size=65536k"]),
    Mount("/dev/pts", "devpts", "devpts", ["nosuid", "noexec", "newinstance", "ptmxmode=0666", "mode=0620", "gid=5"]),
    Mount("/dev/shm", "tmpfs", "shm", ["nosuid", "noexec", "nodev", "mode=1777", "size=65536k"]),
    Mount("/dev/mqueue", "mqueue", "mqueue", ["nosuid", "noexec", "nodev"]),
    Mount("/sys", "sysfs", "sysfs", ["nosuid", "noexec", "nodev", "ro"]),
    Mount("/sys/fs/cgroup", "cgroup", "cgroup", ["nosuid", "noexec", "nodev", "relatime", "ro"])
  ]

  const MaskedPaths: seq<string> := [
    "/proc/acpi", "/proc/asound", "/proc/kcore", "/proc/keys", "/proc/latency_stats",
    "/proc/timer_list", "/proc/timer_stats", "/proc/sched_debug", "/sys/firmware", "/proc/scsi"
  ]

  const ReadonlyPaths: seq<string> := ["/proc/bus", "/proc/fs", "/proc/irq", "/proc/sys", "/proc/sysrq-trigger"]

  const DefaultNamespaces: seq<LinuxNamespace> := [
    LinuxNamespace(PidNamespace, ""), LinuxNamespace(NetworkNamespace, ""), LinuxNamespace(IpcNamespace, ""),
    LinuxNamespace(UtsNamespace, ""), LinuxNamespace(MountNamespace, "")
  ]

  /** The configuration record `generateConfig` builds; `version` is the runtime-spec version the
      program is built against. */
  function DefaultSpec(version: string, image: ImageConfig): (s: Spec)
    ensures s.process.Some? && s.linux.Some?
    ensures s.process.value.args == image.cmd
  {
    Spec(
      version,
      Some(Process(
        true,
        User(0, 0),
        image.cmd,
        image.env,
        image.workingDir,
        true,
        Some(LinuxCapabilities(Capabilities, Capabilities, Capabilities)),
        [PosixRlimit("RLIMIT_NOFILE", 1024, 1024)])),
      "box",
      DefaultMounts,
      Some(Linux(MaskedPaths, ReadonlyPaths, [LinuxDeviceCgroup(false, "rwm")], DefaultNamespaces)))
  }

  /** Path `p` lies strictly below directory `d`. */
  predicate Below(p: string, d: string)
  {
    d + [Sep] <= p
  }

  /** The default configuration: the process runs the image's command (its entrypoint is not
      used) with the image's environment and working directory, as root, with one capability set
      used for all three lists; the hostname is "box"; the seven mounts come in order with every
      mount point after the mount points above it; the namespaces are pid, network, ipc, uts and
      mount, and there is no user namespace. */
  lemma DefaultSpecShape(version: string, image: ImageConfig)
    ensures
      var s := DefaultSpec(version, image);
      && s.version == version
      && s.process.Some?
      && s.process.value.args == image.cmd
      && s.process.value.env == image.env
      && s.process.value.cwd == image.workingDir
      && s.process.value.user == User(0, 0)
      && s.process.value.capabilities == Some(LinuxCapabilities(Capabilities, Capabilities, Capabilities))
      && s.hostname == "box"
      && |s.mounts| == 7
      && [s.mounts[0].destination, s.mounts[1].destination, s.mounts[2].destination, s.mounts[3].destination,
          s.mounts[4].destination, s.mounts[5].destination, s.mounts[6].destination]
         == ["/proc", "/dev", "/dev/pts", "/dev/shm", "/dev/mqueue", "/sys", "/sys/fs/cgroup"]
      && (forall i, j :: 0 <= i < |s.mounts| && 0 <= j < |s.mounts| && Below(s.mounts[i].destination, s.mounts[j].destination) ==> j < i)
      && s.linux.Some?
      && |s.linux.value.namespaces| == 5
      && (forall i :: 0 <= i < 5 ==> s.linux.value.namespaces[i].path == "")
      && [s.linux.value.namespaces[0].kind, s.linux.value.namespaces[1].kind, s.linux.value.namespaces[2].kind,
          s.linux.value.namespaces[3].kind, s.linux.value.namespaces[4].kind]
         == [PidNamespace, NetworkNamespace, IpcNamespace, UtsNamespace, MountNamespace]
      && (forall i :: 0 <= i < 5 ==> s.linux.value.namespaces[i].kind != UserNamespace)
  {
    var s := DefaultSpec(version, image);
    assert s.mounts == DefaultMounts;
    assert s.linux.value.namespaces == DefaultNamespaces;
    DefaultMountsShape();
  }

  /** The data the child hands to mount(2) for the default devpts mount: all six options, flag
      words such as `nosuid` and `newinstance` included, each followed by a comma. */
  lemma DevptsMountData()
    ensures DefaultMounts[2].destination == "/dev/pts"
    ensures OptionData(DefaultMounts[2].options) ==
              "nosuid," + "noexec," + "newinstance," + "ptmxmode=0666," + "mode=0620," + "gid=5,"
  {
    assert DefaultMounts[2].options == ["nosuid", "noexec", "newinstance", "ptmxmode=0666", "mode=0620", "gid=5"];
    OptionDataSix("nosuid", "noexec", "newinstance", "ptmxmode=0666", "mode=0620", "gid=5");
    assert "nosuid" + "," == "nosuid," && "noexec" + "," == "noexec," && "newinstance" + "," == "newinstance,";
    assert "ptmxmode=0666" + "," == "ptmxmode=0666," && "mode=0620" + "," == "mode=0620," && "gid=5" + "," == "gid=5,";
  }

  /** Six options, each written out and followed by a comma. */
  lemma OptionDataSix(a: string, b: string, c: string, d: string, e: string, f: string)
    ensures OptionData([a, b, c, d, e, f]) == (a + ",") + (b + ",") + (c + ",") + (d + ",") + (e + ",") + (f + ",")
  {
    var x1, x2, x3, x4, x5, x6 := a + ",", b + ",", c + ",", d + ",", e + ",", f + ",";
    assert [f][1..] == [] && x6 + "" == x6;
    assert OptionData([f]) == x6;
    assert [e, f][1..] == [f];
    assert OptionData([e, f]) == x5 + x6;
    assert [d, e, f][1..] == [e, f];
    Paths.ConcatAssoc(x4, x5, x6);
    assert OptionData([d, e, f]) == x4 + x5 + x6;
    assert [c, d, e, f][1..] == [d, e, f];
    Paths.ConcatAssoc(x3, x4 + x5, x6);
    Paths.ConcatAssoc(x3, x4, x5);
    assert OptionData([c, d, e, f]) == x3 + x4 + x5 + x6;
    assert [b, c, d, e, f][1..] == [c, d, e, f];
    Paths.ConcatAssoc(x2, x3 + x4 + x5, x6);
    Paths.ConcatAssoc(x2, x3 + x4, x5);
    Paths.ConcatAssoc(x2, x3, x4);
    assert OptionData([b, c, d, e, f]) == x2 + x3 + x4 + x5 + x6;
    assert [a, b, c, d, e, f][1..] == [b, c, d, e, f];
    Paths.ConcatAssoc(x1, x2 + x3 + x4 + x5, x6);
    Paths.ConcatAssoc(x1, x2 + x3 + x4, x5);
    Paths.ConcatAssoc(x1, x2 + x3, x4);
    Paths.ConcatAssoc(x1, x2, x3);
  }

  /** The seven default mounts, by destination, each listed before the mounts nested under it. */
  lemma DefaultMountsShape()
    ensures |DefaultMounts| == 7
    ensures [DefaultMounts[0].destination, DefaultMounts[1].destination, DefaultMounts[2].destination, DefaultMounts[3].destination,
             DefaultMounts[4].destination, DefaultMounts[5].destination, DefaultMounts[6].destination]
            == ["/proc", "/dev", "/dev/pts", "/dev/shm", "/dev/mqueue", "/sys", "/sys/fs/cgroup"]
    ensures forall i, j :: 0 <= i < |DefaultMounts| && 0 <= j < |DefaultMounts| && Below(DefaultMounts[i].destination, DefaultMounts[j].destination) ==> j < i
  {
    var m := DefaultMounts;
    forall i, j | 0 <= i < |m| && 0 <= j < |m| && Below(m[i].destination, m[j].destination)
      ensures j < i
    {
      MountOrder(i, j);
    }
  }

  /** The mount-point order, pair by pair: a mount point is never below one that comes later or
      below itself. */
  lemma MountOrder(i: nat, j: nat)
    requires i < 7 && j < 7
    ensures Below(DefaultMounts[i].destination, DefaultMounts[j].destination) ==> j < i
  {
    var p, d := DefaultMounts[i].destination, DefaultMounts[j].destination;
    if j >= i && |d| + 1 <= |p| {
      // only these later mount points are short enough to be parents, and each differs from
      // the deeper one in its second character
      assert (i, j) in {(0, 1), (0, 5), (2, 5), (3, 5), (4, 5)};
      assert (d + [Sep])[1] == d[1] != p[1];
    }
  }

  // ---------------------------------------------------------------------------------------
  // Writing the configuration
  // ---------------------------------------------------------------------------------------

  datatype ConfigError = ImageConfigFailed | CreateConfigFailed(cause: FsError)

  /** The disk after writing the configuration, and the error (None: it was written). */
  datatype Written = Written(nodes: Nodes, err: Option<ConfigError>)

  /** `generateConfig`: the image's configuration (None: it could not be read), then
      `<path>/config.json` created and filled with the default configuration as `encode` writes it
      out. The JSON encoder is a parameter; encoding this record cannot fail. */
  function GenerateConfig(nodes: Nodes, image: Option<ImageConfig>, path: string, version: string, encode: Spec -> Bytes): (r: Written)
    ensures r.err.Some? ==> r.nodes == nodes
    ensures r.err.None? ==>
              image.Some? && ConfigPath(path) in r.nodes && r.nodes[ConfigPath(path)] == File(encode(DefaultSpec(version, image.value)))
  {
    var configPath := ConfigPath(path);
    if image.None? then Written(nodes, Some(ImageConfigFailed))
    else
      var s := CreateOn(nodes, configPath);
      if s.err.Some? then Written(nodes, Some(CreateConfigFailed(s.err.value)))
      else
        var bytes := encode(DefaultSpec(version, image.value));
        assert [] + bytes == bytes;
        Written(WriteOn(s.nodes, configPath, bytes), None)
  }

  /** The configuration is written exactly when the image's configuration is readable and no
      directory is in the way; then `config.json` holds the encoded default configuration and
      nothing else changes, and otherwise the disk is untouched. */
  lemma GenerateConfigEffect(nodes: Nodes, image: Option<ImageConfig>, path: string, version: string, encode: Spec -> Bytes)
    ensures
      var r, c := GenerateConfig(nodes, image, path, version, encode), ConfigPath(path);
      && (r.err.None? <==> image.Some? && !(c in nodes && nodes[c].Dir?))
      && (image.None? ==> r.err == Some(ImageConfigFailed))
      && (r.err.None? ==> r.nodes == nodes[c := File(encode(DefaultSpec(version, image.value)))])
      && (r.err.Some? ==> r.nodes == nodes)
  {
    if image.Some? {
      var bytes := encode(DefaultSpec(version, image.value));
      assert [] + bytes == bytes;
    }
  }

  /** The bytes of the regular files on the disk, by path: what `os.Open` can read. */
  function FilesOf(nodes: Nodes): map<string, Bytes>
  {
    map k | k in nodes && nodes[k].File? :: nodes[k].content
  }

  /** A bundle written by `pull` is the one `run` and `child` read: loading it gives back the
      default configuration, provided the JSON decoder undoes the encoder, and the root file system
      it names is the directory the layers were extracted into, made absolute. */
  lemma PulledBundleLoads(nodes: Nodes, image: ImageConfig, path: string, version: string,
                          encode: Spec -> Bytes, decode: Bytes -> Option<Spec>, getwd: Option<string>)
    requires GenerateConfig(nodes, Some(image), path, version, encode).err.None?
    requires decode(encode(DefaultSpec(version, image))) == Some(DefaultSpec(version, image))
    requires Abs(Base(path), getwd).Some?
    ensures
      var disk := GenerateConfig(nodes, Some(image), path, version, encode).nodes;
      GetConfigAndRootFromRuntimePath(path, Host(FilesOf(disk), decode, getwd))
        == Loaded(Some(DefaultSpec(version, image)), Abs(Base(path), getwd).value, None)
  {
    var disk := GenerateConfig(nodes, Some(image), path, version, encode).nodes;
    var c, spec := ConfigPath(path), DefaultSpec(version, image);
    GenerateConfigEffect(nodes, Some(image), path, version, encode);
    assert disk == nodes[c := File(encode(spec))];
    var files := FilesOf(disk);
    assert c in files && files[c] == encode(spec);
    var r := GetConfigAndRootFromRuntimePath(path, Host(files, decode, getwd));
    assert RootfsPath(path, getwd) == Abs(Base(path), getwd);
    assert r.err.None? && r.config == Some(spec);
  }
}
