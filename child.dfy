/** The hidden `child` command: inside the new namespaces it makes the mount tree private,
    bind-mounts the rootfs onto itself, pivots into it, detaches the old root, sets the hostname,
    changes to the working directory and replaces itself with the container's program.
    The kernel is abstract: it records each system call in a trace and fails the calls whose
    position in the trace is in a given set. */
module Child {
  import opened Wrappers
  import opened Oci
  import opened Util

  const MsBind: bv64 := 0x1000
  const MsRec: bv64 := 0x4000
  const MsPrivate: bv64 := 0x40000
  const MntDetach: bv64 := 0x2

  /** The system calls the child makes, with their arguments. */
  datatype Syscall =
    | MountCall(source: string, target: string, fstype: string, flags: bv64, data: string)
    | ChdirCall(path: string)
    | PivotRootCall(newRoot: string, putOld: string)
    | UnmountCall(target: string, flags: bv64)
    | SethostnameCall(name: string)
    | ExecCall(argv0: string, argv: seq<string>, envv: seq<string>)

  datatype ChildError =
    | LoadFailed(cause: LoadError)
    | MakePrivateFailed
    | BindFailed
    | ChdirFailed(path: string)
    | PivotFailed
    | UnmountFailed
    | NilProcess
    | NoProcess
    | ExecFailed
  {
    function Message(): string
    {
      match this
      case LoadFailed(cause) => cause.Message()
      case MakePrivateFailed => "failed to make mount tree private"
      case BindFailed => "failed to create bind mount for rootfs"
      case ChdirFailed(_) => "chdir failed"
      case PivotFailed => "failed to pivot root"
      case UnmountFailed => "failed to unmount old rootfs"
      case NilProcess => "nil pointer dereference of config.Process"
      case NoProcess => "no process provided by OCI config"
      case ExecFailed => "failed to execute container process"
    }
  }

  /** How a child run ends: its process image replaced by the container's program, or an error. */
  datatype Outcome = Replaced | Failed(err: ChildError)

  /** The abstract kernel. */
  class Kernel {
    var trace: seq<Syscall>
    const faults: set<nat>

    constructor (faults: set<nat>)
      ensures trace == [] && this.faults == faults
    {
      trace := [];
      this.faults := faults;
    }

    /** Make one system call: it is recorded, and fails when its position is a fault. */
    method Invoke(c: Syscall) returns (ok: bool)
      modifies this
      ensures trace == old(trace) + [c]
      ensures ok <==> |old(trace)| !in faults
    {
      ok := |trace| !in faults;
      trace := trace + [c];
    }
  }

  // ---------------------------------------------------------------------------------------
  // The child's sequence as a plan of fallible steps
  // ---------------------------------------------------------------------------------------

  /** A step is a system call whose failure ends the run with `onFailure` (None: the failure is
      ignored), or an abort that ends the run without a call. */
  datatype Step = Call(call: Syscall, onFailure: Option<ChildError>) | Abort(err: ChildError)

  /** The calls and the failure (None: every step went through) of running some steps. */
  datatype Run = Run(calls: seq<Syscall>, failure: Option<ChildError>)

  /** Steps 1 and 2 of the child: make the mount tree private, then bind-mount the rootfs onto itself. */
  function Privatize(rootfs: string): seq<Step>
  {
    [ Call(MountCall("", "/", "", MsPrivate | MsRec, ""), Some(MakePrivateFailed)),
      Call(MountCall(rootfs, rootfs, "", MsBind | MsRec, ""), Some(BindFailed)) ]
  }

  /** Step 4 of the child: pivot_root(".", ".") inside the rootfs, then detach the old root. */
  function PivotSteps(rootfs: string): seq<Step>
  {
    [ Call(ChdirCall(rootfs), Some(ChdirFailed(rootfs))),
      Call(PivotRootCall(".", "."), Some(PivotFailed)),
      Call(ChdirCall("/"), Some(ChdirFailed("/"))),
      Call(UnmountCall(".", MntDetach), Some(UnmountFailed)) ]
  }

  /** Setting the hostname, only when one is declared; its error is discarded. */
  function HostnameSteps(hostname: string): seq<Step>
  {
    if hostname != "" then [Call(SethostnameCall(hostname), None)] else []
  }

  /** Changing to the working directory, then the argument check and the exec. Reading the
      working directory of a nil process is a nil dereference. */
  function ExecSteps(process: Option<Process>): seq<Step>
  {
    if process.None? then [Abort(NilProcess)]
    else
      var p := process.value;
      (if p.cwd != "" then [Call(ChdirCall(p.cwd), Some(ChdirFailed(p.cwd)))] else [])
      + (if |p.args| == 0 then [Abort(NoProcess)] else [Call(ExecCall(p.args[0], p.args, p.env), Some(ExecFailed))])
  }

  function Plan(config: Spec, rootfs: string): seq<Step>
  {
    Privatize(rootfs) + PivotSteps(rootfs) + HostnameSteps(config.hostname) + ExecSteps(config.process)
  }

  /** Every system call the steps would make if nothing failed. */
  function CallsOf(steps: seq<Step>): seq<Syscall>
  {
    if steps == [] then []
    else if steps[0].Call? then [steps[0].call] + CallsOf(steps[1..])
    else CallsOf(steps[1..])
  }

  /** Running the steps in order on a kernel whose next call has position `at`: the first fatal
      failure or abort ends the run. */
  function Execute(steps: seq<Step>, faults: set<nat>, at: nat): Run
    decreases |steps|
  {
    if steps == [] then Run([], None)
    else match steps[0]
      case Abort(e) => Run([], Some(e))
      case Call(c, onFailure) =>
        if at in faults && onFailure.Some? then Run([c], onFailure)
        else
          var rest := Execute(steps[1..], faults, at + 1);
          Run([c] + rest.calls, rest.failure)
  }

  /** The whole child run from an empty-handed start: load the bundle, then run the plan. */
  function ChildRun(runtimePath: string, host: Host, faults: set<nat>, at: nat): Run
  {
    var loaded := GetConfigAndRootFromRuntimePath(runtimePath, host);
    if loaded.err.Some? then Run([], Some(LoadFailed(loaded.err.value)))
    else Execute(Plan(loaded.config.value, loaded.rootfsPath), faults, at)
  }

  function OutcomeOf(r: Run): Outcome
  {
    if r.failure.None? then Replaced else Failed(r.failure.value)
  }

  /** One step of `Execute`, unfolded. */
  lemma ExecuteStep(steps: seq<Step>, faults: set<nat>, at: nat)
    requires steps != []
    ensures steps[0].Abort? ==> Execute(steps, faults, at) == Run([], Some(steps[0].err))
    ensures steps[0].Call? && at in faults && steps[0].onFailure.Some? ==>
              Execute(steps, faults, at) == Run([steps[0].call], steps[0].onFailure)
    ensures steps[0].Call? && !(at in faults && steps[0].onFailure.Some?) ==>
              Execute(steps, faults, at) ==
                Glue([steps[0].call], Execute(steps[1..], faults, at + 1))
  {
  }

  /** The calls `done` already made, followed by the run `r` of the remaining steps. */
  function Glue(done: seq<Syscall>, r: Run): Run
  {
    Run(done + r.calls, r.failure)
  }

  /** Making the call of the next step of a plan: either it fails fatally and the plan's run ends
      with it, or the plan's run is the calls so far, this call, and the run of what remains. */
  lemma Advance(plan: seq<Step>, rest: seq<Step>, done: seq<Syscall>, faults: set<nat>, at: nat)
    requires rest != [] && rest[0].Call?
    requires Execute(plan, faults, at) == Glue(done, Execute(rest, faults, at + |done|))
    ensures at + |done| in faults && rest[0].onFailure.Some? ==>
              Execute(plan, faults, at) == Run(done + [rest[0].call], rest[0].onFailure)
    ensures !(at + |done| in faults && rest[0].onFailure.Some?) ==>
              Execute(plan, faults, at) == Glue(done + [rest[0].call], Execute(rest[1..], faults, at + |done + [rest[0].call]|))
  {
    assert done + ([rest[0].call] + Execute(rest[1..], faults, at + |done| + 1).calls)
        == done + [rest[0].call] + Execute(rest[1..], faults, at + |done| + 1).calls;
  }

  /** The run `r` of some steps begun at position `at`, followed (unless it failed) by the run of
      `steps` from where it stopped. */
  function Then(r: Run, steps: seq<Step>, faults: set<nat>, at: nat): Run
  {
    if r.failure.Some? then r else Glue(r.calls, Execute(steps, faults, at + |r.calls|))
  }

  /** Running two lists of steps one after the other. */
  lemma {:induction false} ExecuteConcat(a: seq<Step>, b: seq<Step>, faults: set<nat>, at: nat)
    ensures Execute(a + b, faults, at) == Then(Execute(a, faults, at), b, faults, at)
    decreases |a|
  {
    if a == [] {
      assert a + b == b;
    } else {
      assert (a + b)[0] == a[0];
      assert (a + b)[1..] == a[1..] + b;
      if a[0].Call? && !(at in faults && a[0].onFailure.Some?) {
        ExecuteConcat(a[1..], b, faults, at + 1);
        var r := Execute(a[1..], faults, at + 1);
        if r.failure.None? {
          TraceChain([a[0].call], [a[0].call] + r.calls, [a[0].call] + r.calls + Execute(b, faults, at + 1 + |r.calls|).calls,
                     r.calls, Execute(b, faults, at + 1 + |r.calls|).calls);
        }
      }
    }
  }

  /** Steps 1 and 2 against the kernel. */
  method MakeRootPrivate(k: Kernel, rootfsPath: string) returns (err: Option<ChildError>)
    modifies k
    ensures k.trace == old(k.trace) + Execute(Privatize(rootfsPath), k.faults, |old(k.trace)|).calls
    ensures err == Execute(Privatize(rootfsPath), k.faults, |old(k.trace)|).failure
  {
    ghost var at := |k.trace|;
    ghost var plan := Privatize(rootfsPath);
    ghost var rest, done := plan, [];

    // 1. make the whole mount tree private
    var ok := k.Invoke(MountCall("", "/", "", MsPrivate | MsRec, ""));
    Advance(plan, rest, done, k.faults, at);
    if !ok {
      return Some(MakePrivateFailed);
    }
    rest, done := rest[1..], done + [rest[0].call];

    // 2. bind-mount the rootfs onto itself
    ok := k.Invoke(MountCall(rootfsPath, rootfsPath, "", MsBind | MsRec, ""));
    Advance(plan, rest, done, k.faults, at);
    if !ok {
      return Some(BindFailed);
    }
    rest, done := rest[1..], done + [rest[0].call];
    assert rest == [];
    return None;
  }

  /** The run of step 4, written out: it ends with the first call that fails. */
  lemma PivotStepsRun(rootfs: string, faults: set<nat>, at: nat)
    ensures Execute(PivotSteps(rootfs), faults, at) ==
      var cs := [ChdirCall(rootfs), PivotRootCall(".", "."), ChdirCall("/"), UnmountCall(".", MntDetach)];
      if at in faults then Run(cs[..1], Some(ChdirFailed(rootfs)))
      else if at + 1 in faults then Run(cs[..2], Some(PivotFailed))
      else if at + 2 in faults then Run(cs[..3], Some(ChdirFailed("/")))
      else if at + 3 in faults then Run(cs, Some(UnmountFailed))
      else Run(cs, None)
  {
    var s := PivotSteps(rootfs);
    ExecuteStep(s, faults, at);
    ExecuteStep(s[1..], faults, at + 1);
    ExecuteStep(s[2..], faults, at + 2);
    ExecuteStep(s[3..], faults, at + 3);
    assert s[1..][1..] == s[2..] && s[2..][1..] == s[3..] && s[3..][1..] == [];
  }

  /** Step 4 against the kernel. */
  method PivotIntoRootfs(k: Kernel, rootfsPath: string) returns (err: Option<ChildError>)
    modifies k
    ensures k.trace == old(k.trace) + Execute(PivotSteps(rootfsPath), k.faults, |old(k.trace)|).calls
    ensures err == Execute(PivotSteps(rootfsPath), k.faults, |old(k.trace)|).failure
  {
    PivotStepsRun(rootfsPath, k.faults, |k.trace|);
    var ok := k.Invoke(ChdirCall(rootfsPath));
    if !ok {
      return Some(ChdirFailed(rootfsPath));
    }
    ok := k.Invoke(PivotRootCall(".", "."));
    if !ok {
      return Some(PivotFailed);
    }
    ok := k.Invoke(ChdirCall("/"));
    if !ok {
      return Some(ChdirFailed("/"));
    }
    ok := k.Invoke(UnmountCall(".", MntDetach));
    if !ok {
      return Some(UnmountFailed);
    }
    return None;
  }

  /** Step 5 against the kernel: the hostname, its error discarded. */
  method SetHostname(k: Kernel, hostname: string)
    modifies k
    ensures k.trace == old(k.trace) + Execute(HostnameSteps(hostname), k.faults, |old(k.trace)|).calls
    ensures Execute(HostnameSteps(hostname), k.faults, |old(k.trace)|).failure == None
  {
    if hostname != "" {
      var _ := k.Invoke(SethostnameCall(hostname));
    }
  }

  /** The run of step 7, written out. */
  lemma ExecStepsRun(process: Option<Process>, faults: set<nat>, at: nat)
    ensures Execute(ExecSteps(process), faults, at) ==
      if process.None? then Run([], Some(NilProcess))
      else
        var p := process.value;
        var cwd := if p.cwd != "" then [ChdirCall(p.cwd)] else [];
        if p.cwd != "" && at in faults then Run(cwd, Some(ChdirFailed(p.cwd)))
        else if |p.args| == 0 then Run(cwd, Some(NoProcess))
        else Run(cwd + [ExecCall(p.args[0], p.args, p.env)], if at + |cwd| in faults then Some(ExecFailed) else None)
  {
    if process.Some? {
      var p := process.value;
      var w := if p.cwd != "" then [Call(ChdirCall(p.cwd), Some(ChdirFailed(p.cwd)))] else [];
      var x := if |p.args| == 0 then [Abort(NoProcess)] else [Call(ExecCall(p.args[0], p.args, p.env), Some(ExecFailed))];
      assert ExecSteps(process) == w + x;
      ExecuteConcat(w, x, faults, at);
      if w != [] {
        ExecuteStep(w, faults, at);
        assert w[1..] == [];
      }
      ExecuteStep(x, faults, at + |w|);
      assert x[1..] == [];
    }
  }

  /** Step 7 against the kernel: the working directory, the argument check, the exec. */
  method StartProcess(k: Kernel, process: Option<Process>) returns (err: Option<ChildError>)
    modifies k
    ensures k.trace == old(k.trace) + Execute(ExecSteps(process), k.faults, |old(k.trace)|).calls
    ensures err == Execute(ExecSteps(process), k.faults, |old(k.trace)|).failure
  {
    ExecStepsRun(process, k.faults, |k.trace|);
    if process.None? {
      return Some(NilProcess);
    }
    var p := process.value;
    if p.cwd != "" {
      var ok := k.Invoke(ChdirCall(p.cwd));
      if !ok {
        return Some(ChdirFailed(p.cwd));
      }
    }
    if |p.args| <= 0 {
      return Some(NoProcess);
    }
    var ok := k.Invoke(ExecCall(p.args[0], p.args, p.env));
    if !ok {
      return Some(ExecFailed);
    }
    return None;
  }

  /** `childCmd.RunE` against the abstract kernel. */
  method RunChild(k: Kernel, runtimePath: string, host: Host) returns (outcome: Outcome)
    modifies k
    ensures k.trace == old(k.trace) + ChildRun(runtimePath, host, k.faults, |old(k.trace)|).calls
    ensures outcome == OutcomeOf(ChildRun(runtimePath, host, k.faults, |old(k.trace)|))
  {
    var loaded := GetConfigAndRootFromRuntimePath(runtimePath, host);
    if loaded.err.Some? {
      return Failed(LoadFailed(loaded.err.value));
    }
    var err := RunPlan(k, loaded.config.value, loaded.rootfsPath);
    outcome := if err.None? then Replaced else Failed(err.value);
  }

  /** Everything after the bundle is loaded. */
  method RunPlan(k: Kernel, config: Spec, rootfsPath: string) returns (err: Option<ChildError>)
    modifies k
    ensures k.trace == old(k.trace) + Execute(Plan(config, rootfsPath), k.faults, |old(k.trace)|).calls
    ensures err == Execute(Plan(config, rootfsPath), k.faults, |old(k.trace)|).failure
  {
    ghost var at := |k.trace|;
    ghost var start := k.trace;
    ghost var a, b, c, d := Privatize(rootfsPath), PivotSteps(rootfsPath), HostnameSteps(config.hostname), ExecSteps(config.process);
    assert Plan(config, rootfsPath) == a + (b + (c + d));
    ExecuteConcat(a, b + (c + d), k.faults, at);

    err := MakeRootPrivate(k, rootfsPath);
    if err.Some? {
      return;
    }

    // 3. the declared mounts: their options are translated, and nothing is mounted
    ghost var mid := k.trace;
    for i := 0 to |config.mounts|
      invariant k.trace == mid
    {
      var _, _, _ := ParseMountFlagsAndDataFromOptions(config.mounts[i].options);
    }

    err := EnterContainer(k, config, rootfsPath);
  }

  /** Steps 4 to 7: pivot, hostname, working directory and exec. */
  method EnterContainer(k: Kernel, config: Spec, rootfsPath: string) returns (err: Option<ChildError>)
    modifies k
    ensures
      var run := Execute(PivotSteps(rootfsPath) + (HostnameSteps(config.hostname) + ExecSteps(config.process)), k.faults, |old(k.trace)|);
      k.trace == old(k.trace) + run.calls && err == run.failure
  {
    ghost var start := k.trace;
    ghost var b, c, d := PivotSteps(rootfsPath), HostnameSteps(config.hostname), ExecSteps(config.process);
    err := PivotIntoRootfs(k, rootfsPath);
    ghost var afterPivot := k.trace;
    if err.Some? {
      Chain2(start, afterPivot, k.trace, b, c + d, k.faults, err, err);
      return;
    }
    ghost var e1 := err;
    SetHostname(k, config.hostname);
    ghost var afterHostname := k.trace;
    err := StartProcess(k, config.process);
    Chain2(afterPivot, afterHostname, k.trace, c, d, k.faults, None, err);
    Chain2(start, afterPivot, k.trace, b, c + d, k.faults, e1, err);
  }

  /** Two lists of steps run one after the other leave the trace and the failure that running
      their concatenation leaves. */
  lemma Chain2(t0: seq<Syscall>, t1: seq<Syscall>, t2: seq<Syscall>, b: seq<Step>, c: seq<Step>,
               faults: set<nat>, e1: Option<ChildError>, e2: Option<ChildError>)
    requires t1 == t0 + Execute(b, faults, |t0|).calls && e1 == Execute(b, faults, |t0|).failure
    requires e1.None? ==> t2 == t1 + Execute(c, faults, |t1|).calls && e2 == Execute(c, faults, |t1|).failure
    requires e1.Some? ==> t2 == t1 && e2 == e1
    ensures t2 == t0 + Execute(b + c, faults, |t0|).calls && e2 == Execute(b + c, faults, |t0|).failure
  {
    ExecuteConcat(b, c, faults, |t0|);
    var r := Execute(b, faults, |t0|);
    TraceLength(t0, t1, r.calls);
    if e1.None? {
      TraceChain(t0, t1, t2, r.calls, Execute(c, faults, |t1|).calls);
    }
  }

  lemma TraceLength<T>(t0: seq<T>, t1: seq<T>, r: seq<T>)
    requires t1 == t0 + r
    ensures |t1| == |t0| + |r|
  {
  }

  lemma TraceChain<T>(t0: seq<T>, t1: seq<T>, t2: seq<T>, r: seq<T>, q: seq<T>)
    requires t1 == t0 + r && t2 == t1 + q
    ensures t2 == t0 + (r + q)
  {
  }

  // ---------------------------------------------------------------------------------------
  // How a run of steps ends
  // ---------------------------------------------------------------------------------------

  /** The error a step ends the run with when it fails (an abort always does). */
  function StepError(s: Step): Option<ChildError>
  {
    if s.Abort? then Some(s.err) else s.onFailure
  }

  /** Step `i` of a run begun at position `at` goes through: a call whose failure is not fatal or
      that does not fail. */
  predicate GoesThrough(steps: seq<Step>, faults: set<nat>, at: nat, i: nat)
    requires i < |steps|
  {
    steps[i].Call? && (at + i in faults ==> steps[i].onFailure.None?)
  }

  lemma CallsOfConcat(a: seq<Step>, b: seq<Step>)
    ensures CallsOf(a + b) == CallsOf(a) + CallsOf(b)
    decreases |a|
  {
    if a == [] {
      assert a + b == b;
    } else {
      assert (a + b)[1..] == a[1..] + b;
      CallsOfConcat(a[1..], b);
    }
  }

  /** A run ends without a failure exactly when every step goes through, and then it has made
      every call of the steps. */
  lemma {:induction false} ExecuteCompletes(steps: seq<Step>, faults: set<nat>, at: nat)
    ensures Execute(steps, faults, at).failure.None? <==>
              forall i :: 0 <= i < |steps| ==> GoesThrough(steps, faults, at, i)
    ensures Execute(steps, faults, at).failure.None? ==> Execute(steps, faults, at).calls == CallsOf(steps)
    decreases |steps|
  {
    if steps != [] {
      ExecuteCompletes(steps[1..], faults, at + 1);
      forall i | 0 < i < |steps|
        ensures GoesThrough(steps, faults, at, i) <==> GoesThrough(steps[1..], faults, at + 1, i - 1)
      {
        assert steps[1..][i - 1] == steps[i];
      }
      if GoesThrough(steps, faults, at, 0) {
        assert Execute(steps, faults, at) == Glue([steps[0].call], Execute(steps[1..], faults, at + 1));
        var tail, next := steps[1..], at + 1;
        if forall i :: 0 <= i < |tail| ==> GoesThrough(tail, faults, next, i) {
          forall i | 0 <= i < |steps|
            ensures GoesThrough(steps, faults, at, i)
          {
            if i > 0 {
              assert GoesThrough(tail, faults, at + 1, i - 1);
            }
          }
        } else {
          var i :| 0 <= i < |tail| && !GoesThrough(tail, faults, at + 1, i);
          assert !GoesThrough(steps, faults, at, i + 1);
        }
      } else {
        assert Execute(steps, faults, at).failure.Some?;
        assert !(forall i :: 0 <= i < |steps| ==> GoesThrough(steps, faults, at, i));
      }
    }
  }

  /** A run that fails stops at a step `i`: the steps before it went through, step `i` failed
      (an abort, or a call at a faulty position) with the run's error, and the calls made are those
      of the steps up to and including step `i`. */
  lemma {:induction false} ExecuteStops(steps: seq<Step>, faults: set<nat>, at: nat)
    requires Execute(steps, faults, at).failure.Some?
    ensures exists i :: 0 <= i < |steps| && StopsAt(steps, faults, at, i)
    decreases |steps|
  {
    var s0 := steps[0];
    if s0.Abort? || (at in faults && s0.onFailure.Some?) {
      assert StopsAt(steps, faults, at, 0) by {
        assert steps[..1] == [s0];
      }
    } else {
      ExecuteStops(steps[1..], faults, at + 1);
      var i :| 0 <= i < |steps| - 1 && StopsAt(steps[1..], faults, at + 1, i);
      var pre := steps[..i + 2];
      assert pre[0] == s0 && pre[1..] == steps[1..][..i + 1];
      assert CallsOf(pre) == [s0.call] + CallsOf(steps[1..][..i + 1]);
      assert Execute(steps, faults, at) == Glue([s0.call], Execute(steps[1..], faults, at + 1));
      assert GoesThrough(steps, faults, at, 0);
      forall j | 0 < j <= i
        ensures GoesThrough(steps, faults, at, j)
      {
        assert steps[j] == steps[1..][j - 1];
        assert GoesThrough(steps[1..], faults, at + 1, j - 1);
      }
      assert steps[i + 1] == steps[1..][i];
      assert StopsAt(steps, faults, at, i + 1);
    }
  }

  /** The run stops at step `i`. */
  predicate StopsAt(steps: seq<Step>, faults: set<nat>, at: nat, i: nat)
    requires i < |steps|
  {
    && (forall j :: 0 <= j < i ==> GoesThrough(steps, faults, at, j))
    && (steps[i].Abort? || (at + i in faults && steps[i].onFailure.Some?))
    && Execute(steps, faults, at).failure == StepError(steps[i])
    && Execute(steps, faults, at).calls == CallsOf(steps[..i + 1])
  }

  /** The calls a run makes are a prefix of the calls its steps would make. */
  lemma {:induction false} ExecuteCallsPrefix(steps: seq<Step>, faults: set<nat>, at: nat)
    ensures Execute(steps, faults, at).calls <= CallsOf(steps)
    decreases |steps|
  {
    if steps != [] && steps[0].Call? && !(at in faults && steps[0].onFailure.Some?) {
      ExecuteCallsPrefix(steps[1..], faults, at + 1);
    }
  }

  /** Faults at the positions of steps whose failure is ignored make no difference. */
  lemma {:induction false} ExecuteFaultsAgree(steps: seq<Step>, f1: set<nat>, f2: set<nat>, at: nat)
    requires forall i :: 0 <= i < |steps| && steps[i].Call? && steps[i].onFailure.Some? ==> (at + i in f1 <==> at + i in f2)
    ensures Execute(steps, f1, at) == Execute(steps, f2, at)
    decreases |steps|
  {
    if steps != [] {
      forall i | 0 <= i < |steps| - 1 && steps[1..][i].Call? && steps[1..][i].onFailure.Some?
        ensures at + 1 + i in f1 <==> at + 1 + i in f2
      {
        assert steps[1..][i] == steps[i + 1];
      }
      ExecuteFaultsAgree(steps[1..], f1, f2, at + 1);
    }
  }

  /** A call the steps would make is the call of one of them. */
  lemma {:induction false} CallsOfMember(steps: seq<Step>, c: Syscall)
    requires c in CallsOf(steps)
    ensures exists j :: 0 <= j < |steps| && steps[j].Call? && steps[j].call == c
    decreases |steps|
  {
    if steps[0].Call? && c == steps[0].call {
    } else {
      CallsOfMember(steps[1..], c);
      var j :| 0 <= j < |steps| - 1 && steps[1..][j].Call? && steps[1..][j].call == c;
      assert steps[j + 1] == steps[1..][j];
    }
  }

  // ---------------------------------------------------------------------------------------
  // What the child does
  // ---------------------------------------------------------------------------------------

  /** The six calls that set up the root file system, in order. */
  function SetupCalls(rootfs: string): seq<Syscall>
  {
    [ MountCall("", "/", "", MsPrivate | MsRec, ""), MountCall(rootfs, rootfs, "", MsBind | MsRec, ""),
      ChdirCall(rootfs), PivotRootCall(".", "."), ChdirCall("/"), UnmountCall(".", MntDetach) ]
  }

  /** The steps after the set-up: hostname, working directory, argument check and exec. */
  function TailSteps(config: Spec): seq<Step>
  {
    HostnameSteps(config.hostname) + ExecSteps(config.process)
  }

  /** The calls the set-up steps would make. */
  lemma SetupCallsOf(rootfs: string)
    ensures CallsOf(Privatize(rootfs) + PivotSteps(rootfs)) == SetupCalls(rootfs)
  {
    var steps := Privatize(rootfs) + PivotSteps(rootfs);
    var calls := SetupCalls(rootfs);
    assert steps[5..][1..] == [];
    assert CallsOf(steps[5..]) == calls[5..];
    assert steps[4..][1..] == steps[5..];
    assert CallsOf(steps[4..]) == calls[4..];
    assert steps[3..][1..] == steps[4..];
    assert CallsOf(steps[3..]) == calls[3..];
    assert steps[2..][1..] == steps[3..];
    assert CallsOf(steps[2..]) == calls[2..];
    assert steps[1..][1..] == steps[2..];
    assert CallsOf(steps[1..]) == calls[1..];
  }

  /** The plan is the set-up followed by the tail. */
  lemma PlanSplit(config: Spec, rootfs: string, faults: set<nat>, at: nat)
    ensures
      var setup := Execute(Privatize(rootfs) + PivotSteps(rootfs), faults, at);
      Execute(Plan(config, rootfs), faults, at) == Then(setup, TailSteps(config), faults, at)
    ensures CallsOf(Plan(config, rootfs)) == SetupCalls(rootfs) + CallsOf(TailSteps(config))
  {
    var p, v, t := Privatize(rootfs), PivotSteps(rootfs), TailSteps(config);
    assert Plan(config, rootfs) == (p + v) + t;
    ExecuteConcat(p + v, t, faults, at);
    CallsOfConcat(p + v, t);
    SetupCallsOf(rootfs);
  }

  /** The set-up makes its calls in order, starting with the private mount, and fails only with
      one of its own errors. */
  lemma SetupRun(rootfs: string, faults: set<nat>, at: nat)
    ensures
      var r := Execute(Privatize(rootfs) + PivotSteps(rootfs), faults, at);
      && r.calls <= SetupCalls(rootfs)
      && |r.calls| >= 1
      && (r.failure.None? ==> r.calls == SetupCalls(rootfs))
      && (r.failure.Some? ==> r.failure.value in {MakePrivateFailed, BindFailed, ChdirFailed(rootfs), PivotFailed, ChdirFailed("/"), UnmountFailed})
  {
    var steps := Privatize(rootfs) + PivotSteps(rootfs);
    assert steps == [steps[0], steps[1], steps[2], steps[3], steps[4], steps[5]];
    SetupCallsOf(rootfs);
    ExecuteCallsPrefix(steps, faults, at);
    ExecuteCompletes(steps, faults, at);
    ExecuteStep(steps, faults, at);
    if Execute(steps, faults, at).failure.Some? {
      ExecuteStops(steps, faults, at);
    }
  }

  /** The tail never mounts, pivots or unmounts, and only its own errors can end it. */
  lemma TailShape(config: Spec)
    ensures forall c :: c in CallsOf(TailSteps(config)) ==> c.SethostnameCall? || c.ChdirCall? || c.ExecCall?
    ensures forall c :: c in CallsOf(TailSteps(config)) && c.SethostnameCall? ==> c == SethostnameCall(config.hostname) && config.hostname != ""
    ensures forall c :: c in CallsOf(TailSteps(config)) && c.ExecCall? ==>
              config.process.Some? && |config.process.value.args| > 0 &&
              c == ExecCall(config.process.value.args[0], config.process.value.args, config.process.value.env)
    ensures forall i :: 0 <= i < |TailSteps(config)| && StepError(TailSteps(config)[i]) == Some(NoProcess) ==>
              config.process.Some? && config.process.value.args == [] && TailSteps(config)[i].Abort?
    ensures forall i :: 0 <= i < |TailSteps(config)| ==> StepError(TailSteps(config)[i]) != Some(NilProcess) || config.process.None?
    ensures forall i :: 0 <= i < |TailSteps(config)| ==>
              StepError(TailSteps(config)[i]) in {None, Some(NilProcess), Some(NoProcess), Some(ExecFailed)} ||
              (config.process.Some? && StepError(TailSteps(config)[i]) == Some(ChdirFailed(config.process.value.cwd)))
  {
    var t := TailSteps(config);
    forall c | c in CallsOf(t)
      ensures exists j :: 0 <= j < |t| && t[j].Call? && t[j].call == c
    {
      CallsOfMember(t, c);
    }
    forall i | 0 <= i < |t|
      ensures t[i] in HostnameSteps(config.hostname) || t[i] in ExecSteps(config.process)
    {
      assert t[i] in t;
    }
  }

  /** A failed load makes no call; a successful one makes at least the private mount. The run
      fails with a load error exactly when the load fails. */
  lemma ChildLoad(runtimePath: string, host: Host, faults: set<nat>, at: nat)
    ensures
      var loaded := GetConfigAndRootFromRuntimePath(runtimePath, host);
      var run := ChildRun(runtimePath, host, faults, at);
      && (loaded.err.Some? ==> run == Run([], Some(LoadFailed(loaded.err.value))))
      && (loaded.err.None? ==> |run.calls| >= 1 && run.calls[0] == MountCall("", "/", "", MsPrivate | MsRec, ""))
      && (loaded.err.Some? <==> run.failure.Some? && run.failure.value.LoadFailed?)
  {
    var loaded := GetConfigAndRootFromRuntimePath(runtimePath, host);
    if loaded.err.None? {
      PlanFirstCall(loaded.config.value, loaded.rootfsPath, faults, at);
      PlanNeverLoadFails(loaded.config.value, loaded.rootfsPath, faults, at);
    }
  }

  /** The plan's first call is the private remount of "/", whatever fails. */
  lemma PlanFirstCall(config: Spec, rootfs: string, faults: set<nat>, at: nat)
    ensures
      var run := Execute(Plan(config, rootfs), faults, at);
      |run.calls| >= 1 && run.calls[0] == MountCall("", "/", "", MsPrivate | MsRec, "")
  {
    var plan := Plan(config, rootfs);
    assert plan[0] == Call(MountCall("", "/", "", MsPrivate | MsRec, ""), Some(MakePrivateFailed));
    ExecuteStep(plan, faults, at);
  }

  /** A run that ends for want of arguments has reached the last step of the plan, so it has
      made every call before it. */
  lemma NoProcessAtEnd(config: Spec, rootfs: string, faults: set<nat>, at: nat)
    requires Execute(Plan(config, rootfs), faults, at).failure == Some(NoProcess)
    ensures Execute(Plan(config, rootfs), faults, at).calls == CallsOf(Plan(config, rootfs))
  {
    var plan := Plan(config, rootfs);
    ExecuteStops(plan, faults, at);
    var i :| 0 <= i < |plan| && StopsAt(plan, faults, at, i);
    var a, b, c, d := Privatize(rootfs), PivotSteps(rootfs), HostnameSteps(config.hostname), ExecSteps(config.process);
    assert plan == a + b + c + d;
    assert plan[i] in a || plan[i] in b || plan[i] in c || plan[i] in d;
    assert plan[i].Abort?;
    PlanEnd(config, rootfs);
    assert i == |plan| - 1;
    assert plan[..i + 1] == plan;
  }

  /** No step of the plan fails with a load error. */
  lemma PlanNeverLoadFails(config: Spec, rootfs: string, faults: set<nat>, at: nat)
    ensures
      var run := Execute(Plan(config, rootfs), faults, at);
      run.failure.Some? ==> !run.failure.value.LoadFailed?
  {
    var plan := Plan(config, rootfs);
    var run := Execute(plan, faults, at);
    if run.failure.Some? {
      ExecuteStops(plan, faults, at);
      var i :| 0 <= i < |plan| && StopsAt(plan, faults, at, i);
      var a, b, c, d := Privatize(rootfs), PivotSteps(rootfs), HostnameSteps(config.hostname), ExecSteps(config.process);
      assert plan == a + b + c + d;
      assert plan[i] in a || plan[i] in b || plan[i] in c || plan[i] in d;
    }
  }

  /** The calls of the tail, written out: the hostname if one is declared, then for a process
      the change to its working directory if one is declared and the exec if it has arguments. */
  function TailCalls(config: Spec): seq<Syscall>
  {
    (if config.hostname != "" then [SethostnameCall(config.hostname)] else []) + ProcessCalls(config.process)
  }

  function ProcessCalls(process: Option<Process>): seq<Syscall>
  {
    match process
    case None => []
    case Some(p) =>
      (if p.cwd != "" then [ChdirCall(p.cwd)] else [])
      + (if p.args == [] then [] else [ExecCall(p.args[0], p.args, p.env)])
  }

  /** The process part of the tail only changes directory and executes. */
  lemma ProcessCallsKinds(process: Option<Process>, c: Syscall)
    requires c in ProcessCalls(process)
    ensures c.ChdirCall? || c.ExecCall?
  {
    if process.Some? {
      var p := process.value;
      var cwd := if p.cwd != "" then [ChdirCall(p.cwd)] else [];
      var exec := if p.args == [] then [] else [ExecCall(p.args[0], p.args, p.env)];
      assert ProcessCalls(process) == cwd + exec;
      assert c in cwd || c in exec;
    }
  }

  lemma TailCallsOf(config: Spec)
    ensures CallsOf(TailSteps(config)) == TailCalls(config)
  {
    var h, e := HostnameSteps(config.hostname), ExecSteps(config.process);
    CallsOfConcat(h, e);
    assert CallsOf(h) == if config.hostname != "" then [SethostnameCall(config.hostname)] else [];
    if config.process.Some? {
      var p := config.process.value;
      var w := if p.cwd != "" then [Call(ChdirCall(p.cwd), Some(ChdirFailed(p.cwd)))] else [];
      var x := if |p.args| == 0 then [Abort(NoProcess)] else [Call(ExecCall(p.args[0], p.args, p.env), Some(ExecFailed))];
      CallsOfConcat(w, x);
      assert CallsOf(w) == if p.cwd != "" then [ChdirCall(p.cwd)] else [];
      assert CallsOf(x) == if p.args == [] then [] else [ExecCall(p.args[0], p.args, p.env)];
    }
  }

  /** Every step of the plan but the last is a call; the last is the exec, or the abort for a
      missing process or missing arguments. */
  lemma PlanEnd(config: Spec, rootfs: string)
    ensures |Plan(config, rootfs)| >= 7
    ensures forall i :: 0 <= i < |Plan(config, rootfs)| - 1 ==> Plan(config, rootfs)[i].Call?
    ensures Plan(config, rootfs)[|Plan(config, rootfs)| - 1] ==
              match config.process
              case None => Abort(NilProcess)
              case Some(p) =>
                if p.args == [] then Abort(NoProcess) else Call(ExecCall(p.args[0], p.args, p.env), Some(ExecFailed))
  {
    var plan := Plan(config, rootfs);
    var n := |plan|;
    var front := Privatize(rootfs) + PivotSteps(rootfs) + HostnameSteps(config.hostname);
    var last := plan[n - 1];
    var body: seq<Step>;
    if config.process.None? {
      body := front;
    } else {
      var p := config.process.value;
      body := front + (if p.cwd != "" then [Call(ChdirCall(p.cwd), Some(ChdirFailed(p.cwd)))] else []);
    }
    assert plan == body + [last];
    forall i | 0 <= i < n - 1
      ensures plan[i].Call?
    {
      assert plan[i] == body[i];
      assert body[i] in body;
    }
  }

  /** The plan's hostname step sits right after the six set-up calls. */
  lemma PlanHostnameStep(config: Spec, rootfs: string)
    requires config.hostname != ""
    ensures |Plan(config, rootfs)| > 6 && Plan(config, rootfs)[6] == Call(SethostnameCall(config.hostname), None)
  {
    var pv := Privatize(rootfs) + PivotSteps(rootfs);
    assert Plan(config, rootfs) == pv + (HostnameSteps(config.hostname) + ExecSteps(config.process));
  }

  /** Only the first two calls are mounts: the private mount of "/" and the bind mount of the
      rootfs onto itself. The mounts the configuration declares are never made. The first calls
      are the set-up calls in their order. */
  lemma ChildMounts(config: Spec, rootfs: string, faults: set<nat>, at: nat)
    ensures
      var run := Execute(Plan(config, rootfs), faults, at);
      && (forall i :: 0 <= i < |run.calls| && i < 6 ==> run.calls[i] == SetupCalls(rootfs)[i])
      && (forall i :: 0 <= i < |run.calls| && run.calls[i].MountCall? ==> i < 2)
  {
    var run := Execute(Plan(config, rootfs), faults, at);
    var setup := Execute(Privatize(rootfs) + PivotSteps(rootfs), faults, at);
    PlanSplit(config, rootfs, faults, at);
    SetupRun(rootfs, faults, at);
    TailShape(config);
    if setup.failure.None? {
      var tail := Execute(TailSteps(config), faults, at + |setup.calls|);
      ExecuteCallsPrefix(TailSteps(config), faults, at + |setup.calls|);
      forall i | 6 <= i < |run.calls|
        ensures !run.calls[i].MountCall?
      {
        assert run.calls[i] == tail.calls[i - 6];
        assert tail.calls[i - 6] in CallsOf(TailSteps(config));
      }
    }
  }

  /** The argument check comes after the pivot: a run that ends for want of arguments has made
      all six set-up calls, and never an exec; and it ends so only for a process without arguments. */
  lemma ChildArgsCheckAfterPivot(config: Spec, rootfs: string, faults: set<nat>, at: nat)
    ensures
      var run := Execute(Plan(config, rootfs), faults, at);
      run.failure == Some(NoProcess) ==>
        && config.process.Some? && config.process.value.args == []
        && |run.calls| >= 6 && run.calls[..6] == SetupCalls(rootfs)
        && run.calls == SetupCalls(rootfs) + TailCalls(config)
        && (forall i :: 0 <= i < |run.calls| ==> !run.calls[i].ExecCall?)
  {
    var run := Execute(Plan(config, rootfs), faults, at);
    var setup := Execute(Privatize(rootfs) + PivotSteps(rootfs), faults, at);
    PlanSplit(config, rootfs, faults, at);
    SetupRun(rootfs, faults, at);
    TailShape(config);
    if run.failure == Some(NoProcess) {
      NoProcessAtEnd(config, rootfs, faults, at);
      TailCallsOf(config);
      assert setup.failure.None?;
      var tail := Execute(TailSteps(config), faults, at + 6);
      assert run.calls == SetupCalls(rootfs) + tail.calls;
      ExecuteStops(TailSteps(config), faults, at + 6);
      ExecuteCallsPrefix(TailSteps(config), faults, at + 6);
      forall i | 0 <= i < |run.calls|
        ensures !run.calls[i].ExecCall?
      {
        if i >= 6 {
          assert run.calls[i] == tail.calls[i - 6];
          assert tail.calls[i - 6] in CallsOf(TailSteps(config));
        }
      }
    }
  }

  /** A run that ends with the process image replaced has made every call of the plan: the six
      set-up calls, the hostname when one is declared, the change to the working directory when
      one is declared, and last the exec of the first argument with all arguments and the
      environment. */
  lemma ChildReplaced(config: Spec, rootfs: string, faults: set<nat>, at: nat)
    ensures
      var run := Execute(Plan(config, rootfs), faults, at);
      run.failure.None? ==>
        && config.process.Some? && |config.process.value.args| > 0
        && run.calls == SetupCalls(rootfs) + TailCalls(config)
        && run.calls[|run.calls| - 1] ==
             ExecCall(config.process.value.args[0], config.process.value.args, config.process.value.env)
        && (SethostnameCall(config.hostname) in run.calls <==> config.hostname != "")
  {
    var plan := Plan(config, rootfs);
    var run := Execute(plan, faults, at);
    if run.failure.None? {
      ExecuteCompletes(plan, faults, at);
      PlanEnd(config, rootfs);
      assert GoesThrough(plan, faults, at, |plan| - 1);
      PlanSplit(config, rootfs, faults, at);
      TailCallsOf(config);
      HostnameInCalls(config, rootfs);
    }
  }

  /** The hostname is among the plan's calls exactly when one is declared. */
  lemma HostnameInCalls(config: Spec, rootfs: string)
    ensures SethostnameCall(config.hostname) in SetupCalls(rootfs) + TailCalls(config) <==> config.hostname != ""
  {
    var x := SethostnameCall(config.hostname);
    if x in ProcessCalls(config.process) {
      ProcessCallsKinds(config.process, x);
    }
    assert x !in SetupCalls(rootfs);
  }

  /** Without faults the child makes every call of its plan and ends as its configuration
      decides: a nil process is a nil dereference, a process without arguments is refused, and
      otherwise the process image is replaced. */
  lemma ChildWithoutFaults(config: Spec, rootfs: string, at: nat)
    ensures Execute(Plan(config, rootfs), {}, at) ==
      Run(SetupCalls(rootfs) + TailCalls(config),
          match config.process
          case None => Some(NilProcess)
          case Some(p) => if p.args == [] then Some(NoProcess) else None)
  {
    var plan := Plan(config, rootfs);
    PlanEnd(config, rootfs);
    PlanSplit(config, rootfs, {}, at);
    TailCallsOf(config);
    LastStepDecides(plan, at);
  }

  /** Without faults, steps that are all calls but perhaps the last make every call, and end
      as the last one does. */
  lemma LastStepDecides(steps: seq<Step>, at: nat)
    requires steps != []
    requires forall i :: 0 <= i < |steps| - 1 ==> steps[i].Call?
    ensures Execute(steps, {}, at) ==
      Run(CallsOf(steps), if steps[|steps| - 1].Call? then None else Some(steps[|steps| - 1].err))
  {
    var n := |steps|;
    var body := steps[..n - 1];
    assert steps == body + [steps[n - 1]];
    forall i | 0 <= i < |body|
      ensures GoesThrough(body, {}, at, i)
    {
      assert body[i] == steps[i];
    }
    ExecuteCompletes(body, {}, at);
    ExecuteConcat(body, [steps[n - 1]], {}, at);
    CallsOfConcat(body, [steps[n - 1]]);
    SingleStep(steps[n - 1], at + |CallsOf(body)|);
  }

  /** One step run without faults. */
  lemma SingleStep(s: Step, at: nat)
    ensures CallsOf([s]) == if s.Call? then [s.call] else []
    ensures Execute([s], {}, at) == if s.Call? then Run([s.call], None) else Run([], Some(s.err))
  {
    ExecuteStep([s], {}, at);
    assert [s][1..] == [];
  }

  /** The hostname's error is discarded: whether `sethostname` fails makes no difference. */
  lemma ChildHostnameErrorIgnored(config: Spec, rootfs: string, faults: set<nat>, at: nat)
    requires config.hostname != ""
    ensures Execute(Plan(config, rootfs), faults + {at + 6}, at) == Execute(Plan(config, rootfs), faults - {at + 6}, at)
  {
    var plan := Plan(config, rootfs);
    PlanHostnameStep(config, rootfs);
    ExecuteFaultsAgree(plan, faults + {at + 6}, faults - {at + 6}, at);
  }
}
