/** The recursive module installer: dependencies first, cycle detection by the stack of names being
    installed, blobs pinned by their digest. What downloads deliver, whether a script parses and how it exits is
    up to the `World` and may be different at every attempt. */
module ModuleManager {
  import opened Common
  import opened Graph

  type Blob = string

  datatype Spec = Spec(dependsOn: seq<string>, requiresTermux: bool, installType: string, sourceKind: string,
                       file: string, pin: string)

  type Registry = map<string, Spec>

  datatype InstallError =
    | DependencyCycle(path: seq<string>)
    | UnknownModule(name: string)
    | TermuxRequired
    | UnsupportedSource(name: string)
    | DownloadFailed(name: string)
    | BlobMismatch(name: string)
    | UnsupportedInstallType(name: string)
    | ShellInvalid(name: string)
    | InstallerFailed(name: string)

  datatype Status = Installed | Staged | Failed

  datatype Record = Record(status: Status, artifact: string)

  datatype HistoryEvent =
    | SkipVerified(name: string)
    | Installation(name: string, execute: bool)
    | InstallFailed(name: string)

  /** What the environment answers at the t-th attempt. */
  datatype World = World(fetch: (nat, string) -> Option<Blob>, parses: (nat, Blob) -> bool,
                         exitsZero: (nat, Blob) -> bool)

  /** A script that was started: the module and what was run. */
  datatype Started = Started(name: string, data: Blob)

  /** The plan a dry run returns. */
  datatype Plan = Plan(name: string, dependencies: seq<Plan>, dest: string)

  const SOURCE_KIND := "github_raw_git_blob"
  const INSTALL_TYPE := "shell"

  function DependsOn(reg: Registry): Graph {
    map m | m in reg :: reg[m].dependsOn
  }

  function Dest(reg: Registry, name: string): string
    requires name in reg
  {
    name + "--" + reg[name].file
  }

  /** A dependency stack: names being installed, each depending on the next. */
  predicate IsStack(reg: Registry, stack: seq<string>) {
    Distinct(stack) && (forall n :: n in stack ==> n in reg) && (stack != [] ==> IsWalk(DependsOn(reg), stack))
  }

  predicate Calls(reg: Registry, stack: seq<string>, name: string) {
    IsStack(reg, stack) && (stack != [] ==> name in Succ(DependsOn(reg), stack[|stack| - 1]))
  }

  lemma PushStack(reg: Registry, stack: seq<string>, name: string)
    requires Calls(reg, stack, name) && name !in stack && name in reg
    ensures IsStack(reg, stack + [name])
    ensures forall d :: d in reg[name].dependsOn ==> Calls(reg, stack + [name], d)
    ensures reg.Keys - Elements(stack + [name]) < reg.Keys - Elements(stack)
  {
    if stack != [] { WalkSnoc(DependsOn(reg), stack, name); }
    assert name in reg.Keys - Elements(stack) && name !in reg.Keys - Elements(stack + [name]);
    assert Elements(stack) <= Elements(stack + [name]);
  }

  // ---- The dry run ----

  /** `install_module(name, dry_run=True)`: a plan tree, or the first error met. */
  function DryRun(reg: Registry, termux: bool, name: string, stack: seq<string>): Result<Plan, InstallError>
    requires Calls(reg, stack, name)
    decreases reg.Keys - Elements(stack), 0
  {
    if name in stack then Err(DependencyCycle(stack + [name]))
    else if name !in reg then Err(UnknownModule(name))
    else
      PushStack(reg, stack, name);
      match DryRunAll(reg, termux, reg[name].dependsOn, stack + [name])
      case Err(e) => Err(e)
      case Ok(dependencies) =>
        if reg[name].requiresTermux && !termux then Err(TermuxRequired)
        else if reg[name].sourceKind != SOURCE_KIND then Err(UnsupportedSource(name))
        else Ok(Plan(name, dependencies, Dest(reg, name)))
  }

  function DryRunAll(reg: Registry, termux: bool, names: seq<string>,
                     stack: seq<string>): Result<seq<Plan>, InstallError>
    requires forall d :: d in names ==> Calls(reg, stack, d)
    decreases reg.Keys - Elements(stack), |names| + 1
  {
    if names == [] then Ok([])
    else
      match DryRun(reg, termux, names[0], stack)
      case Err(e) => Err(e)
      case Ok(p) =>
        match DryRunAll(reg, termux, names[1..], stack)
        case Err(e) => Err(e)
        case Ok(rest) => Ok([p] + rest)
  }

  predicate Plannable(reg: Registry, termux: bool, n: string) {
    n in reg && (reg[n].requiresTermux ==> termux) && reg[n].sourceKind == SOURCE_KIND
  }

  /** Every walk along dependencies from name stays among known modules and never repeats one, nor one of the
      stack: everything reachable is known and no cycle is reachable. */
  ghost predicate WalksClean(reg: Registry, name: string, stack: seq<string>) {
    forall p :: IsWalkFrom(DependsOn(reg), p, name) ==> Distinct(stack + p) && forall n :: n in p ==> n in reg
  }

  lemma CleanFromDependencies(reg: Registry, name: string, stack: seq<string>)
    requires Calls(reg, stack, name) && name !in stack && name in reg
    requires forall d :: d in reg[name].dependsOn ==> WalksClean(reg, d, stack + [name])
    ensures WalksClean(reg, name, stack)
  {
    var g := DependsOn(reg);
    forall p | IsWalkFrom(g, p, name) ensures Distinct(stack + p) && forall n :: n in p ==> n in reg {
      if |p| == 1 {
        assert p == [name];
      } else {
        assert p[0 + 1] in Succ(g, p[0]);
        WalkSlice(g, p, 1, |p|);
        var d := p[1];
        assert IsWalkFrom(g, p[1..], d);
        assert stack + [name] + p[1..] == stack + p;
        assert forall n :: n in p ==> n == name || n in p[1..];
      }
    }
  }

  lemma {:induction false} DryRunSound(reg: Registry, termux: bool, name: string, stack: seq<string>)
    requires Calls(reg, stack, name) && DryRun(reg, termux, name, stack).Ok?
    ensures WalksClean(reg, name, stack)
    ensures forall n :: Reaches(DependsOn(reg), name, n) ==> Plannable(reg, termux, n)
    decreases reg.Keys - Elements(stack), 0
  {
    var g := DependsOn(reg);
    PushStack(reg, stack, name);
    DryRunAllSound(reg, termux, reg[name].dependsOn, stack + [name]);
    CleanFromDependencies(reg, name, stack);
    forall n | Reaches(g, name, n) ensures Plannable(reg, termux, n) {
      var p :| IsWalkFrom(g, p, name) && p[|p| - 1] == n;
      if |p| > 1 {
        assert p[0 + 1] in Succ(g, p[0]);
        WalkSlice(g, p, 1, |p|);
        assert IsWalkFrom(g, p[1..], p[1]) && p[1..][|p[1..]| - 1] == n;
        assert Reaches(g, p[1], n);
      }
    }
  }

  lemma {:induction false} DryRunAllSound(reg: Registry, termux: bool, names: seq<string>, stack: seq<string>)
    requires forall d :: d in names ==> Calls(reg, stack, d)
    requires DryRunAll(reg, termux, names, stack).Ok?
    ensures forall d :: d in names ==> WalksClean(reg, d, stack)
    ensures forall d, n :: d in names && Reaches(DependsOn(reg), d, n) ==> Plannable(reg, termux, n)
    decreases reg.Keys - Elements(stack), |names| + 1
  {
    if names == [] {
    } else {
      DryRunSound(reg, termux, names[0], stack);
      DryRunAllSound(reg, termux, names[1..], stack);
    }
  }

  /** No walk from name returns to one of its nodes. */
  ghost predicate NoReachableCycle(reg: Registry, name: string) {
    forall p :: IsWalkFrom(DependsOn(reg), p, name) ==> Distinct(p)
  }

  lemma {:induction false} DryRunComplete(reg: Registry, termux: bool, root: string, name: string, stack: seq<string>)
    requires Calls(reg, stack, name) && IsWalkFrom(DependsOn(reg), stack + [name], root)
    requires NoReachableCycle(reg, root)
    requires forall n :: Reaches(DependsOn(reg), root, n) ==> Plannable(reg, termux, n)
    ensures DryRun(reg, termux, name, stack).Ok?
    decreases reg.Keys - Elements(stack), 0
  {
    var g := DependsOn(reg);
    var walk := stack + [name];
    assert walk[|walk| - 1] == name;
    assert Reaches(g, root, name);
    assert name !in stack by {
      assert Distinct(walk);
      assert forall i :: 0 <= i < |stack| ==> stack[i] == walk[i] != walk[|stack|];
    }
    PushStack(reg, stack, name);
    forall d | d in reg[name].dependsOn ensures IsWalkFrom(g, walk + [d], root) { WalkSnoc(g, walk, d); }
    DryRunAllComplete(reg, termux, root, reg[name].dependsOn, walk);
  }

  lemma {:induction false} DryRunAllComplete(reg: Registry, termux: bool, root: string, names: seq<string>,
                                             stack: seq<string>)
    requires forall d :: d in names ==> Calls(reg, stack, d) && IsWalkFrom(DependsOn(reg), stack + [d], root)
    requires NoReachableCycle(reg, root)
    requires forall n :: Reaches(DependsOn(reg), root, n) ==> Plannable(reg, termux, n)
    ensures DryRunAll(reg, termux, names, stack).Ok?
    decreases reg.Keys - Elements(stack), |names| + 1
  {
    if names == [] {
    } else {
      DryRunComplete(reg, termux, root, names[0], stack);
      DryRunAllComplete(reg, termux, root, names[1..], stack);
    }
  }

  lemma DryRunPlannable(reg: Registry, termux: bool, name: string)
    ensures DryRun(reg, termux, name, []).Ok? <==>
              NoReachableCycle(reg, name)
              && forall n :: Reaches(DependsOn(reg), name, n) ==> Plannable(reg, termux, n)
  {
    if DryRun(reg, termux, name, []).Ok? {
      DryRunSound(reg, termux, name, []);
      forall p | IsWalkFrom(DependsOn(reg), p, name) ensures Distinct(p) { assert [] + p == p; }
    }
    if NoReachableCycle(reg, name) && forall n :: Reaches(DependsOn(reg), name, n) ==> Plannable(reg, termux, n) {
      assert [] + [name] == [name];
      DryRunComplete(reg, termux, name, name, []);
    }
  }

  /** A dry run succeeds exactly when no cycle is reachable and every reachable module is known, comes from a pinned
      Git blob, and needs Termux only on Termux. */
  lemma DryRunIff(reg: Registry, termux: bool, name: string)
    ensures DryRun(reg, termux, name, []).Ok? <==>
              NoReachableCycle(reg, name)
              && forall n :: Reaches(DependsOn(reg), name, n) ==>
                   n in reg && (reg[n].requiresTermux ==> termux) && reg[n].sourceKind == "github_raw_git_blob"
  {
    DryRunPlannable(reg, termux, name);
    forall n ensures Plannable(reg, termux, n) <==>
                       n in reg && (reg[n].requiresTermux ==> termux) && reg[n].sourceKind == "github_raw_git_blob" { }
  }

  /** The plan is for this module, names its cache file, and has one plan for each dependency, in order. */
  predicate PlanFor(reg: Registry, name: string, p: Plan) {
    && name in reg && p.name == name && p.dest == name + "--" + reg[name].file
    && |p.dependencies| == |reg[name].dependsOn|
    && forall i :: 0 <= i < |p.dependencies| ==> p.dependencies[i].name == reg[name].dependsOn[i]
  }

  lemma {:induction false} DryRunPlan(reg: Registry, termux: bool, name: string, stack: seq<string>)
    requires Calls(reg, stack, name) && DryRun(reg, termux, name, stack).Ok?
    ensures PlanFor(reg, name, DryRun(reg, termux, name, stack).value)
    decreases reg.Keys - Elements(stack), 0
  {
    PushStack(reg, stack, name);
    DryRunAllPlans(reg, termux, reg[name].dependsOn, stack + [name]);
  }

  lemma {:induction false} DryRunAllPlans(reg: Registry, termux: bool, names: seq<string>, stack: seq<string>)
    requires forall d :: d in names ==> Calls(reg, stack, d)
    requires DryRunAll(reg, termux, names, stack).Ok?
    ensures var ps := DryRunAll(reg, termux, names, stack).value;
            |ps| == |names| && forall i :: 0 <= i < |ps| ==> ps[i].name == names[i]
    decreases reg.Keys - Elements(stack), |names| + 1
  {
    if names == [] {
    } else {
      DryRunPlan(reg, termux, names[0], stack);
      DryRunAllPlans(reg, termux, names[1..], stack);
    }
  }

  /** The path of a cycle error is a dependency walk whose last name occurs earlier: it contains a real cycle. */
  predicate NamesCycle(reg: Registry, path: seq<string>) {
    IsWalk(DependsOn(reg), path) && exists k :: 0 <= k < |path| - 1 && IsCycle(DependsOn(reg), path[k..])
  }

  lemma StackRepeatIsCycle(reg: Registry, stack: seq<string>, name: string)
    requires Calls(reg, stack, name) && name in stack
    ensures NamesCycle(reg, stack + [name])
  {
    var path := stack + [name];
    WalkSnoc(DependsOn(reg), stack, name);
    var k :| 0 <= k < |stack| && stack[k] == name;
    assert path[..|path| - 1] == stack;
    ReturnCloses(DependsOn(reg), path, k);
  }

  lemma {:induction false} DryRunCycleIsReal(reg: Registry, termux: bool, name: string, stack: seq<string>)
    requires Calls(reg, stack, name)
    ensures var r := DryRun(reg, termux, name, stack);
            r.Err? && r.error.DependencyCycle? ==> NamesCycle(reg, r.error.path)
    decreases reg.Keys - Elements(stack), 0
  {
    if name in stack {
      StackRepeatIsCycle(reg, stack, name);
    } else if name in reg {
      PushStack(reg, stack, name);
      DryRunAllCycleIsReal(reg, termux, reg[name].dependsOn, stack + [name]);
    }
  }

  lemma {:induction false} DryRunAllCycleIsReal(reg: Registry, termux: bool, names: seq<string>, stack: seq<string>)
    requires forall d :: d in names ==> Calls(reg, stack, d)
    ensures var r := DryRunAll(reg, termux, names, stack);
            r.Err? && r.error.DependencyCycle? ==> NamesCycle(reg, r.error.path)
    decreases reg.Keys - Elements(stack), |names| + 1
  {
    if names == [] {
    } else {
      DryRunCycleIsReal(reg, termux, names[0], stack);
      DryRunAllCycleIsReal(reg, termux, names[1..], stack);
    }
  }

  // ---- What justifies an error ----

  /** The module is reachable from root, and known. */
  ghost predicate Below(reg: Registry, root: string, n: string) {
    Reaches(DependsOn(reg), root, n) && n in reg
  }

  /** The errors a module's own installation can end in. */
  predicate OwnError(spec: Spec, name: string, e: InstallError) {
    if spec.sourceKind != "github_raw_git_blob" then e == UnsupportedSource(name)
    else if e == DownloadFailed(name) || e == BlobMismatch(name) then true
    else if spec.installType != "shell" then e == UnsupportedInstallType(name)
    else e == ShellInvalid(name) || e == InstallerFailed(name)
  }

  lemma OwnErrorExplained(reg: Registry, termux: bool, name: string, e: InstallError)
    requires name in reg && OwnError(reg[name], name, e)
    ensures Explains(reg, termux, name, e)
  {
    ReachesSelf(reg, name);
    assert Below(reg, name, name);
  }

  /** The error is about something reachable from root that is really so. */
  ghost predicate Explains(reg: Registry, termux: bool, root: string, e: InstallError) {
    match e
    case DependencyCycle(path) => NamesCycle(reg, path)
    case UnknownModule(n) => Reaches(DependsOn(reg), root, n) && n !in reg
    case TermuxRequired => !termux && exists n :: Below(reg, root, n) && reg[n].requiresTermux
    case UnsupportedSource(n) => Below(reg, root, n) && reg[n].sourceKind != "github_raw_git_blob"
    case UnsupportedInstallType(n) => Below(reg, root, n) && reg[n].installType != "shell"
    case DownloadFailed(n) => Below(reg, root, n) && reg[n].sourceKind == "github_raw_git_blob"
    case BlobMismatch(n) => Below(reg, root, n) && reg[n].sourceKind == "github_raw_git_blob"
    case ShellInvalid(n) => Below(reg, root, n) && reg[n].installType == "shell"
    case InstallerFailed(n) => Below(reg, root, n) && reg[n].installType == "shell"
  }

  lemma ReachesSelf(reg: Registry, name: string)
    ensures Reaches(DependsOn(reg), name, name)
  {
    assert IsWalkFrom(DependsOn(reg), [name], name);
  }

  lemma ReachesThrough(reg: Registry, name: string, d: string, n: string)
    requires name in reg && d in reg[name].dependsOn && Reaches(DependsOn(reg), d, n)
    ensures Reaches(DependsOn(reg), name, n)
  {
    var p :| IsWalkFrom(DependsOn(reg), p, d) && p[|p| - 1] == n;
    WalkCons(DependsOn(reg), name, p);
    assert ([name] + p)[|[name] + p| - 1] == n;
  }

  lemma BelowThrough(reg: Registry, name: string, d: string, n: string)
    requires name in reg && d in reg[name].dependsOn && Below(reg, d, n)
    ensures Below(reg, name, n)
  {
    ReachesThrough(reg, name, d, n);
  }

  /** What justifies an error for a dependency justifies it for the module. */
  lemma ExplainsThrough(reg: Registry, termux: bool, name: string, d: string, e: InstallError)
    requires name in reg && d in reg[name].dependsOn && Explains(reg, termux, d, e)
    ensures Explains(reg, termux, name, e)
  {
    match e
    case DependencyCycle(_) =>
    case UnknownModule(n) => ReachesThrough(reg, name, d, n);
    case TermuxRequired =>
      var n :| Below(reg, d, n) && reg[n].requiresTermux;
      BelowThrough(reg, name, d, n);
    case UnsupportedSource(n) => BelowThrough(reg, name, d, n);
    case UnsupportedInstallType(n) => BelowThrough(reg, name, d, n);
    case DownloadFailed(n) => BelowThrough(reg, name, d, n);
    case BlobMismatch(n) => BelowThrough(reg, name, d, n);
    case ShellInvalid(n) => BelowThrough(reg, name, d, n);
    case InstallerFailed(n) => BelowThrough(reg, name, d, n);
  }

  /** Every error of a dry run is justified. */
  lemma {:induction false} DryRunExplained(reg: Registry, termux: bool, name: string, stack: seq<string>)
    requires Calls(reg, stack, name) && DryRun(reg, termux, name, stack).Err?
    ensures Explains(reg, termux, name, DryRun(reg, termux, name, stack).error)
    decreases reg.Keys - Elements(stack), 0
  {
    ReachesSelf(reg, name);
    if name in stack {
      StackRepeatIsCycle(reg, stack, name);
    } else if name in reg {
      PushStack(reg, stack, name);
      if DryRunAll(reg, termux, reg[name].dependsOn, stack + [name]).Err? {
        DryRunAllExplained(reg, termux, name, reg[name].dependsOn, stack + [name]);
      } else {
        assert Below(reg, name, name);
      }
    }
  }

  lemma {:induction false} DryRunAllExplained(reg: Registry, termux: bool, root: string, names: seq<string>,
                                              stack: seq<string>)
    requires root in reg && forall d :: d in names ==> Calls(reg, stack, d) && d in reg[root].dependsOn
    requires DryRunAll(reg, termux, names, stack).Err?
    ensures Explains(reg, termux, root, DryRunAll(reg, termux, names, stack).error)
    decreases reg.Keys - Elements(stack), |names| + 1
  {
    if DryRun(reg, termux, names[0], stack).Err? {
      DryRunExplained(reg, termux, names[0], stack);
      ExplainsThrough(reg, termux, root, names[0], DryRun(reg, termux, names[0], stack).error);
    } else {
      DryRunAllExplained(reg, termux, root, names[1..], stack);
    }
  }

  // ---- Installation ----

  predicate Succeeded(e: HistoryEvent, n: string) {
    (e.SkipVerified? || e.Installation?) && e.name == n
  }

  predicate SucceededIn(h: seq<HistoryEvent>, n: string) {
    exists e :: e in h && Succeeded(e, n)
  }

  /** In h, every success entry comes after success entries of all its module's dependencies. */
  ghost predicate DependenciesFirst(reg: Registry, h: seq<HistoryEvent>) {
    forall j, n, d :: 0 <= j < |h| && Succeeded(h[j], n) && d in Succ(DependsOn(reg), n) ==> SucceededIn(h[..j], d)
  }

  lemma DependenciesFirstJoin(reg: Registry, a: seq<HistoryEvent>, b: seq<HistoryEvent>)
    requires DependenciesFirst(reg, a) && DependenciesFirst(reg, b)
    ensures DependenciesFirst(reg, a + b)
    ensures forall n :: SucceededIn(a, n) || SucceededIn(b, n) ==> SucceededIn(a + b, n)
  {
    var h := a + b;
    forall n | SucceededIn(a, n) || SucceededIn(b, n) ensures SucceededIn(h, n) {
      var e :| (e in a || e in b) && Succeeded(e, n);
      assert e in h;
    }
    forall j, n, d | 0 <= j < |h| && Succeeded(h[j], n) && d in Succ(DependsOn(reg), n) ensures SucceededIn(h[..j], d) {
      if j < |a| {
        assert h[..j] == a[..j];
        assert SucceededIn(a[..j], d);
      } else {
        assert h[..j] == a + b[..j - |a|];
        assert SucceededIn(b[..j - |a|], d);
        var e :| e in b[..j - |a|] && Succeeded(e, d);
        assert e in h[..j];
      }
    }
  }

  lemma DependenciesFirstSnoc(reg: Registry, a: seq<HistoryEvent>, e: HistoryEvent)
    requires DependenciesFirst(reg, a)
    requires forall n, d :: Succeeded(e, n) && d in Succ(DependsOn(reg), n) ==> SucceededIn(a, d)
    ensures DependenciesFirst(reg, a + [e])
    ensures forall n :: SucceededIn(a, n) || Succeeded(e, n) ==> SucceededIn(a + [e], n)
  {
    var h := a + [e];
    forall j, n, d | 0 <= j < |h| && Succeeded(h[j], n) && d in Succ(DependsOn(reg), n) ensures SucceededIn(h[..j], d) {
      if j < |a| {
        assert h[..j] == a[..j];
        assert SucceededIn(a[..j], d);
      } else {
        assert h[..j] == a;
      }
    }
    forall n | SucceededIn(a, n) || Succeeded(e, n) ensures SucceededIn(h, n) {
      var x :| (x in a || x == e) && Succeeded(x, n);
      assert x in h;
    }
  }

  /** If name succeeded and dependencies come first, everything reachable from name succeeded. */
  lemma {:induction false} ReachableSucceeded(reg: Registry, h: seq<HistoryEvent>, name: string, p: seq<string>)
    requires DependenciesFirst(reg, h) && SucceededIn(h, name) && IsWalkFrom(DependsOn(reg), p, name)
    ensures SucceededIn(h, p[|p| - 1])
    decreases |p|
  {
    if |p| <= 1 {
    } else {
      var e :| e in h && Succeeded(e, name);
      var j :| 0 <= j < |h| && h[j] == e;
      assert p[0 + 1] in Succ(DependsOn(reg), p[0]);
      assert SucceededIn(h[..j], p[1]);
      var f :| f in h[..j] && Succeeded(f, p[1]);
      assert f in h;
      WalkSlice(DependsOn(reg), p, 1, |p|);
      ReachableSucceeded(reg, h, p[1], p[1..]);
      assert p[1..][|p[1..]| - 1] == p[|p| - 1];
    }
  }

  // ---- One attempt ----

  /** What an attempt to install a module ends in: the first of the tests that fails, or the blob that passed all. */
  function Attempt(spec: Spec, name: string, sha: Blob -> string, w: World, t: nat, execute: bool):
    Result<Blob, InstallError>
  {
    if spec.sourceKind != "github_raw_git_blob" then Err(UnsupportedSource(name))
    else
      match w.fetch(t, name)
      case None => Err(DownloadFailed(name))
      case Some(data) =>
        if sha(data) != spec.pin then Err(BlobMismatch(name))
        else if spec.installType != "shell" then Err(UnsupportedInstallType(name))
        else if !w.parses(t, data) then Err(ShellInvalid(name))
        else if execute && !w.exitsZero(t, data) then Err(InstallerFailed(name))
        else Ok(data)
  }

  /** What an attempt starts: when executing, and only past all tests but that of its exit code, the blob fetched. */
  function Starts(spec: Spec, name: string, sha: Blob -> string, w: World, t: nat, execute: bool): seq<Started> {
    var end := Attempt(spec, name, sha, w, t, execute);
    if execute && (end.Ok? || end.error.InstallerFailed?) && w.fetch(t, name).Some?
    then [Started(name, w.fetch(t, name).value)] else []
  }

  // ---- What may happen at all ----

  /** Only a known module below root is ever started, only when executing, only on a fitting host, and only as a shell
      script from a Git blob with the pinned digest. */
  ghost predicate Pinned(reg: Registry, termux: bool, sha: Blob -> string, execute: bool, root: string, s: Started) {
    && execute && Below(reg, root, s.name) && (reg[s.name].requiresTermux ==> termux)
    && reg[s.name].sourceKind == "github_raw_git_blob" && reg[s.name].installType == "shell"
    && sha(s.data) == reg[s.name].pin
  }

  ghost predicate AllPinned(reg: Registry, termux: bool, sha: Blob -> string, execute: bool, root: string,
                            ran: seq<Started>)
  {
    forall s :: s in ran ==> Pinned(reg, termux, sha, execute, root, s)
  }

  lemma PinnedThrough(reg: Registry, termux: bool, sha: Blob -> string, execute: bool, name: string, d: string,
                      ran: seq<Started>)
    requires name in reg && d in reg[name].dependsOn && AllPinned(reg, termux, sha, execute, d, ran)
    ensures AllPinned(reg, termux, sha, execute, name, ran)
  {
    forall s | s in ran ensures Pinned(reg, termux, sha, execute, name, s) { BelowThrough(reg, name, d, s.name); }
  }

  lemma PinnedGrows(reg: Registry, termux: bool, sha: Blob -> string, execute: bool, root: string,
                    before: seq<Started>, after: seq<Started>, from: nat)
    requires from <= |before| && before <= after
    requires AllPinned(reg, termux, sha, execute, root, before[from..])
    requires AllPinned(reg, termux, sha, execute, root, after[|before|..])
    ensures AllPinned(reg, termux, sha, execute, root, after[from..])
  {
    assert after[from..] == before[from..] + after[|before|..];
  }

  lemma StartsPinned(reg: Registry, termux: bool, sha: Blob -> string, w: World, t: nat, execute: bool, name: string)
    requires name in reg && (reg[name].requiresTermux ==> termux)
    ensures AllPinned(reg, termux, sha, execute, name, Starts(reg[name], name, sha, w, t, execute))
  {
    ReachesSelf(reg, name);
    assert Below(reg, name, name);
  }


  /** This entry is about a known module below root that may run on this host; it was skipped only when executing, and
      installed the way it was asked for, from a pinned Git blob by a shell script. */
  ghost predicate Allowed(reg: Registry, termux: bool, execute: bool, root: string, e: HistoryEvent) {
    && Below(reg, root, e.name) && (reg[e.name].requiresTermux ==> termux)
    && match e
       case SkipVerified(_) => execute
       case Installation(n, ran) =>
         ran == execute && reg[n].sourceKind == "github_raw_git_blob" && reg[n].installType == "shell"
       case InstallFailed(n) => execute && reg[n].installType == "shell"
  }

  ghost predicate AllAllowed(reg: Registry, termux: bool, execute: bool, root: string, h: seq<HistoryEvent>) {
    forall e :: e in h ==> Allowed(reg, termux, execute, root, e)
  }

  lemma AllowedThrough(reg: Registry, termux: bool, execute: bool, name: string, d: string, h: seq<HistoryEvent>)
    requires name in reg && d in reg[name].dependsOn && AllAllowed(reg, termux, execute, d, h)
    ensures AllAllowed(reg, termux, execute, name, h)
  {
    forall e | e in h ensures Allowed(reg, termux, execute, name, e) { BelowThrough(reg, name, d, e.name); }
  }

  lemma AllowedGrows(reg: Registry, termux: bool, execute: bool, root: string, before: seq<HistoryEvent>,
                     after: seq<HistoryEvent>, from: nat)
    requires from <= |before| && before <= after
    requires AllAllowed(reg, termux, execute, root, before[from..])
    requires AllAllowed(reg, termux, execute, root, after[|before|..])
    ensures AllAllowed(reg, termux, execute, root, after[from..])
  {
    assert after[from..] == before[from..] + after[|before|..];
  }

  /** All reachable modules are known and may run on this host. */
  ghost predicate HostFits(reg: Registry, termux: bool, name: string) {
    forall n :: Reaches(DependsOn(reg), name, n) ==> n in reg && (reg[n].requiresTermux ==> termux)
  }

  lemma SucceededFits(reg: Registry, termux: bool, execute: bool, name: string, h: seq<HistoryEvent>)
    requires DependenciesFirst(reg, h) && SucceededIn(h, name) && AllAllowed(reg, termux, execute, name, h)
    ensures HostFits(reg, termux, name)
  {
    forall n | Reaches(DependsOn(reg), name, n) ensures n in reg && (reg[n].requiresTermux ==> termux) {
      var p :| IsWalkFrom(DependsOn(reg), p, name) && p[|p| - 1] == n;
      ReachableSucceeded(reg, h, name, p);
      var e :| e in h && Succeeded(e, n);
      assert Allowed(reg, termux, execute, name, e);
    }
  }

  /** Every name of the list: no reachable cycle, everything known, and fit for this host. */
  ghost predicate ListFits(reg: Registry, termux: bool, names: seq<string>) {
    forall n :: n in names ==> WalksClean(reg, n, []) && HostFits(reg, termux, n)
  }

  lemma ListFitsGrows(reg: Registry, termux: bool, names: seq<string>, i: nat)
    requires i < |names| && ListFits(reg, termux, names[..i])
    requires WalksClean(reg, names[i], []) && HostFits(reg, termux, names[i])
    ensures ListFits(reg, termux, names[..i + 1])
  {
    assert names[..i + 1] == names[..i] + [names[i]];
  }

  /** Every script of the list was started for one of the names. */
  ghost predicate ListPinned(reg: Registry, termux: bool, sha: Blob -> string, execute: bool, names: seq<string>,
                             ran: seq<Started>)
  {
    forall s :: s in ran ==> exists n :: n in names && Pinned(reg, termux, sha, execute, n, s)
  }

  lemma ListPinnedGrows(reg: Registry, termux: bool, sha: Blob -> string, execute: bool, names: seq<string>, i: nat,
                        before: seq<Started>, after: seq<Started>, from: nat)
    requires from <= |before| && before <= after && i < |names|
    requires ListPinned(reg, termux, sha, execute, names, before[from..])
    requires AllPinned(reg, termux, sha, execute, names[i], after[|before|..])
    ensures ListPinned(reg, termux, sha, execute, names, after[from..])
  {
    assert after[from..] == before[from..] + after[|before|..];
    assert names[i] in names;
    forall s | s in after[|before|..] ensures exists n :: n in names && Pinned(reg, termux, sha, execute, n, s) {
      assert Pinned(reg, termux, sha, execute, names[i], s);
    }
  }

  /** The error is justified for one of the names. */
  ghost predicate ListExplains(reg: Registry, termux: bool, names: seq<string>, e: InstallError) {
    exists n :: n in names && Explains(reg, termux, n, e)
  }

  lemma ListFails(reg: Registry, termux: bool, names: seq<string>, i: nat, e: InstallError)
    requires i < |names| && Explains(reg, termux, names[i], e)
    ensures ListExplains(reg, termux, names, e)
  {
    assert names[i] in names;
  }

  // ---- The state file and the cache ----

  /** The recorded modules and the cached artifacts. */
  datatype Disk = Disk(modules: map<string, Record>, cache: map<string, Blob>)

  predicate DistinctDests(reg: Registry) {
    forall a, b :: a in reg && b in reg && a != b ==> Dest(reg, a) != Dest(reg, b)
  }

  /** Records of installed modules name the cache file of that module. */
  predicate Tidy(reg: Registry, d: Disk) {
    forall n :: n in d.modules && d.modules[n].status.Installed? ==> n in reg && d.modules[n].artifact == Dest(reg, n)
  }

  /** `installed_identity_ok`: recorded as installed, with an artifact whose blob is the pinned one. */
  predicate IdentityOk(reg: Registry, sha: Blob -> string, d: Disk, n: string) {
    && n in reg && n in d.modules && d.modules[n].status.Installed?
    && d.modules[n].artifact in d.cache && sha(d.cache[d.modules[n].artifact]) == reg[n].pin
  }

  /** The module is recorded as installed, and the file it was installed from is there with the pinned digest. */
  predicate Intact(d: Disk, n: string, sha: Blob -> string, pin: string) {
    && n in d.modules && d.modules[n].status == Installed
    && d.modules[n].artifact in d.cache && sha(d.cache[d.modules[n].artifact]) == pin
  }

  /** What `verify_state` asks of one record. */
  predicate RecordVerified(reg: Registry, sha: Blob -> string, d: Disk, n: string) {
    IdentityOk(reg, sha, d, n) && reg[n].sourceKind == SOURCE_KIND
  }

  predicate StateVerified(reg: Registry, sha: Blob -> string, d: Disk) {
    forall n :: n in d.modules ==> RecordVerified(reg, sha, d, n)
  }

  ghost predicate AllInstalled(reg: Registry, sha: Blob -> string, d: Disk, name: string) {
    forall n :: Reaches(DependsOn(reg), name, n) ==> IdentityOk(reg, sha, d, n)
  }

  /** Everything reachable is known, recorded as installed, and there with its pinned digest. */
  ghost predicate AllIntact(reg: Registry, sha: Blob -> string, d: Disk, name: string) {
    forall n :: Reaches(DependsOn(reg), name, n) ==> n in reg && Intact(d, n, sha, reg[n].pin)
  }

  lemma InstalledIntact(reg: Registry, sha: Blob -> string, d: Disk, name: string)
    ensures AllInstalled(reg, sha, d, name) <==> AllIntact(reg, sha, d, name)
  {
    forall n ensures IdentityOk(reg, sha, d, n) <==> n in reg && Intact(d, n, sha, reg[n].pin) { }
  }

  ghost predicate ListIntact(reg: Registry, sha: Blob -> string, d: Disk, names: seq<string>) {
    forall n :: n in names ==> AllIntact(reg, sha, d, n)
  }

  lemma InstalledListIntact(reg: Registry, sha: Blob -> string, d: Disk, names: seq<string>)
    ensures ListInstalled(reg, sha, d, names) <==> ListIntact(reg, sha, d, names)
  {
    forall n ensures AllInstalled(reg, sha, d, n) <==> AllIntact(reg, sha, d, n) { InstalledIntact(reg, sha, d, n); }
  }

  /** Nothing that was installed and intact is lost on the way from b to a. */
  ghost predicate Preserves(reg: Registry, sha: Blob -> string, b: Disk, a: Disk) {
    forall n :: IdentityOk(reg, sha, b, n) ==> IdentityOk(reg, sha, a, n)
  }

  ghost predicate Keeps(reg: Registry, sha: Blob -> string, execute: bool, b: Disk, a: Disk) {
    && (Tidy(reg, b) ==> Tidy(reg, a))
    && (Tidy(reg, b) && DistinctDests(reg) && execute ==> Preserves(reg, sha, b, a))
  }

  lemma KeepsTrans(reg: Registry, sha: Blob -> string, execute: bool, a: Disk, b: Disk, c: Disk)
    requires Keeps(reg, sha, execute, a, b) && Keeps(reg, sha, execute, b, c)
    ensures Keeps(reg, sha, execute, a, c)
  {
  }

  ghost predicate ListInstalled(reg: Registry, sha: Blob -> string, d: Disk, names: seq<string>) {
    forall n :: n in names ==> AllInstalled(reg, sha, d, n)
  }

  lemma ListInstalledGrows(reg: Registry, sha: Blob -> string, b: Disk, a: Disk, names: seq<string>, i: nat)
    requires i < |names| && Preserves(reg, sha, b, a)
    requires ListInstalled(reg, sha, b, names[..i]) && AllInstalled(reg, sha, a, names[i])
    ensures ListInstalled(reg, sha, a, names[..i + 1])
  {
    forall n | n in names[..i + 1] ensures AllInstalled(reg, sha, a, n) {
      if n != names[i] {
        assert n in names[..i];
        assert AllInstalled(reg, sha, b, n);
      }
    }
  }

  /** Every named module is clean on top of the stack, and has succeeded in h. */
  ghost predicate ListDone(reg: Registry, h: seq<HistoryEvent>, names: seq<string>, stack: seq<string>) {
    forall n :: n in names ==> WalksClean(reg, n, stack) && SucceededIn(h, n)
  }

  lemma ListDoneGrows(reg: Registry, g: seq<HistoryEvent>, h: seq<HistoryEvent>, names: seq<string>, i: nat,
                      stack: seq<string>)
    requires i < |names| && ListDone(reg, g, names[..i], stack)
    requires WalksClean(reg, names[i], stack) && SucceededIn(h, names[i])
    requires forall n :: SucceededIn(g, n) ==> SucceededIn(h, n)
    ensures ListDone(reg, h, names[..i + 1], stack)
  {
    forall n | n in names[..i + 1] ensures WalksClean(reg, n, stack) && SucceededIn(h, n) {
      if n != names[i] { assert n in names[..i]; }
    }
  }

  /** The state file, its history and the cache directory, as the installer rewrites them. */
  class Installer {
    const registry: Registry
    const termux: bool
    const sha: Blob -> string
    const world: World
    var modules: map<string, Record>
    var history: seq<HistoryEvent>
    var cache: map<string, Blob>
    var attempts: nat
    ghost var ran: seq<Started>

    function OnDisk(): Disk
      reads this
    {
      Disk(modules, cache)
    }

    /** `attempts` numbers the attempts so far, `ran` lists every script ever started. */
    constructor (reg: Registry, onTermux: bool, digest: Blob -> string, w: World)
      ensures registry == reg && termux == onTermux && sha == digest && world == w && history == [] && ran == []
      ensures Tidy(reg, OnDisk()) && StateVerified(reg, digest, OnDisk())
    {
      registry, termux, sha, world := reg, onTermux, digest, w;
      modules, history, cache, attempts, ran := map[], [], map[], 0, [];
    }

    /** A download either fails, or stores the blob it got, which has the pinned digest, under the cache name. */
    method Download(name: string) returns (r: Result<string, InstallError>)
      requires name in registry
      modifies this`cache
      ensures var got := world.fetch(attempts, name);
              if registry[name].sourceKind != "github_raw_git_blob" then r == Err(UnsupportedSource(name))
              else if got.None? then r == Err(DownloadFailed(name))
              else if sha(got.value) != registry[name].pin then r == Err(BlobMismatch(name))
              else r == Ok(name + "--" + registry[name].file)
                   && cache == old(cache)[name + "--" + registry[name].file := got.value]
      ensures r.Err? ==> cache == old(cache)
    {
      if registry[name].sourceKind != SOURCE_KIND { return Err(UnsupportedSource(name)); }
      var got := world.fetch(attempts, name);
      if got.None? { return Err(DownloadFailed(name)); }
      if sha(got.value) != registry[name].pin { return Err(BlobMismatch(name)); }
      cache := cache[Dest(registry, name) := got.value];
      r := Ok(Dest(registry, name));
    }

    /** Fetch, check and run. What it ends in, what it records and what it starts is exactly what the attempt says. */
    method FetchAndRun(name: string, execute: bool) returns (r: Result<Status, InstallError>)
      requires name in registry
      modifies this
      ensures attempts == old(attempts) + 1
      ensures ran == old(ran) + Starts(registry[name], name, sha, world, old(attempts), execute)
      ensures var end, dest := Attempt(registry[name], name, sha, world, old(attempts), execute), Dest(registry, name);
              match end
              case Ok(data) =>
                && r == Ok(if execute then Installed else Staged)
                && modules == old(modules)[name := Record(r.value, dest)] && cache == old(cache)[dest := data]
                && history == old(history) + [Installation(name, execute)]
              case Err(e) =>
                && r == Err(e)
                && modules == (if e.InstallerFailed? then old(modules)[name := Record(Failed, dest)] else old(modules))
                && history == old(history) + (if e.InstallerFailed? then [InstallFailed(name)] else [])
      ensures forall f :: f in old(cache) && f != Dest(registry, name) ==> f in cache && cache[f] == old(cache)[f]
      ensures cache == old(cache) || (Dest(registry, name) in cache
                                      && sha(cache[Dest(registry, name)]) == registry[name].pin)
    {
      var t := attempts;
      var got := Download(name);
      attempts := attempts + 1;
      if got.Err? { return Err(got.error); }
      if registry[name].installType != INSTALL_TYPE { return Err(UnsupportedInstallType(name)); }
      var script := cache[got.value];
      if !world.parses(t, script) { return Err(ShellInvalid(name)); }
      if execute {
        ran := ran + [Started(name, script)];
        if !world.exitsZero(t, script) {
          modules := modules[name := Record(Failed, got.value)];
          history := history + [InstallFailed(name)];
          return Err(InstallerFailed(name));
        }
      }
      modules := modules[name := Record(if execute then Installed else Staged, got.value)];
      history := history + [Installation(name, execute)];
      r := Ok(modules[name].status);
    }

    /** Everything after the dependencies: skip if already installed and intact, else fetch, check and run. */
    method InstallSelf(name: string, execute: bool) returns (r: Result<Status, InstallError>)
      requires name in registry
      modifies this
      ensures r.Ok? ==> history == old(history) + [if execute && IdentityOk(registry, sha, old(OnDisk()), name)
                                                   then SkipVerified(name) else Installation(name, execute)]
      ensures r.Err?
              ==> (if r == Err(InstallerFailed(name)) then history == old(history) + [InstallFailed(name)]
                   else history == old(history))
      ensures r.Err? ==> OwnError(registry[name], name, r.error)
      ensures r == Err(InstallerFailed(name)) ==> execute
      ensures r.Ok? && history[|old(history)|] == Installation(name, execute) ==>
                registry[name].sourceKind == "github_raw_git_blob" && registry[name].installType == "shell"
      ensures execute && Intact(old(OnDisk()), name, sha, registry[name].pin) ==>
                r == Ok(Installed) && OnDisk() == old(OnDisk()) && history == old(history) + [SkipVerified(name)]
      ensures ran == old(ran) + (if execute && Intact(old(OnDisk()), name, sha, registry[name].pin) then []
                                 else Starts(registry[name], name, sha, world, old(attempts), execute))
      ensures !(execute && Intact(old(OnDisk()), name, sha, registry[name].pin)) ==>
                var end := Attempt(registry[name], name, sha, world, old(attempts), execute);
                r.Ok? == end.Ok? && (r.Err? ==> r.error == end.error)
      ensures execute && IdentityOk(registry, sha, old(OnDisk()), name) ==> r.Ok? && OnDisk() == old(OnDisk())
      ensures r.Ok? ==> name in modules && r.value == modules[name].status
      ensures r.Ok? && !(execute && IdentityOk(registry, sha, old(OnDisk()), name)) ==>
                modules == old(modules)[name := Record(if execute then Installed else Staged, Dest(registry, name))]
      ensures r == Err(InstallerFailed(name)) ==> modules == old(modules)[name := Record(Failed, Dest(registry, name))]
      ensures r.Err? && r != Err(InstallerFailed(name)) ==> modules == old(modules)
      ensures modules.Keys <= old(modules).Keys + {name}
      ensures forall n :: n in old(modules) && n != name ==> n in modules && modules[n] == old(modules)[n]
      ensures Keeps(registry, sha, execute, old(OnDisk()), OnDisk())
      ensures Tidy(registry, old(OnDisk())) && DistinctDests(registry) && execute && r.Ok?
              ==> IdentityOk(registry, sha, OnDisk(), name)
      ensures r.Ok? && StateVerified(registry, sha, old(OnDisk())) ==>
                IdentityOk(registry, sha, old(OnDisk()), name) || registry[name].sourceKind == SOURCE_KIND
    {
      if execute && IdentityOk(registry, sha, OnDisk(), name) {
        history := history + [SkipVerified(name)];
        return Ok(Installed);
      }
      r := FetchAndRun(name, execute);
    }

    /** A normal return means that everything reachable is known, that no cycle is reachable, and that each
        reachable module succeeded after its dependencies; with execute, under distinct cache names, all of
        them are then installed at their pinned blob. A cycle error names a real cycle. */
    method Install(name: string, execute: bool, path: seq<string>) returns (r: Result<Status, InstallError>)
      requires Calls(registry, path, name)
      modifies this
      ensures old(history) <= history && DependenciesFirst(registry, history[|old(history)|..])
      ensures r.Ok? ==> WalksClean(registry, name, path) && SucceededIn(history[|old(history)|..], name)
      ensures r.Ok? ==> HostFits(registry, termux, name)
      ensures r.Err? ==> Explains(registry, termux, name, r.error)
      ensures AllAllowed(registry, termux, execute, name, history[|old(history)|..])
      ensures old(ran) <= ran && AllPinned(registry, termux, sha, execute, name, ran[|old(ran)|..])
      ensures Keeps(registry, sha, execute, old(OnDisk()), OnDisk())
      ensures Tidy(registry, old(OnDisk())) && DistinctDests(registry) && execute && r.Ok? ==>
                AllInstalled(registry, sha, OnDisk(), name) && AllIntact(registry, sha, OnDisk(), name)
                && (StateVerified(registry, sha, old(OnDisk())) ==> StateVerified(registry, sha, OnDisk()))
      decreases registry.Keys - Elements(path), 1
    {
      ReachesSelf(registry, name);
      if name in path {
        StackRepeatIsCycle(registry, path, name);
        return Err(DependencyCycle(path + [name]));
      }
      if name !in registry { return Err(UnknownModule(name)); }
      PushStack(registry, path, name);
      var failure := InstallDependencies(name, execute, path);
      if failure.Some? { return Err(failure.value); }
      CleanFromDependencies(registry, name, path);
      assert Below(registry, name, name);
      if registry[name].requiresTermux && !termux { return Err(TermuxRequired); }
      ghost var before, disk := history, OnDisk();
      ghost var started := ran;
      StartsPinned(registry, termux, sha, world, attempts, execute, name);
      r := InstallSelf(name, execute);
      PinnedGrows(registry, termux, sha, execute, name, started, ran, |old(ran)|);
      OwnEntry(registry, name, before, history, |old(history)|);
      OwnAllowed(registry, termux, execute, name, before, history, |old(history)|);
      if r.Err? { OwnErrorExplained(registry, termux, name, r.error); }
      KeepsTrans(registry, sha, execute, old(OnDisk()), disk, OnDisk());
      if r.Ok? && Tidy(registry, old(OnDisk())) && DistinctDests(registry) && execute {
        SelfCompletes(registry, sha, disk, OnDisk(), name);
        InstalledIntact(registry, sha, OnDisk(), name);
      }
    }

    /** The loop over `depends_on`. */
    method InstallDependencies(name: string, execute: bool, path: seq<string>) returns (failure: Option<InstallError>)
      requires Calls(registry, path, name) && name !in path && name in registry
      modifies this
      ensures old(history) <= history && DependenciesFirst(registry, history[|old(history)|..])
      ensures failure.None? ==> ListDone(registry, history[|old(history)|..], registry[name].dependsOn, path + [name])
      ensures failure.Some? ==> Explains(registry, termux, name, failure.value)
      ensures AllAllowed(registry, termux, execute, name, history[|old(history)|..])
      ensures old(ran) <= ran && AllPinned(registry, termux, sha, execute, name, ran[|old(ran)|..])
      ensures Keeps(registry, sha, execute, old(OnDisk()), OnDisk())
      ensures Tidy(registry, old(OnDisk())) && DistinctDests(registry) && execute && failure.None? ==>
                ListInstalled(registry, sha, OnDisk(), registry[name].dependsOn)
                && (StateVerified(registry, sha, old(OnDisk())) ==> StateVerified(registry, sha, OnDisk()))
      decreases registry.Keys - Elements(path), 0
    {
      PushStack(registry, path, name);
      var deps := registry[name].dependsOn;
      ghost var from, start := |history|, OnDisk();
      ghost var firm := Tidy(registry, start) && DistinctDests(registry) && execute;
      for i := 0 to |deps|
        invariant old(history) <= history && DependenciesFirst(registry, history[from..])
        invariant ListDone(registry, history[from..], deps[..i], path + [name])
        invariant AllAllowed(registry, termux, execute, name, history[from..])
        invariant old(ran) <= ran && AllPinned(registry, termux, sha, execute, name, ran[|old(ran)|..])
        invariant Keeps(registry, sha, execute, start, OnDisk())
        invariant firm ==> ListInstalled(registry, sha, OnDisk(), deps[..i])
        invariant firm && StateVerified(registry, sha, start) ==> StateVerified(registry, sha, OnDisk())
      {
        ghost var before, disk := history, OnDisk();
        ghost var started := ran;
        var r := Install(deps[i], execute, path + [name]);
        HistoryGrew(registry, before, history, from);
        KeepsTrans(registry, sha, execute, start, disk, OnDisk());
        AllowedThrough(registry, termux, execute, name, deps[i], history[|before|..]);
        AllowedGrows(registry, termux, execute, name, before, history, from);
        PinnedThrough(registry, termux, sha, execute, name, deps[i], ran[|started|..]);
        PinnedGrows(registry, termux, sha, execute, name, started, ran, |old(ran)|);
        if r.Err? {
          ExplainsThrough(registry, termux, name, deps[i], r.error);
          return Some(r.error);
        }
        ListDoneGrows(registry, before[from..], history[from..], deps, i, path + [name]);
        if firm { ListInstalledGrows(registry, sha, disk, OnDisk(), deps, i); }
      }
      assert deps[..|deps|] == deps;
      failure := None;
    }

    /** `install_profile`: every name in order, stopping at the first error. */
    method InstallProfile(names: seq<string>, execute: bool) returns (failure: Option<InstallError>)
      modifies this
      ensures failure.None? ==> ListFits(registry, termux, names)
      ensures failure.Some? ==> ListExplains(registry, termux, names, failure.value)
      ensures old(ran) <= ran && ListPinned(registry, termux, sha, execute, names, ran[|old(ran)|..])
      ensures Keeps(registry, sha, execute, old(OnDisk()), OnDisk())
      ensures Tidy(registry, old(OnDisk())) && DistinctDests(registry) && execute && failure.None? ==>
                ListIntact(registry, sha, OnDisk(), names)
                && (StateVerified(registry, sha, old(OnDisk())) ==> StateVerified(registry, sha, OnDisk()))
    {
      ghost var start := OnDisk();
      ghost var firm := Tidy(registry, start) && DistinctDests(registry) && execute;
      for i := 0 to |names|
        invariant ListFits(registry, termux, names[..i])
        invariant old(ran) <= ran && ListPinned(registry, termux, sha, execute, names, ran[|old(ran)|..])
        invariant Keeps(registry, sha, execute, start, OnDisk())
        invariant firm ==> ListInstalled(registry, sha, OnDisk(), names[..i])
        invariant firm && StateVerified(registry, sha, start) ==> StateVerified(registry, sha, OnDisk())
      {
        ghost var disk := OnDisk();
        ghost var started := ran;
        var r := Install(names[i], execute, []);
        ListPinnedGrows(registry, termux, sha, execute, names, i, started, ran, |old(ran)|);
        KeepsTrans(registry, sha, execute, start, disk, OnDisk());
        if r.Err? {
          ListFails(registry, termux, names, i, r.error);
          return Some(r.error);
        }
        ListFitsGrows(registry, termux, names, i);
        if firm { ListInstalledGrows(registry, sha, disk, OnDisk(), names, i); }
      }
      assert names[..|names|] == names;
      InstalledListIntact(registry, sha, OnDisk(), names);
      failure := None;
    }

    /** `verify_state`: every recorded module is registered, marked installed, and its artifact has the pinned blob. */
    method VerifyState() returns (ok: bool)
      ensures ok <==> StateVerified(registry, sha, OnDisk())
      ensures ok <==> forall n :: n in modules ==>
                        && n in registry && registry[n].sourceKind == "github_raw_git_blob"
                        && modules[n].status == Installed && modules[n].artifact in cache
                        && sha(cache[modules[n].artifact]) == registry[n].pin
    {
      ok := true;
      var todo := modules.Keys;
      while todo != {}
        invariant todo <= modules.Keys
        invariant ok <==> forall n :: n in modules.Keys - todo ==> RecordVerified(registry, sha, OnDisk(), n)
      {
        var n :| n in todo;
        ok := ok && RecordVerified(registry, sha, OnDisk(), n);
        assert modules.Keys - (todo - {n}) == (modules.Keys - todo) + {n};
        todo := todo - {n};
      }
      assert modules.Keys - todo == modules.Keys;
    }
  }

  lemma SelfCompletes(reg: Registry, sha: Blob -> string, b: Disk, a: Disk, name: string)
    requires name in reg && Preserves(reg, sha, b, a) && IdentityOk(reg, sha, a, name)
    requires ListInstalled(reg, sha, b, reg[name].dependsOn)
    requires a.modules.Keys <= b.modules.Keys + {name}
    requires StateVerified(reg, sha, b) ==> IdentityOk(reg, sha, b, name) || reg[name].sourceKind == SOURCE_KIND
    ensures AllInstalled(reg, sha, a, name)
    ensures StateVerified(reg, sha, b) ==> StateVerified(reg, sha, a)
  {
    ReachesSplit(reg, name);
    forall n | Reaches(DependsOn(reg), name, n) ensures IdentityOk(reg, sha, a, n) {
      if n != name {
        var d :| d in reg[name].dependsOn && Reaches(DependsOn(reg), d, n);
        assert AllInstalled(reg, sha, b, d);
      }
    }
  }

  lemma HistoryGrew(reg: Registry, before: seq<HistoryEvent>, after: seq<HistoryEvent>, from: nat)
    requires from <= |before| && before <= after
    requires DependenciesFirst(reg, before[from..]) && DependenciesFirst(reg, after[|before|..])
    ensures DependenciesFirst(reg, after[from..])
    ensures forall n :: SucceededIn(before[from..], n) || SucceededIn(after[|before|..], n)
              ==> SucceededIn(after[from..], n)
  {
    assert after[from..] == before[from..] + after[|before|..];
    DependenciesFirstJoin(reg, before[from..], after[|before|..]);
  }

  lemma OwnEntry(reg: Registry, name: string, before: seq<HistoryEvent>, after: seq<HistoryEvent>, from: nat)
    requires from <= |before| && DependenciesFirst(reg, before[from..])
    requires name in reg && forall d :: d in reg[name].dependsOn ==> SucceededIn(before[from..], d)
    requires after == before
             || (before < after && |after| == |before| + 1
                 && (Succeeded(after[|before|], name) || after[|before|].InstallFailed?))
    ensures before <= after && DependenciesFirst(reg, after[from..])
    ensures after != before && Succeeded(after[|before|], name) ==> SucceededIn(after[from..], name)
  {
    if after != before {
      assert after[from..] == before[from..] + [after[|before|]];
      DependenciesFirstSnoc(reg, before[from..], after[|before|]);
    }
  }

  lemma OwnAllowed(reg: Registry, termux: bool, execute: bool, name: string, before: seq<HistoryEvent>,
                   after: seq<HistoryEvent>, from: nat)
    requires from <= |before| <= |after| <= |before| + 1 && before <= after && DependenciesFirst(reg, after[from..])
    requires AllAllowed(reg, termux, execute, name, before[from..])
    requires after != before ==> Allowed(reg, termux, execute, name, after[|before|])
    ensures AllAllowed(reg, termux, execute, name, after[from..])
    ensures after != before && Succeeded(after[|before|], name) ==> HostFits(reg, termux, name)
  {
    if after != before {
      assert after[|before|..] == [after[|before|]];
      AllowedGrows(reg, termux, execute, name, before, after, from);
      if Succeeded(after[|before|], name) {
        assert after[from..][|before| - from] == after[|before|];
        SucceededFits(reg, termux, execute, name, after[from..]);
      }
    }
  }

  lemma ReachesSplit(reg: Registry, name: string)
    requires name in reg
    ensures forall n :: Reaches(DependsOn(reg), name, n)
              ==> n == name || exists d :: d in reg[name].dependsOn && Reaches(DependsOn(reg), d, n)
  {
    var g := DependsOn(reg);
    forall n | Reaches(g, name, n) ensures n == name || exists d :: d in reg[name].dependsOn && Reaches(g, d, n) {
      var p :| IsWalkFrom(g, p, name) && p[|p| - 1] == n;
      if |p| > 1 {
        assert p[0 + 1] in Succ(g, p[0]);
        WalkSlice(g, p, 1, |p|);
        assert IsWalkFrom(g, p[1..], p[1]) && p[1..][|p[1..]| - 1] == n;
        assert Reaches(g, p[1], n);
      }
    }
  }
}
