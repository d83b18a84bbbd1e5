/** The smart-mode change-impact resolver (internal/myks/smart_mode.go): which environments and
    applications must be rendered again after a set of file changes. */
module SmartMode {
  import opened Collections
  import opened Patterns

  // ---------------------------------------------------------------------------
  // getChanges (lines 177-197): every expression over every path, expressions outermost.

  /** The non-nil `FindStringSubmatch` results of one expression over the paths, in order. */
  function PathSubmatches(g: Globe, e: Expr, paths: seq<string>): (r: seq<Submatch>)
  {
    if paths == [] then []
    else
      var last := Submatches(g, e, paths[|paths| - 1]);
      PathSubmatches(g, e, paths[..|paths| - 1]) + (if last.Some? then [last.value] else [])
  }

  /** The results of all expressions, in the order `getChanges` visits them. */
  function AllSubmatches(g: Globe, exprs: seq<Expr>, paths: seq<string>): (r: seq<Submatch>)
  {
    if exprs == [] then []
    else AllSubmatches(g, exprs[..|exprs| - 1], paths) + PathSubmatches(g, exprs[|exprs| - 1], paths)
  }

  /** What `getChanges` puts in its first list for one result: the whole match when there is no
      group, else the first group. */
  function FirstOf(m: Submatch): string {
    if m.groups == [] then m.whole else m.groups[0]
  }

  function FirstCaptures(ms: seq<Submatch>): (r: seq<string>)
    ensures |r| == |ms|
  {
    if ms == [] then []
    else FirstCaptures(ms[..|ms| - 1]) + [FirstOf(ms[|ms| - 1])]
  }

  /** The second list: the second group of every result that has two groups. */
  function SecondCaptures(ms: seq<Submatch>): seq<string> {
    if ms == [] then []
    else
      var m := ms[|ms| - 1];
      SecondCaptures(ms[..|ms| - 1]) + (if |m.groups| >= 2 then [m.groups[1]] else [])
  }

  lemma CapturesSnoc(ms: seq<Submatch>, m: Submatch)
    ensures FirstCaptures(ms + [m]) == FirstCaptures(ms) + [FirstOf(m)]
    ensures SecondCaptures(ms + [m]) == SecondCaptures(ms) + (if |m.groups| >= 2 then [m.groups[1]] else [])
  {
    assert (ms + [m])[..|ms|] == ms;
  }

  lemma PathSubmatchesSnoc(g: Globe, e: Expr, paths: seq<string>, j: nat)
    requires j < |paths|
    ensures PathSubmatches(g, e, paths[..j + 1]) == PathSubmatches(g, e, paths[..j])
      + (if Submatches(g, e, paths[j]).Some? then [Submatches(g, e, paths[j]).value] else [])
  {
    assert paths[..j + 1][..j] == paths[..j];
  }

  method GetChanges(g: Globe, paths: seq<string>, exprs: seq<Expr>) returns (m1: seq<string>, m2: seq<string>)
    ensures m1 == FirstCaptures(AllSubmatches(g, exprs, paths))
    ensures m2 == SecondCaptures(AllSubmatches(g, exprs, paths))
  {
    m1, m2 := [], [];
    for i := 0 to |exprs|
      invariant m1 == FirstCaptures(AllSubmatches(g, exprs[..i], paths))
      invariant m2 == SecondCaptures(AllSubmatches(g, exprs[..i], paths))
    {
      ghost var before := AllSubmatches(g, exprs[..i], paths);
      assert paths[..0] == [];
      assert before + PathSubmatches(g, exprs[i], paths[..0]) == before;
      for j := 0 to |paths|
        invariant m1 == FirstCaptures(before + PathSubmatches(g, exprs[i], paths[..j]))
        invariant m2 == SecondCaptures(before + PathSubmatches(g, exprs[i], paths[..j]))
      {
        var matches := Submatches(g, exprs[i], paths[j]);
        StepCaptures(g, exprs[i], paths, j, before);
        if matches.Some? {
          var ms := matches.value;
          if |ms.groups| == 0 {
            m1 := m1 + [ms.whole];
          } else if |ms.groups| == 1 {
            m1 := m1 + [ms.groups[0]];
          } else {
            m1 := m1 + [ms.groups[0]];
            m2 := m2 + [ms.groups[1]];
          }
        }
      }
      assert paths[..|paths|] == paths;
      assert exprs[..i + 1][..i] == exprs[..i];
    }
    assert exprs[..|exprs|] == exprs;
  }

  /** One step of the inner loop of `getChanges`: how the two lists grow with one more path. */
  lemma StepCaptures(g: Globe, e: Expr, paths: seq<string>, j: nat, before: seq<Submatch>)
    requires j < |paths|
    ensures var done := before + PathSubmatches(g, e, paths[..j]);
      var next := before + PathSubmatches(g, e, paths[..j + 1]);
      var m := Submatches(g, e, paths[j]);
      && (m.None? ==> next == done)
      && (m.Some? ==> FirstCaptures(next) == FirstCaptures(done) + [FirstOf(m.value)])
      && (m.Some? ==>
            SecondCaptures(next) == SecondCaptures(done) + (if |m.value.groups| >= 2 then [m.value.groups[1]] else []))
  {
    var done := before + PathSubmatches(g, e, paths[..j]);
    PathSubmatchesSnoc(g, e, paths, j);
    var m := Submatches(g, e, paths[j]);
    if m.Some? {
      assert before + PathSubmatches(g, e, paths[..j + 1]) == done + [m.value];
      CapturesSnoc(done, m.value);
    }
  }

  /** No result at all exactly when the expression matches none of the paths. */
  lemma {:induction false} PathSubmatchesEmpty(g: Globe, e: Expr, paths: seq<string>)
    ensures PathSubmatches(g, e, paths) == [] <==> forall p :: p in paths ==> Submatches(g, e, p).None?
  {
    if paths != [] {
      var init := paths[..|paths| - 1];
      PathSubmatchesEmpty(g, e, init);
      assert paths == init + [paths[|paths| - 1]];
    }
  }

  lemma {:induction false} CapturesAppend(a: seq<Submatch>, b: seq<Submatch>)
    ensures FirstCaptures(a + b) == FirstCaptures(a) + FirstCaptures(b)
    ensures SecondCaptures(a + b) == SecondCaptures(a) + SecondCaptures(b)
  {
    if b == [] {
      assert a + b == a;
    } else {
      var b' := b[..|b| - 1];
      assert (a + b)[..|a + b| - 1] == a + b';
      assert (a + b)[|a + b| - 1] == b[|b| - 1];
      CapturesAppend(a, b');
    }
  }

  lemma OneExpr(g: Globe, e: Expr, paths: seq<string>)
    ensures AllSubmatches(g, [e], paths) == PathSubmatches(g, e, paths)
  {
    assert [e][..0] == [];
  }

  // ---------------------------------------------------------------------------
  // checkFileChanged (lines 167-175) and checkGlobalConfigChanged (lines 148-150).

  method CheckFileChanged(g: Globe, paths: seq<string>, exprs: seq<Expr>) returns (changed: bool)
    ensures changed <==> exists e, p :: e in exprs && p in paths && Submatches(g, e, p).Some?
  {
    for i := 0 to |exprs|
      invariant forall e, p :: e in exprs[..i] && p in paths ==> Submatches(g, e, p).None?
    {
      var changes, _ := GetChanges(g, paths, [exprs[i]]);
      OneExpr(g, exprs[i], paths);
      PathSubmatchesEmpty(g, exprs[i], paths);
      if |changes| > 0 {
        return true;
      }
      assert exprs[..i + 1] == exprs[..i] + [exprs[i]];
    }
    assert exprs[..|exprs|] == exprs;
    return false;
  }

  const GlobalExprs: seq<Expr> := [GlobalLibDirExpr, GlobalYttDirExpr, GlobalEnvExpr]

  /** A change under the library dir, under the global ytt dir, or to the base env-data file. */
  predicate GlobalMatch(g: Globe, path: string) {
    GlobalLibDirMatch(g, path) || GlobalYttDirMatch(g, path) || GlobalEnvMatch(g, path)
  }

  method CheckGlobalConfigChanged(g: Globe, paths: seq<string>) returns (changed: bool)
    ensures changed <==> exists p :: p in paths && GlobalMatch(g, p)
  {
    changed := CheckFileChanged(g, paths, GlobalExprs);
    if changed {
      var e, p :| e in GlobalExprs && p in paths && Submatches(g, e, p).Some?;
      assert GlobalMatch(g, p);
    } else {
      forall p | p in paths ensures !GlobalMatch(g, p) {
        assert Submatches(g, GlobalLibDirExpr, p).None?;
        assert Submatches(g, GlobalYttDirExpr, p).None?;
        assert Submatches(g, GlobalEnvExpr, p).None?;
      }
    }
  }

  // ---------------------------------------------------------------------------
  // What each pattern yields over a list of paths, in order.

  /** Environments captured from environment data files. */
  function EnvHits(g: Globe, paths: seq<string>): (r: seq<string>)
    ensures forall env :: env in r <==> exists p :: p in paths && EnvCapture(g, p) == Some(env)
  {
    if paths == [] then []
    else
      var c := EnvCapture(g, paths[|paths| - 1]);
      EnvHits(g, paths[..|paths| - 1]) + (if c.Some? then [c.value] else [])
  }

  /** (environment, application) pairs captured from application paths. */
  function AppHits(g: Globe, paths: seq<string>): (r: seq<(string, string)>)
    ensures forall hit :: hit in r <==> exists p :: p in paths && AppCapture(g, p) == Some(hit)
  {
    if paths == [] then []
    else
      var c := AppCapture(g, paths[|paths| - 1]);
      AppHits(g, paths[..|paths| - 1]) + (if c.Some? then [c.value] else [])
  }

  /** Prototype names captured by the prototype pattern with the given tail. */
  function ProtoHits(g: Globe, t: Tail, paths: seq<string>): (r: seq<string>)
    ensures forall name :: name in r <==> exists p :: p in paths && ProtoCapture(g, t, p) == Some(name)
  {
    if paths == [] then []
    else
      var c := ProtoCapture(g, t, paths[|paths| - 1]);
      ProtoHits(g, t, paths[..|paths| - 1]) + (if c.Some? then [c.value] else [])
  }

  function Fsts(s: seq<(string, string)>): (r: seq<string>)
    ensures |r| == |s| && forall i :: 0 <= i < |s| ==> r[i] == s[i].0
  {
    seq(|s|, i requires 0 <= i < |s| => s[i].0)
  }

  function Snds(s: seq<(string, string)>): (r: seq<string>)
    ensures |r| == |s| && forall i :: 0 <= i < |s| ==> r[i] == s[i].1
  {
    seq(|s|, i requires 0 <= i < |s| => s[i].1)
  }

  /** With the one-group environment pattern, the first list holds the captured environments in
      path order and the second list stays empty. */
  lemma {:induction false} EnvChanges(g: Globe, paths: seq<string>)
    ensures FirstCaptures(PathSubmatches(g, EnvsExpr, paths)) == EnvHits(g, paths)
    ensures SecondCaptures(PathSubmatches(g, EnvsExpr, paths)) == []
  {
    if paths != [] {
      var init := paths[..|paths| - 1];
      EnvChanges(g, init);
      var last := paths[|paths| - 1];
      var m := Submatches(g, EnvsExpr, last);
      assert m.Some? <==> EnvCapture(g, last).Some?;
      if m.Some? {
        assert PathSubmatches(g, EnvsExpr, paths) == PathSubmatches(g, EnvsExpr, init) + [m.value];
        assert m.value.groups == [EnvCapture(g, last).value];
        CapturesSnoc(PathSubmatches(g, EnvsExpr, init), m.value);
        assert EnvHits(g, paths) == EnvHits(g, init) + [EnvCapture(g, last).value];
        assert FirstCaptures(PathSubmatches(g, EnvsExpr, paths)) == EnvHits(g, paths);
        assert SecondCaptures(PathSubmatches(g, EnvsExpr, paths)) == [];
      } else {
        assert PathSubmatches(g, EnvsExpr, paths) == PathSubmatches(g, EnvsExpr, init);
        assert EnvHits(g, paths) == EnvHits(g, init);
      }
    }
  }

  /** With the two-group application pattern, entry i of the first list and entry i of the second
      come from the same path: together they are the captured (environment, application) pairs. */
  lemma {:induction false} AppChanges(g: Globe, paths: seq<string>)
    ensures FirstCaptures(PathSubmatches(g, AppsExpr, paths)) == Fsts(AppHits(g, paths))
    ensures SecondCaptures(PathSubmatches(g, AppsExpr, paths)) == Snds(AppHits(g, paths))
  {
    if paths != [] {
      var init := paths[..|paths| - 1];
      AppChanges(g, init);
      AppChangesSnoc(g, init, paths[|paths| - 1]);
      assert init + [paths[|paths| - 1]] == paths;
    }
  }

  /** The inductive step of `AppChanges`: one more path. */
  lemma AppChangesSnoc(g: Globe, init: seq<string>, last: string)
    requires FirstCaptures(PathSubmatches(g, AppsExpr, init)) == Fsts(AppHits(g, init))
    requires SecondCaptures(PathSubmatches(g, AppsExpr, init)) == Snds(AppHits(g, init))
    ensures FirstCaptures(PathSubmatches(g, AppsExpr, init + [last])) == Fsts(AppHits(g, init + [last]))
    ensures SecondCaptures(PathSubmatches(g, AppsExpr, init + [last])) == Snds(AppHits(g, init + [last]))
  {
    var paths := init + [last];
    assert paths[..|paths| - 1] == init;
    var m := Submatches(g, AppsExpr, last);
    assert m.Some? <==> AppCapture(g, last).Some?;
    if m.Some? {
      var c := AppCapture(g, last).value;
      assert PathSubmatches(g, AppsExpr, paths) == PathSubmatches(g, AppsExpr, init) + [m.value];
      assert m.value.groups == [c.0, c.1];
      CapturesSnoc(PathSubmatches(g, AppsExpr, init), m.value);
      var hits := AppHits(g, init);
      assert AppHits(g, paths) == hits + [c];
      assert Fsts(hits + [c]) == Fsts(hits) + [c.0];
      assert Snds(hits + [c]) == Snds(hits) + [c.1];
    } else {
      assert PathSubmatches(g, AppsExpr, paths) == PathSubmatches(g, AppsExpr, init);
      assert AppHits(g, paths) == AppHits(g, init);
    }
  }


  /** With the two prototype patterns (data file first), the first list is the data-file hits
      followed by the step-directory hits, and the second list stays empty. */
  lemma {:induction false} ProtoChangesOne(g: Globe, e: Expr, t: Tail, paths: seq<string>)
    requires e == PrototypeExpr || e == PrototypeDataFileExpr
    requires t == (if e == PrototypeExpr then StepDir(PrototypeStepDirs(g)) else DataFile(g.applicationDataFileName))
    ensures FirstCaptures(PathSubmatches(g, e, paths)) == ProtoHits(g, t, paths)
    ensures SecondCaptures(PathSubmatches(g, e, paths)) == []
  {
    if paths != [] {
      var init := paths[..|paths| - 1];
      ProtoChangesOne(g, e, t, init);
      var last := paths[|paths| - 1];
      var m := Submatches(g, e, last);
      assert m.Some? <==> ProtoCapture(g, t, last).Some?;
      if m.Some? {
        assert PathSubmatches(g, e, paths) == PathSubmatches(g, e, init) + [m.value];
        assert m.value.groups == [ProtoCapture(g, t, last).value];
        CapturesSnoc(PathSubmatches(g, e, init), m.value);
        assert ProtoHits(g, t, paths) == ProtoHits(g, t, init) + [ProtoCapture(g, t, last).value];
      } else {
        assert PathSubmatches(g, e, paths) == PathSubmatches(g, e, init);
        assert ProtoHits(g, t, paths) == ProtoHits(g, t, init);
      }
    }
  }

  const PrototypeExprs: seq<Expr> := [PrototypeDataFileExpr, PrototypeExpr]

  lemma ProtoChanges(g: Globe, paths: seq<string>)
    ensures FirstCaptures(AllSubmatches(g, PrototypeExprs, paths)) == ChangedPrototypes(g, paths)
  {
    assert PrototypeExprs[..1] == [PrototypeDataFileExpr];
    OneExpr(g, PrototypeDataFileExpr, paths);
    assert AllSubmatches(g, PrototypeExprs, paths)
      == PathSubmatches(g, PrototypeDataFileExpr, paths) + PathSubmatches(g, PrototypeExpr, paths);
    CapturesAppend(PathSubmatches(g, PrototypeDataFileExpr, paths), PathSubmatches(g, PrototypeExpr, paths));
    ProtoChangesOne(g, PrototypeDataFileExpr, DataFile(g.applicationDataFileName), paths);
    ProtoChangesOne(g, PrototypeExpr, StepDir(PrototypeStepDirs(g)), paths);
  }

  /** The prototype names that `getModifiedPrototypes` reports, in order: the data-file hits of every
      path, then the step-directory hits. */
  function ChangedPrototypes(g: Globe, paths: seq<string>): (r: seq<string>)
    ensures forall name :: name in r <==>
      (exists p :: p in paths && ProtoCapture(g, DataFile(g.applicationDataFileName), p) == Some(name))
      || (exists p :: p in paths && ProtoCapture(g, StepDir(PrototypeStepDirs(g)), p) == Some(name))
  {
    ProtoHits(g, DataFile(g.applicationDataFileName), paths) + ProtoHits(g, StepDir(PrototypeStepDirs(g)), paths)
  }

  // ---------------------------------------------------------------------------
  // getModifiedPrototypes, getModifiedApps, getModifiedEnvs (lines 152-165) and
  // filterDeletedEnvs (lines 199-210).

  method GetModifiedPrototypes(g: Globe, paths: seq<string>) returns (protos: seq<string>)
    ensures protos == ChangedPrototypes(g, paths)
  {
    var second;
    protos, second := GetChanges(g, paths, PrototypeExprs);
    ProtoChanges(g, paths);
  }

  /** `removeSubPaths` is not part of this model: all the resolver may rely on is that it keeps only
      entries of its input. */
  ghost predicate SubsetCollapse(collapse: seq<string> -> seq<string>) {
    forall s :: Elems(collapse(s)) <= Elems(s)
  }

  /** A `removeSubPaths` that drops an entry only for another entry nested with it keeps at least
      one entry of a non-empty list, whichever of the two it keeps. */
  ghost predicate KeepsSome(collapse: seq<string> -> seq<string>) {
    forall s :: s != [] ==> collapse(s) != []
  }

  /** Such a collapse empties exactly the empty list. */
  lemma CollapseEmpty(collapse: seq<string> -> seq<string>, s: seq<string>)
    requires SubsetCollapse(collapse) && KeepsSome(collapse)
    ensures collapse(s) == [] <==> s == []
  {
    if s == [] {
      assert Elems(collapse(s)) <= Elems(s);
      EmptyList(collapse(s));
    }
  }

  method GetModifiedEnvs(g: Globe, paths: seq<string>, collapse: seq<string> -> seq<string>) returns (envs: seq<string>)
    requires SubsetCollapse(collapse)
    ensures envs == collapse(EnvHits(g, paths))
    ensures forall env :: env in envs ==> exists p :: p in paths && EnvCapture(g, p) == Some(env)
  {
    var hits, _ := GetChanges(g, paths, [EnvsExpr]);
    OneExpr(g, EnvsExpr, paths);
    EnvChanges(g, paths);
    envs := collapse(hits);
    forall env | env in envs ensures exists p :: p in paths && EnvCapture(g, p) == Some(env) {
      assert env in Elems(collapse(hits));
      assert env in hits;
    }
  }

  /** The pairs that survive the deletion filter: those whose environment is not deleted. */
  function Live(deletedEnvs: seq<string>): ((string, string)) -> bool {
    (pair: (string, string)) => pair.0 !in deletedEnvs
  }

  lemma ZipPrefix(envs: seq<string>, apps: seq<string>)
    requires |envs| <= |apps|
    ensures Zip(envs[..|envs|], apps[..|envs|]) == Zip(envs, apps)
  {
    assert envs[..|envs|] == envs;
  }

  /** One step of the loop of `filterDeletedEnvs`. */
  lemma FilterDeletedStep(envs: seq<string>, apps: seq<string>, deletedEnvs: seq<string>, i: nat,
                          resultEnvs: seq<string>, resultApps: seq<string>)
    requires i < |envs| <= |apps|
    requires |resultEnvs| == |resultApps|
    requires Zip(resultEnvs, resultApps) == Filter(Zip(envs[..i], apps[..i]), Live(deletedEnvs))
    ensures envs[i] !in deletedEnvs ==>
      Zip(resultEnvs + [envs[i]], resultApps + [apps[i]]) == Filter(Zip(envs[..i + 1], apps[..i + 1]), Live(deletedEnvs))
    ensures envs[i] in deletedEnvs ==>
      Zip(resultEnvs, resultApps) == Filter(Zip(envs[..i + 1], apps[..i + 1]), Live(deletedEnvs))
  {
    var pair := (envs[i], apps[i]);
    assert Zip(envs[..i + 1], apps[..i + 1]) == Zip(envs[..i], apps[..i]) + [pair];
    FilterSnoc(Zip(envs[..i], apps[..i]), pair, Live(deletedEnvs));
    assert Zip(resultEnvs + [envs[i]], resultApps + [apps[i]]) == Zip(resultEnvs, resultApps) + [pair];
  }

  /** Keeps, in order, the (environment, application) pairs whose environment was not deleted; `apps`
      is indexed in step with `envs`, so it must be at least as long. */
  method FilterDeletedEnvs(envs: seq<string>, apps: seq<string>, deletedEnvs: seq<string>)
    returns (resultEnvs: seq<string>, resultApps: seq<string>)
    requires |envs| <= |apps|
    ensures |resultEnvs| == |resultApps|
    ensures Zip(resultEnvs, resultApps) == Filter(Zip(envs, apps), Live(deletedEnvs))
  {
    resultEnvs, resultApps := [], [];
    for i := 0 to |envs|
      invariant |resultEnvs| == |resultApps|
      invariant Zip(resultEnvs, resultApps) == Filter(Zip(envs[..i], apps[..i]), Live(deletedEnvs))
    {
      FilterDeletedStep(envs, apps, deletedEnvs, i, resultEnvs, resultApps);
      if envs[i] !in deletedEnvs {
        resultEnvs := resultEnvs + [envs[i]];
        resultApps := resultApps + [apps[i]];
      }
    }
    ZipPrefix(envs, apps);
  }

  /** The application hits of the paths that survive the deletion filter. */
  function LiveAppHits(g: Globe, paths: seq<string>, deletedEnvs: seq<string>): (r: seq<(string, string)>)
    ensures forall hit :: hit in r <==>
      hit.0 !in deletedEnvs && exists p :: p in paths && AppCapture(g, p) == Some(hit)
  {
    Filter(AppHits(g, paths), Live(deletedEnvs))
  }

  method GetModifiedApps(g: Globe, paths: seq<string>, deletedEnvs: seq<string>) returns (envs: seq<string>, apps: seq<string>)
    ensures |envs| == |apps|
    ensures Zip(envs, apps) == LiveAppHits(g, paths, deletedEnvs)
  {
    var m1, m2 := GetChanges(g, paths, [AppsExpr]);
    OneExpr(g, AppsExpr, paths);
    AppChanges(g, paths);
    var hits := AppHits(g, paths);
    assert Zip(m1, m2) == hits;
    envs, apps := FilterDeletedEnvs(m1, m2, deletedEnvs);
  }

  // ---------------------------------------------------------------------------
  // findPrototypeUsage (lines 132-146). The environment inventory maps each environment path to
  // the applications found in it, keyed by prototype path (`foundApplications`).

  type Inventory = map<string, map<string, string>>

  function HasSuffix(s: string, suffix: string): bool {
    |suffix| <= |s| && s[|s| - |suffix|..] == suffix
  }

  /** An application whose prototype key is `proto` itself or ends in `/proto` uses `proto`. */
  function UsesPrototype(key: string, proto: string): bool {
    key == proto || HasSuffix(key, "/" + proto)
  }

  predicate UsesAny(key: string, protos: seq<string>) {
    exists q :: q in protos && UsesPrototype(key, q)
  }

  /** The names of the applications of one environment that use `proto`. */
  function AppsOf(found: map<string, string>, proto: string): set<string> {
    set k | k in found && UsesPrototype(k, proto) :: found[k]
  }

  /** Environments (among `dom`) with an application using one of `protos`. */
  function UsageEnvsIn(protos: seq<string>, inv: Inventory, dom: set<string>): set<string> {
    set e | e in inv && e in dom && exists k :: k in inv[e] && UsesAny(k, protos)
  }

  /** Names of the applications (of environments among `dom`) using one of `protos`. */
  function UsageAppsIn(protos: seq<string>, inv: Inventory, dom: set<string>): set<string> {
    set e, k | e in inv && e in dom && k in inv[e] && UsesAny(k, protos) :: inv[e][k]
  }

  function UsageEnvs(protos: seq<string>, inv: Inventory): set<string> {
    UsageEnvsIn(protos, inv, inv.Keys)
  }

  function UsageApps(protos: seq<string>, inv: Inventory): set<string> {
    UsageAppsIn(protos, inv, inv.Keys)
  }

  /** The inner loop over one environment's applications: the names of those using `proto`, one
      per matching application. */
  method AppsUsing(proto: string, found: map<string, string>) returns (names: seq<string>)
    ensures Elems(names) == AppsOf(found, proto)
  {
    names := [];
    var remaining := found.Keys;
    while remaining != {}
      invariant remaining <= found.Keys
      invariant Elems(names) == set k | k in found && k !in remaining && UsesPrototype(k, proto) :: found[k]
      decreases |remaining|
    {
      var k :| k in remaining;
      ghost var seen := set k' | k' in found && k' !in remaining && UsesPrototype(k', proto) :: found[k'];
      ghost var seen' := set k' | k' in found && k' !in remaining - {k} && UsesPrototype(k', proto) :: found[k'];
      assert seen' == seen + (if UsesPrototype(k, proto) then {found[k]} else {});
      if UsesPrototype(k, proto) {
        names := names + [found[k]];
      }
      remaining := remaining - {k};
    }
  }

  /** Using one of `[proto]` is using `proto`. */
  lemma UsesOne(proto: string)
    ensures forall k :: UsesAny(k, [proto]) <==> UsesPrototype(k, proto)
  {
    forall k ensures UsesAny(k, [proto]) <==> UsesPrototype(k, proto) {
      assert proto in [proto];
    }
  }

  /** Adding environment `e` to the domain adds `e` exactly when one of its applications uses `proto`. */
  lemma UsageEnvStep(proto: string, inv: Inventory, dom: set<string>, e: string)
    requires e in inv
    ensures UsageEnvsIn([proto], inv, dom + {e})
      == UsageEnvsIn([proto], inv, dom) + (if AppsOf(inv[e], proto) != {} then {e} else {})
  {
    UsesOne(proto);
    assert forall k :: k in inv[e] && UsesPrototype(k, proto) ==> inv[e][k] in AppsOf(inv[e], proto);
    if AppsOf(inv[e], proto) != {} {
      var name :| name in AppsOf(inv[e], proto);
      var k :| k in inv[e] && UsesPrototype(k, proto) && inv[e][k] == name;
    }
  }

  /** Adding environment `e` to the domain adds the names of its applications using `proto`. */
  lemma UsageAppStep(proto: string, inv: Inventory, dom: set<string>, e: string)
    requires e in inv
    ensures UsageAppsIn([proto], inv, dom + {e}) == UsageAppsIn([proto], inv, dom) + AppsOf(inv[e], proto)
  {
    UsesOne(proto);
  }

  lemma UsageSnoc(protos: seq<string>, proto: string, inv: Inventory)
    ensures UsageEnvs(protos + [proto], inv) == UsageEnvs(protos, inv) + UsageEnvs([proto], inv)
    ensures UsageApps(protos + [proto], inv) == UsageApps(protos, inv) + UsageApps([proto], inv)
  {
    forall k ensures UsesAny(k, protos + [proto]) <==> UsesAny(k, protos) || UsesAny(k, [proto]) {
      if UsesAny(k, protos + [proto]) {
        var q :| q in protos + [proto] && UsesPrototype(k, q);
        if q in protos {
        } else {
          assert q in [proto];
        }
      }
      if UsesAny(k, [proto]) {
        var q :| q in [proto] && UsesPrototype(k, q);
        assert q in protos + [proto];
      }
      if UsesAny(k, protos) {
        var q :| q in protos && UsesPrototype(k, q);
        assert q in protos + [proto];
      }
    }
  }

  /** `names` copies of `e`. */
  lemma RepeatedElems(e: string, names: seq<string>)
    ensures Elems(seq(|names|, _ => e)) == if names != [] then {e} else {}
  {
    var repeated := seq(|names|, _ => e);
    if names != [] {
      assert repeated[0] == e;
    }
  }

  /** One environment visited by the middle loop of `findPrototypeUsage`: its path is appended once
      per matching application. */
  lemma FanOutEnvStep(proto: string, inv: Inventory, remaining: set<string>, e: string,
                      envList: seq<string>, names: seq<string>)
    requires remaining <= inv.Keys && e in remaining
    requires Elems(names) == AppsOf(inv[e], proto)
    requires Elems(envList) == UsageEnvsIn([proto], inv, inv.Keys - remaining)
    ensures Elems(envList + seq(|names|, _ => e)) == UsageEnvsIn([proto], inv, inv.Keys - (remaining - {e}))
  {
    UsageEnvStep(proto, inv, inv.Keys - remaining, e);
    assert inv.Keys - (remaining - {e}) == (inv.Keys - remaining) + {e};
    assert names != [] ==> names[0] in Elems(names);
    RepeatedElems(e, names);
    ElemsAppend(envList, seq(|names|, _ => e));
  }

  /** The same step for the application names: the matching names are appended. */
  lemma FanOutAppStep(proto: string, inv: Inventory, remaining: set<string>, e: string,
                      appList: seq<string>, names: seq<string>)
    requires remaining <= inv.Keys && e in remaining
    requires Elems(names) == AppsOf(inv[e], proto)
    requires Elems(appList) == UsageAppsIn([proto], inv, inv.Keys - remaining)
    ensures Elems(appList + names) == UsageAppsIn([proto], inv, inv.Keys - (remaining - {e}))
  {
    UsageAppStep(proto, inv, inv.Keys - remaining, e);
    assert inv.Keys - (remaining - {e}) == (inv.Keys - remaining) + {e};
    ElemsAppend(appList, names);
  }

  lemma UsageOfNone(proto: string, inv: Inventory)
    ensures UsageEnvsIn([proto], inv, inv.Keys - inv.Keys) == {}
    ensures UsageAppsIn([proto], inv, inv.Keys - inv.Keys) == {}
  {
    assert inv.Keys - inv.Keys == {};
  }

  /** The outer loop of `findPrototypeUsage` after one more prototype. */
  lemma UsagePrefix(protos: seq<string>, i: nat, inv: Inventory, envList: seq<string>, appList: seq<string>,
                    envAdd: seq<string>, appAdd: seq<string>)
    requires i < |protos|
    requires Elems(envList) == UsageEnvs(protos[..i], inv) && Elems(appList) == UsageApps(protos[..i], inv)
    requires Elems(envAdd) == UsageEnvs([protos[i]], inv) && Elems(appAdd) == UsageApps([protos[i]], inv)
    ensures Elems(envList + envAdd) == UsageEnvs(protos[..i + 1], inv)
    ensures Elems(appList + appAdd) == UsageApps(protos[..i + 1], inv)
  {
    UsageSnoc(protos[..i], protos[i], inv);
    assert protos[..i + 1] == protos[..i] + [protos[i]];
    ElemsAppend(envList, envAdd);
    ElemsAppend(appList, appAdd);
  }

  /** The two inner loops of `findPrototypeUsage` for one prototype: every environment path and
      application name with an application using `proto`, once per matching application. */
  method UsageOfOne(proto: string, inv: Inventory) returns (envList: seq<string>, appList: seq<string>)
    ensures Elems(envList) == UsageEnvs([proto], inv)
    ensures Elems(appList) == UsageApps([proto], inv)
  {
    envList, appList := [], [];
    var remaining := inv.Keys;
    UsageOfNone(proto, inv);
    while remaining != {}
      invariant remaining <= inv.Keys
      invariant Elems(envList) == UsageEnvsIn([proto], inv, inv.Keys - remaining)
      invariant Elems(appList) == UsageAppsIn([proto], inv, inv.Keys - remaining)
      decreases |remaining|
    {
      var e :| e in remaining;
      var names := AppsUsing(proto, inv[e]);
      FanOutEnvStep(proto, inv, remaining, e, envList, names);
      FanOutAppStep(proto, inv, remaining, e, appList, names);
      envList := envList + seq(|names|, _ => e);
      appList := appList + names;
      remaining := remaining - {e};
    }
  }

  /** Every environment and application name with an application whose prototype key names one of
      the changed prototypes, each once. */
  method FindPrototypeUsage(protos: seq<string>, inv: Inventory) returns (envs: seq<string>, apps: seq<string>)
    ensures NoDups(envs) && NoDups(apps)
    ensures Elems(envs) == UsageEnvs(protos, inv)
    ensures Elems(apps) == UsageApps(protos, inv)
  {
    var envList: seq<string> := [];
    var appList: seq<string> := [];
    for i := 0 to |protos|
      invariant Elems(envList) == UsageEnvs(protos[..i], inv)
      invariant Elems(appList) == UsageApps(protos[..i], inv)
    {
      var envAdd, appAdd := UsageOfOne(protos[i], inv);
      UsagePrefix(protos, i, inv, envList, appList, envAdd, appAdd);
      envList := envList + envAdd;
      appList := appList + appAdd;
    }
    assert protos[..|protos|] == protos;
    envs := Dedup(envList);
    apps := Dedup(appList);
  }

  // ---------------------------------------------------------------------------
  // runSmartMode (lines 98-130). `ChangedFiles` maps each changed path to its one-letter git status;
  // Go's `maps.Keys` lists the keys in an unspecified order, so the three key lists are inputs
  // required to enumerate the right key sets.

  type ChangedFiles = map<string, string>

  /** `s` lists the elements of `keys`, each once, in some order. */
  predicate Enumerates(s: seq<string>, keys: set<string>) {
    NoDups(s) && Elems(s) == keys
  }

  /** Paths whose status is "D" (deleted). */
  function Deletions(changed: ChangedFiles): set<string> {
    set p | p in changed && changed[p] == "D"
  }

  lemma FstsOfZip(envs: seq<string>, apps: seq<string>)
    requires |envs| == |apps|
    ensures Fsts(Zip(envs, apps)) == envs && Snds(Zip(envs, apps)) == apps
  {
  }

  /** A Go slice that may be nil. `removeDuplicates`, whose body is not part of this model, either
      returns nil for an empty input (`nilOnEmpty`) or never returns nil; `sort.Strings` keeps a
      nil slice nil. */
  function GoSlice(s: seq<string>, nilOnEmpty: bool): (r: Option<seq<string>>)
  {
    if nilOnEmpty && s == [] then None else Some(s)
  }

  /** The end of `runSmartMode` (lines 115-129): with environment-level changes only whole
      environments can be rebuilt, otherwise the environment and application lists are merged;
      each list is deduplicated and sorted, and an empty one is nil when `removeDuplicates` makes
      it so. */
  function Combine(modifiedEnvs: seq<string>, envsFromProto: seq<string>, envsFromApp: seq<string>,
                   modifiedApps: seq<string>, appsFromProto: seq<string>, nilOnEmpty: bool)
    : (r: (Option<seq<string>>, Option<seq<string>>))
    ensures r.0.None? <==> nilOnEmpty && Elems(modifiedEnvs) + Elems(envsFromProto) + Elems(envsFromApp) == {}
    ensures r.0.Some? ==> Sorted(r.0.value) && NoDups(r.0.value)
    ensures r.0.Some? ==> Elems(r.0.value) == Elems(modifiedEnvs) + Elems(envsFromProto) + Elems(envsFromApp)
    ensures r.1.None? <==> modifiedEnvs != [] || (nilOnEmpty && Elems(modifiedApps) + Elems(appsFromProto) == {})
    ensures r.1.Some? ==> Sorted(r.1.value) && NoDups(r.1.value)
    ensures r.1.Some? ==> Elems(r.1.value) == Elems(modifiedApps) + Elems(appsFromProto)
  {
    ElemsAppend(modifiedEnvs, envsFromProto);
    ElemsAppend(modifiedEnvs + envsFromProto, envsFromApp);
    ElemsAppend(envsFromProto, envsFromApp);
    ElemsAppend(modifiedApps, appsFromProto);
    EmptyList(modifiedEnvs);
    EmptyList(SortedSet(envsFromProto + envsFromApp));
    EmptyList(SortedSet(modifiedApps + appsFromProto));
    if |modifiedEnvs| > 0 then
      (Some(SortedSet(modifiedEnvs + envsFromProto + envsFromApp)), None)
    else
      (GoSlice(SortedSet(envsFromProto + envsFromApp), nilOnEmpty),
       GoSlice(SortedSet(modifiedApps + appsFromProto), nilOnEmpty))
  }

  /** The environments reported when no global change was found: the collapsed environment-data
      hits among live paths, the environments of live application hits and those with an
      application built from a changed prototype. */
  function TargetEnvs(g: Globe, keys: seq<string>, deletions: seq<string>, live: seq<string>,
                      inv: Inventory, collapse: seq<string> -> seq<string>): set<string>
  {
    Elems(collapse(EnvHits(g, live)))
      + Elems(Fsts(LiveAppHits(g, keys, collapse(EnvHits(g, deletions)))))
      + UsageEnvs(ChangedPrototypes(g, keys), inv)
  }

  /** The applications reported when they are reported at all: the live application hits and
      those built from a changed prototype. */
  function TargetApps(g: Globe, keys: seq<string>, deletions: seq<string>, inv: Inventory,
                      collapse: seq<string> -> seq<string>): set<string>
  {
    Elems(Snds(LiveAppHits(g, keys, collapse(EnvHits(g, deletions))))) + UsageApps(ChangedPrototypes(g, keys), inv)
  }

  /** Without target environments there are no target applications and no environment-data hits. */
  lemma NoTargets(g: Globe, keys: seq<string>, deletions: seq<string>, live: seq<string>,
                  inv: Inventory, collapse: seq<string> -> seq<string>)
    requires TargetEnvs(g, keys, deletions, live, inv, collapse) == {}
    ensures collapse(EnvHits(g, live)) == []
    ensures TargetApps(g, keys, deletions, inv, collapse) == {}
  {
    var hits := LiveAppHits(g, keys, collapse(EnvHits(g, deletions)));
    EmptyList(collapse(EnvHits(g, live)));
    EmptyList(Fsts(hits));
    assert Snds(hits) == [];
    UsageAppsNeedEnvs(ChangedPrototypes(g, keys), inv);
  }

  /** An application using a prototype lies in an environment using it. */
  lemma UsageAppsNeedEnvs(protos: seq<string>, inv: Inventory)
    ensures UsageApps(protos, inv) != {} ==> UsageEnvs(protos, inv) != {}
  {
    if a :| a in UsageApps(protos, inv) {
      var e, k :| e in inv && k in inv[e] && UsesAny(k, protos) && inv[e][k] == a;
      assert e in UsageEnvs(protos, inv);
    }
  }

  /** Either rebuild everything (`None`, `None`), whole environments (`Some`, `None`) or individual
      applications (`Some`, `Some`); the lists are sorted and duplicate-free. `nilOnEmpty` says
      whether `removeDuplicates` returns nil for an empty input: then a change set without any
      target also yields the rebuild-everything result. */
  method RunSmartMode(g: Globe, changed: ChangedFiles, keys: seq<string>, deletions: seq<string>,
                      live: seq<string>, inv: Inventory, collapse: seq<string> -> seq<string>, nilOnEmpty: bool)
    returns (envs: Option<seq<string>>, apps: Option<seq<string>>)
    requires Enumerates(keys, changed.Keys)
    requires Enumerates(deletions, Deletions(changed))
    requires Enumerates(live, changed.Keys - Deletions(changed))
    requires SubsetCollapse(collapse)
    ensures envs.None? && apps.None? <==>
      (exists p :: p in changed && GlobalMatch(g, p))
      || (nilOnEmpty && TargetEnvs(g, keys, deletions, live, inv, collapse) == {}
          && TargetApps(g, keys, deletions, inv, collapse) == {})
    ensures envs.None? ==> apps.None?
    ensures (exists p :: p in changed && GlobalMatch(g, p)) ==> envs.None?
    ensures !(exists p :: p in changed && GlobalMatch(g, p)) ==>
      (envs.None? <==> nilOnEmpty && TargetEnvs(g, keys, deletions, live, inv, collapse) == {})
    ensures !(exists p :: p in changed && GlobalMatch(g, p)) ==>
      (apps.None? <==> collapse(EnvHits(g, live)) != []
                       || (nilOnEmpty && TargetApps(g, keys, deletions, inv, collapse) == {}))
    ensures KeepsSome(collapse) && !(exists p :: p in changed && GlobalMatch(g, p)) ==>
      (apps.None? <==> EnvHits(g, live) != []
                       || (nilOnEmpty && TargetApps(g, keys, deletions, inv, collapse) == {}))
    ensures envs.Some? ==> Sorted(envs.value) && NoDups(envs.value)
    ensures envs.Some? ==> Elems(envs.value) == TargetEnvs(g, keys, deletions, live, inv, collapse)
    ensures apps.Some? ==> Sorted(apps.value) && NoDups(apps.value)
    ensures apps.Some? ==> Elems(apps.value) == TargetApps(g, keys, deletions, inv, collapse)
  {
    var global := CheckGlobalConfigChanged(g, keys);
    GlobalInKeys(g, keys, changed);
    if global {
      return None, None;
    }
    envs, apps := ResolveTargets(g, keys, deletions, live, inv, collapse, nilOnEmpty);
    if TargetEnvs(g, keys, deletions, live, inv, collapse) == {} {
      NoTargets(g, keys, deletions, live, inv, collapse);
    }
  }

  /** Everything `runSmartMode` does once no global change was found. */
  method ResolveTargets(g: Globe, keys: seq<string>, deletions: seq<string>, live: seq<string>,
                        inv: Inventory, collapse: seq<string> -> seq<string>, nilOnEmpty: bool)
    returns (envs: Option<seq<string>>, apps: Option<seq<string>>)
    requires SubsetCollapse(collapse)
    ensures envs.None? <==> nilOnEmpty && TargetEnvs(g, keys, deletions, live, inv, collapse) == {}
    ensures envs.Some? ==> Sorted(envs.value) && NoDups(envs.value)
    ensures envs.Some? ==> Elems(envs.value) == TargetEnvs(g, keys, deletions, live, inv, collapse)
    ensures apps.None? <==>
      collapse(EnvHits(g, live)) != [] || (nilOnEmpty && TargetApps(g, keys, deletions, inv, collapse) == {})
    ensures KeepsSome(collapse) ==>
      (apps.None? <==> EnvHits(g, live) != [] || (nilOnEmpty && TargetApps(g, keys, deletions, inv, collapse) == {}))
    ensures apps.Some? ==> Sorted(apps.value) && NoDups(apps.value)
    ensures apps.Some? ==> Elems(apps.value) == TargetApps(g, keys, deletions, inv, collapse)
  {
    var modifiedEnvs := GetModifiedEnvs(g, live, collapse);
    var deletedEnvs := GetModifiedEnvs(g, deletions, collapse);
    var envsFromApp, modifiedApps := GetModifiedApps(g, keys, deletedEnvs);
    FstsOfZip(envsFromApp, modifiedApps);
    var protos := GetModifiedPrototypes(g, keys);
    var envsFromProto, appsFromProto := FindPrototypeUsage(protos, inv);
    assert Elems(modifiedEnvs) + Elems(envsFromProto) + Elems(envsFromApp)
      == TargetEnvs(g, keys, deletions, live, inv, collapse);
    assert Elems(modifiedApps) + Elems(appsFromProto) == TargetApps(g, keys, deletions, inv, collapse);
    var result := Combine(modifiedEnvs, envsFromProto, envsFromApp, modifiedApps, appsFromProto, nilOnEmpty);
    envs, apps := result.0, result.1;
    if KeepsSome(collapse) {
      CollapseEmpty(collapse, EnvHits(g, live));
    }
  }

  /** A list enumerating the changed paths holds a global change exactly when the change set does. */
  lemma GlobalInKeys(g: Globe, keys: seq<string>, changed: ChangedFiles)
    requires Enumerates(keys, changed.Keys)
    ensures (exists p :: p in keys && GlobalMatch(g, p)) <==> (exists p :: p in changed && GlobalMatch(g, p))
  {
    assert forall p :: p in keys <==> p in changed;
  }

  /** The environments whose applications the deletion filter drops come from deleted paths only. */
  lemma DeletedEnvsFromDeletions(g: Globe, changed: ChangedFiles, deletions: seq<string>,
                                 collapse: seq<string> -> seq<string>, env: string)
    requires Enumerates(deletions, Deletions(changed))
    requires SubsetCollapse(collapse)
    requires env in collapse(EnvHits(g, deletions))
    ensures exists p :: p in changed && changed[p] == "D" && EnvCapture(g, p) == Some(env)
  {
    assert env in Elems(collapse(EnvHits(g, deletions)));
    var p :| p in deletions && EnvCapture(g, p) == Some(env);
    assert p in Elems(deletions);
  }

  // ---------------------------------------------------------------------------
  // The final step of DetectChangedEnvsAndApps (line 77): the applications missing from the
  // rendered output are appended, without removing duplicates. Go's `append` to a nil slice stays
  // nil only when nothing is appended.

  function AppendMissing(apps: Option<seq<string>>, missing: seq<string>): (r: Option<seq<string>>)
    ensures r.None? <==> apps.None? && missing == []
    ensures r.Some? ==> |r.value| == (if apps.Some? then |apps.value| else 0) + |missing|
    ensures r.Some? ==> forall x :: x in r.value <==> (apps.Some? && x in apps.value) || x in missing
    ensures r.Some? ==> r.value[..(if apps.Some? then |apps.value| else 0)] == (if apps.Some? then apps.value else [])
    ensures r.Some? ==> r.value[(if apps.Some? then |apps.value| else 0)..] == missing
  {
    match apps
    case None => if missing == [] then None else Some(missing)
    case Some(a) => Some(a + missing)
  }
}
