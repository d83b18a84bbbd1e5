/** End-to-end resolver behaviour on typical change sets, stated for any configuration and any
    paths the patterns classify as described. */
module Scenarios {
  import opened Collections
  import opened Patterns
  import opened SmartMode

  /** A `removeSubPaths` stand-in that keeps everything. Every scenario below has at most one
      environment-data hit per list, so a `removeSubPaths` that only drops entries lying under
      another entry has nothing to collapse there. */
  function KeepAll(s: seq<string>): seq<string> {
    s
  }

  /** The path falls in no category but the ones named by the caller's other requirements. */
  predicate NoEnvOrProto(g: Globe, path: string) {
    && !GlobalMatch(g, path)
    && EnvCapture(g, path).None?
    && ProtoCapture(g, DataFile(g.applicationDataFileName), path).None?
    && ProtoCapture(g, StepDir(PrototypeStepDirs(g)), path).None?
  }

  /** The only sorted, duplicate-free list of one element. */
  lemma SingletonList(s: seq<string>, x: string)
    requires Sorted(s) && NoDups(s) && Elems(s) == {x}
    ensures s == [x]
  {
    SortedUnique(s, [x]);
  }

  lemma KeepAllKeeps()
    ensures SubsetCollapse(KeepAll)
  {
  }

  /** The key lists of a one-entry change set. */
  lemma OneChange(path: string, status: string)
    ensures var changed := map[path := status];
      && Enumerates([path], changed.Keys)
      && (status == "D" ==> Enumerates([path], Deletions(changed)) && Enumerates([], changed.Keys - Deletions(changed)))
      && (status != "D" ==> Enumerates([], Deletions(changed)) && Enumerates([path], changed.Keys - Deletions(changed)))
  {
    var changed := map[path := status];
    assert Deletions(changed) == if status == "D" then {path} else {};
  }

  lemma Single<T>(x: T)
    ensures [x][..0] == [] && [x][0] == x
  {
  }

  /** One more element after an empty list, and after a list of one. */
  lemma AfterNone<T>(y: T)
    ensures [] + [y] == [y]
  {
  }

  lemma AfterOne<T>(x: T, y: T)
    ensures [x] + [y] == [x, y]
  {
  }

  /** A path under neither prototype pattern changes no prototype. */
  lemma NoPrototypes(g: Globe, path: string)
    requires ProtoCapture(g, DataFile(g.applicationDataFileName), path).None?
    requires ProtoCapture(g, StepDir(PrototypeStepDirs(g)), path).None?
    ensures ChangedPrototypes(g, [path]) == []
  {
    Single(path);
    assert ProtoHits(g, DataFile(g.applicationDataFileName), [path]) == [];
    assert ProtoHits(g, StepDir(PrototypeStepDirs(g)), [path]) == [];
  }

  /** The hits of one more path come after those of the others. */
  lemma EnvHitsSnoc(g: Globe, paths: seq<string>, path: string)
    ensures EnvHits(g, paths + [path])
      == EnvHits(g, paths) + (if EnvCapture(g, path).Some? then [EnvCapture(g, path).value] else [])
  {
    assert (paths + [path])[..|paths|] == paths;
  }

  lemma AppHitsSnoc(g: Globe, paths: seq<string>, path: string)
    ensures AppHits(g, paths + [path])
      == AppHits(g, paths) + (if AppCapture(g, path).Some? then [AppCapture(g, path).value] else [])
  {
    assert (paths + [path])[..|paths|] == paths;
  }

  lemma ProtoHitsSnoc(g: Globe, t: Tail, paths: seq<string>, path: string)
    ensures ProtoHits(g, t, paths + [path])
      == ProtoHits(g, t, paths) + (if ProtoCapture(g, t, path).Some? then [ProtoCapture(g, t, path).value] else [])
  {
    assert (paths + [path])[..|paths|] == paths;
  }

  /** The hits of a single path. */
  lemma HitsOfOne(g: Globe, path: string)
    ensures EnvHits(g, [path]) == (if EnvCapture(g, path).Some? then [EnvCapture(g, path).value] else [])
    ensures AppHits(g, [path]) == (if AppCapture(g, path).Some? then [AppCapture(g, path).value] else [])
  {
    EnvHitsSnoc(g, [], path);
    AppHitsSnoc(g, [], path);
    AfterNone(path);
  }

  /** The prototype hits of a single path. */
  lemma ProtoHitsOfOne(g: Globe, t: Tail, path: string)
    ensures ProtoHits(g, t, [path]) == (if ProtoCapture(g, t, path).Some? then [ProtoCapture(g, t, path).value] else [])
  {
    ProtoHitsSnoc(g, t, [], path);
    AfterNone(path);
  }

  /** With no deleted environment, an application hit survives the deletion filter. */
  lemma LiveOne(g: Globe, path: string)
    requires AppCapture(g, path).Some?
    ensures LiveAppHits(g, [path], KeepAll(EnvHits(g, []))) == [AppCapture(g, path).value]
  {
    var hit := AppCapture(g, path).value;
    HitsOfOne(g, path);
    Single(hit);
    FilterSnoc([], hit, Live([]));
  }

  lemma NoUsage(inv: Inventory)
    ensures UsageEnvs([], inv) == {} && UsageApps([], inv) == {}
  {
  }

  /** The sets the resolver's contract yields for a single application hit and nothing else. */
  lemma AppChangeSets(modified: seq<string>, hits: seq<(string, string)>, protos: seq<string>, env: string, app: string)
    requires modified == [] && hits == [(env, app)] && protos == []
    ensures Elems(modified) + Elems(Fsts(hits)) + UsageEnvs(protos, map[]) == {env}
    ensures Elems(Snds(hits)) + UsageApps(protos, map[]) == {app}
  {
    NoUsage(map[]);
    assert Fsts(hits) == [env] && Snds(hits) == [app];
  }

  /** A single added file under `<env>/_apps/<app>/` rebuilds exactly that application. */
  method AppChangeScenario(g: Globe, path: string, env: string, app: string, nilOnEmpty: bool)
    returns (envs: Option<seq<string>>, apps: Option<seq<string>>)
    requires AppCapture(g, path) == Some((env, app))
    requires NoEnvOrProto(g, path)
    ensures envs == Some([env]) && apps == Some([app])
  {
    var changed := map[path := "A"];
    OneChange(path, "A");
    NoGlobalInOne(g, path, "A");
    KeepAllKeeps();
    HitsOfOne(g, path);
    LiveOne(g, path);
    NoPrototypes(g, path);
    AppChangeSets(KeepAll(EnvHits(g, [path])), LiveAppHits(g, [path], KeepAll(EnvHits(g, []))),
      ChangedPrototypes(g, [path]), env, app);
    envs, apps := RunSmartMode(g, changed, [path], [], [path], map[], KeepAll, nilOnEmpty);
    SingletonList(envs.value, env);
    SingletonList(apps.value, app);
  }

  /** `prototypes/<ns>/<name>/...` uses the prototype `name` through its namespaced key. */
  lemma UsageOne(ns: string, name: string, env: string, app: string)
    ensures UsageEnvs([name], map[env := map[ns + "/" + name := app]]) == {env}
    ensures UsageApps([name], map[env := map[ns + "/" + name := app]]) == {app}
  {
    var key := ns + "/" + name;
    assert key[|key| - |"/" + name|..] == "/" + name;
    assert UsesPrototype(key, name);
    assert UsesAny(key, [name]) by { assert name in [name]; }
  }

  /** The path is neither global, nor environment data, nor under an application directory. */
  predicate OnlyPrototype(g: Globe, path: string) {
    !GlobalMatch(g, path) && EnvCapture(g, path).None? && AppCapture(g, path).None?
  }

  /** A path under the step-directory pattern only changes that one prototype. */
  lemma StepDirOnly(g: Globe, path: string, name: string)
    requires ProtoCapture(g, StepDir(PrototypeStepDirs(g)), path) == Some(name)
    requires ProtoCapture(g, DataFile(g.applicationDataFileName), path).None?
    ensures ChangedPrototypes(g, [path]) == [name]
  {
    ProtoHitsOfOne(g, DataFile(g.applicationDataFileName), path);
    ProtoHitsOfOne(g, StepDir(PrototypeStepDirs(g)), path);
  }

  /** A change in one prototype's step directory rebuilds the applications made from it. */
  method PrototypeScenario(g: Globe, path: string, ns: string, name: string, env: string, app: string,
                           nilOnEmpty: bool)
    returns (envs: Option<seq<string>>, apps: Option<seq<string>>)
    requires ProtoCapture(g, StepDir(PrototypeStepDirs(g)), path) == Some(name)
    requires ProtoCapture(g, DataFile(g.applicationDataFileName), path).None?
    requires OnlyPrototype(g, path)
    ensures envs == Some([env]) && apps == Some([app])
  {
    var changed := map[path := "M"];
    var inv := map[env := map[ns + "/" + name := app]];
    PrototypeInputs(g, path);
    PrototypeSets(g, path, ns, name, env, app);
    envs, apps := RunSmartMode(g, changed, [path], [], [path], inv, KeepAll, nilOnEmpty);
    SingletonList(envs.value, env);
    SingletonList(apps.value, app);
  }

  /** The change set of the prototype scenario: one modified path, neither a global change nor an
      environment data file. */
  lemma PrototypeInputs(g: Globe, path: string)
    requires OnlyPrototype(g, path)
    ensures var changed := map[path := "M"];
      && Enumerates([path], changed.Keys)
      && Enumerates([], Deletions(changed))
      && Enumerates([path], changed.Keys - Deletions(changed))
      && SubsetCollapse(KeepAll)
      && !(exists p :: p in changed && GlobalMatch(g, p))
      && KeepAll(EnvHits(g, [path])) == []
  {
    OneChange(path, "M");
    NoGlobalInOne(g, path, "M");
    KeepAllKeeps();
    HitsOfOne(g, path);
  }

  /** The sets the resolver's contract yields when that path captures only the prototype `name`,
      which one application uses. */
  lemma PrototypeSets(g: Globe, path: string, ns: string, name: string, env: string, app: string)
    requires ProtoCapture(g, StepDir(PrototypeStepDirs(g)), path) == Some(name)
    requires ProtoCapture(g, DataFile(g.applicationDataFileName), path).None?
    requires OnlyPrototype(g, path)
    ensures var inv := map[env := map[ns + "/" + name := app]];
      var hits := LiveAppHits(g, [path], KeepAll(EnvHits(g, [])));
      && Elems(KeepAll(EnvHits(g, [path]))) + Elems(Fsts(hits)) + UsageEnvs(ChangedPrototypes(g, [path]), inv) == {env}
      && Elems(Snds(hits)) + UsageApps(ChangedPrototypes(g, [path]), inv) == {app}
  {
    var inv := map[env := map[ns + "/" + name := app]];
    HitsOfOne(g, path);
    StepDirOnly(g, path, name);
    UsageOne(ns, name, env, app);
    ProtoChangeSets(KeepAll(EnvHits(g, [path])), LiveAppHits(g, [path], KeepAll(EnvHits(g, []))),
      ChangedPrototypes(g, [path]), inv, name, env, app);
  }

  /** The sets the resolver's contract yields when only prototype `name` changed. */
  lemma ProtoChangeSets(modified: seq<string>, hits: seq<(string, string)>, protos: seq<string>,
                        inv: Inventory, name: string, env: string, app: string)
    requires modified == [] && hits == [] && protos == [name]
    requires UsageEnvs([name], inv) == {env} && UsageApps([name], inv) == {app}
    ensures Elems(modified) + Elems(Fsts(hits)) + UsageEnvs(protos, inv) == {env}
    ensures Elems(Snds(hits)) + UsageApps(protos, inv) == {app}
  {
    assert Fsts(hits) == [] && Snds(hits) == [];
  }

  /** The key lists of a two-entry change set. */
  lemma TwoChanges(p1: string, s1: string, p2: string, s2: string)
    requires p1 != p2 && s2 != "D"
    ensures var changed := map[p1 := s1, p2 := s2];
      && Enumerates([p1, p2], changed.Keys)
      && (s1 == "D" ==> Enumerates([p1], Deletions(changed)) && Enumerates([p2], changed.Keys - Deletions(changed)))
      && (s1 != "D" ==> Enumerates([], Deletions(changed)) && Enumerates([p1, p2], changed.Keys - Deletions(changed)))
  {
    var changed := map[p1 := s1, p2 := s2];
    assert Deletions(changed) == if s1 == "D" then {p1} else {};
  }

  /** Neither of two paths is a global change. */
  lemma NoGlobalInOne(g: Globe, p1: string, s1: string)
    requires !GlobalMatch(g, p1)
    ensures !exists p :: p in map[p1 := s1] && GlobalMatch(g, p)
  {
  }

  lemma NoGlobalInTwo(g: Globe, p1: string, s1: string, p2: string, s2: string)
    requires !GlobalMatch(g, p1) && !GlobalMatch(g, p2)
    ensures !exists p :: p in map[p1 := s1, p2 := s2] && GlobalMatch(g, p)
  {
  }

  /** An environment data file and nothing else. */
  predicate EnvDataOnly(g: Globe, path: string, env: string) {
    && EnvCapture(g, path) == Some(env)
    && !GlobalMatch(g, path)
    && AppCapture(g, path).None?
    && ProtoCapture(g, DataFile(g.applicationDataFileName), path).None?
    && ProtoCapture(g, StepDir(PrototypeStepDirs(g)), path).None?
  }

  /** An application path and nothing else. */
  predicate AppOnly(g: Globe, path: string, env: string, app: string) {
    AppCapture(g, path) == Some((env, app)) && NoEnvOrProto(g, path)
  }

  /** The environment hits of an environment data file followed by an application path. */
  lemma EnvThenAppEnvHits(g: Globe, dataPath: string, env: string, appPath: string)
    requires EnvCapture(g, dataPath) == Some(env) && EnvCapture(g, appPath).None?
    ensures dataPath != appPath
    ensures EnvHits(g, [dataPath]) == [env] && EnvHits(g, [appPath]) == []
    ensures EnvHits(g, [dataPath, appPath]) == [env]
  {
    HitsOfOne(g, dataPath);
    HitsOfOne(g, appPath);
    EnvHitsSnoc(g, [dataPath], appPath);
    AfterOne(dataPath, appPath);
  }

  /** The application hits of the same two paths. */
  lemma EnvThenAppAppHits(g: Globe, dataPath: string, appPath: string, env': string, app: string)
    requires AppCapture(g, dataPath).None? && AppCapture(g, appPath) == Some((env', app))
    ensures AppHits(g, [dataPath, appPath]) == [(env', app)]
  {
    HitsOfOne(g, dataPath);
    AppHitsSnoc(g, [dataPath], appPath);
    AfterOne(dataPath, appPath);
  }

  /** Two paths that neither prototype pattern matches change no prototype. */
  lemma TwoWithoutPrototypes(g: Globe, p1: string, p2: string)
    requires NoPrototypeCapture(g, p1) && NoPrototypeCapture(g, p2)
    ensures ChangedPrototypes(g, [p1, p2]) == []
  {
    NoPrototypeHits(g, DataFile(g.applicationDataFileName), p1, p2);
    NoPrototypeHits(g, StepDir(PrototypeStepDirs(g)), p1, p2);
  }

  /** Neither prototype pattern matches the path. */
  predicate NoPrototypeCapture(g: Globe, path: string) {
    && ProtoCapture(g, DataFile(g.applicationDataFileName), path).None?
    && ProtoCapture(g, StepDir(PrototypeStepDirs(g)), path).None?
  }

  lemma NoPrototypeHits(g: Globe, t: Tail, p1: string, p2: string)
    requires ProtoCapture(g, t, p1).None? && ProtoCapture(g, t, p2).None?
    ensures ProtoHits(g, t, [p1, p2]) == []
  {
    ProtoHitsOfOne(g, t, p1);
    ProtoHitsSnoc(g, t, [p1], p2);
    AfterOne(p1, p2);
  }

  /** With no deleted environment, a single application hit survives the deletion filter. */
  lemma LiveTwo(g: Globe, paths: seq<string>, hit: (string, string))
    requires AppHits(g, paths) == [hit]
    ensures LiveAppHits(g, paths, KeepAll(EnvHits(g, []))) == [hit]
  {
    Single(hit);
    FilterSnoc([], hit, Live([]));
  }

  /** The deletion filter drops a hit whose environment is deleted. */
  lemma DeadOne(env: string, app: string)
    ensures Filter([(env, app)], Live([env])) == []
  {
    Single((env, app));
    FilterSnoc([], (env, app), Live([env]));
  }

  /** The sets the resolver's contract yields when nothing survives. */
  lemma NothingSets(modified: seq<string>, hits: seq<(string, string)>, protos: seq<string>)
    requires modified == [] && hits == [] && protos == []
    ensures Elems(modified) + Elems(Fsts(hits)) + UsageEnvs(protos, map[]) == {}
    ensures Elems(Snds(hits)) + UsageApps(protos, map[]) == {}
  {
    NoUsage(map[]);
    assert Fsts(hits) == [] && Snds(hits) == [];
  }

  /** Deleting an environment's data file while one of its applications changes leaves no target:
      the application hit is dropped with its environment, and a deletion is not an environment
      change. The result is two empty lists, or the rebuild-everything result `(nil, nil)` when
      `removeDuplicates` returns nil for an empty input. `removeSubPaths` is taken to keep
      everything (`KeepAll`): a collapse that dropped the deleted environment would keep the
      application hit alive. */
  method DeletedEnvScenario(g: Globe, dataPath: string, appPath: string, env: string, app: string,
                            nilOnEmpty: bool)
    returns (envs: Option<seq<string>>, apps: Option<seq<string>>)
    requires EnvDataOnly(g, dataPath, env) && AppOnly(g, appPath, env, app)
    ensures nilOnEmpty ==> envs.None? && apps.None?
    ensures !nilOnEmpty ==> envs == Some([]) && apps == Some([])
  {
    EnvThenAppEnvHits(g, dataPath, env, appPath);
    EnvThenAppAppHits(g, dataPath, appPath, env, app);
    TwoWithoutPrototypes(g, dataPath, appPath);
    var changed := map[dataPath := "D", appPath := "M"];
    TwoChanges(dataPath, "D", appPath, "M");
    NoGlobalInTwo(g, dataPath, "D", appPath, "M");
    KeepAllKeeps();
    DeadOne(env, app);
    NothingSets(KeepAll(EnvHits(g, [appPath])), LiveAppHits(g, [dataPath, appPath], KeepAll(EnvHits(g, [dataPath]))),
      ChangedPrototypes(g, [dataPath, appPath]));
    envs, apps := RunSmartMode(g, changed, [dataPath, appPath], [dataPath], [appPath], map[], KeepAll, nilOnEmpty);
    if envs.Some? {
      EmptyList(envs.value);
    }
    if apps.Some? {
      EmptyList(apps.value);
    }
  }

  /** The sets the resolver's contract yields for an environment change beside an application
      change. */
  lemma DowngradeSets(modified: seq<string>, hits: seq<(string, string)>, protos: seq<string>,
                      env: string, env': string, app: string)
    requires Elems(modified) == {env} && hits == [(env', app)] && protos == []
    ensures Elems(modified) + Elems(Fsts(hits)) + UsageEnvs(protos, map[]) == {env, env'}
  {
    NoUsage(map[]);
    assert Fsts(hits) == [env'];
  }

  /** A collapse that keeps some entry of a non-empty list keeps the one environment-data hit. */
  lemma CollapseOne(collapse: seq<string> -> seq<string>, env: string)
    requires SubsetCollapse(collapse) && KeepsSome(collapse)
    ensures Elems(collapse([env])) == {env}
    ensures collapse([]) == []
  {
    CollapseEmpty(collapse, [env]);
    CollapseEmpty(collapse, []);
    assert Elems(collapse([env])) <= Elems([env]);
    assert collapse([env])[0] in Elems(collapse([env]));
  }

  /** A modified environment data file downgrades the result to whole environments: the
      application change elsewhere only contributes its environment. This holds for every
      `removeSubPaths` that keeps at least one entry of a non-empty list; one that dropped the
      one environment-data hit would leave individual applications to rebuild. */
  method DowngradeScenario(g: Globe, dataPath: string, env: string, appPath: string, env': string, app: string,
                           collapse: seq<string> -> seq<string>, nilOnEmpty: bool)
    returns (envs: Option<seq<string>>, apps: Option<seq<string>>)
    requires EnvDataOnly(g, dataPath, env) && AppOnly(g, appPath, env', app)
    requires SubsetCollapse(collapse) && KeepsSome(collapse)
    ensures apps.None? && envs.Some? && Elems(envs.value) == {env, env'}
  {
    EnvThenAppEnvHits(g, dataPath, env, appPath);
    EnvThenAppAppHits(g, dataPath, appPath, env', app);
    TwoWithoutPrototypes(g, dataPath, appPath);
    var changed := map[dataPath := "M", appPath := "M"];
    TwoChanges(dataPath, "M", appPath, "M");
    NoGlobalInTwo(g, dataPath, "M", appPath, "M");
    CollapseOne(collapse, env);
    LiveTwo(g, [dataPath, appPath], (env', app));
    assert collapse(EnvHits(g, [])) == KeepAll(EnvHits(g, []));
    DowngradeSets(collapse(EnvHits(g, [dataPath, appPath])), LiveAppHits(g, [dataPath, appPath], collapse(EnvHits(g, []))),
      ChangedPrototypes(g, [dataPath, appPath]), env, env', app);
    envs, apps := RunSmartMode(g, changed, [dataPath, appPath], [], [dataPath, appPath], map[], collapse, nilOnEmpty);
  }
}
