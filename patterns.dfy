/** The path patterns of smart mode (internal/myks/smart_mode.go, lines 14-41), each written as a
    structured matcher over the path instead of a regular expression. Every matcher follows the
    semantics of Go's RE2 `FindStringSubmatch` for its one expression: anchored at both ends, `.`
    matching any character except a newline, and, among several ways to match, the one a
    leftmost-first backtracking engine would pick (a lazy `.*?` takes the shortest piece that lets
    the rest match, an optional group is tried present before absent). */
module Patterns {
  import opened Collections

  /** The naming conventions the patterns are built from (fields of `Globe`). */
  datatype Globe = Globe(
    yttLibraryDirName: string,
    environmentBaseDir: string,
    environmentDataFileName: string,
    prototypesDir: string,
    yttStepDirName: string,
    yttPkgStepDirName: string,
    argoCDDataDirName: string,
    applicationDataFileName: string)

  // ---------------------------------------------------------------------------
  // Literal pieces of a pattern. The configured names are pasted into the expressions without
  // escaping, so a `.` in a name matches any character but a newline.

  predicate CharMatches(p: char, c: char) {
    if p == '.' then c != '\n' else p == c
  }

  /** `lit` (as a regular expression built from plain text) matches `s` at position `i`. */
  predicate LitAt(lit: string, s: string, i: nat) {
    i + |lit| <= |s| && forall k :: 0 <= k < |lit| ==> CharMatches(lit[k], s[i + k])
  }

  /** A literal that starts with a plain character cannot match where another character stands. */
  lemma LitAtFirstChar(lit: string, s: string, i: nat)
    requires |lit| > 0 && lit[0] != '.' && i < |s| && s[i] != lit[0]
    ensures !LitAt(lit, s, i)
  {
    assert !CharMatches(lit[0], s[i]);
  }

  /** `s[i..j]` can be consumed by `.*`. */
  predicate NoNewline(s: string, i: nat, j: nat) {
    forall k :: i <= k < j && k < |s| ==> s[k] != '\n'
  }

  // ---------------------------------------------------------------------------
  // Global patterns (lines 14-24): library dir, the global ytt dir, the base env-data file.

  /** `^<lib>/.*$` */
  predicate GlobalLibDirMatch(g: Globe, path: string) {
    var lit := g.yttLibraryDirName + "/";
    LitAt(lit, path, 0) && NoNewline(path, |lit|, |path|)
  }

  /** `^<envs>/_env/<ytt>/.*$` */
  predicate GlobalYttDirMatch(g: Globe, path: string) {
    var lit := g.environmentBaseDir + "/_env/" + g.yttStepDirName + "/";
    LitAt(lit, path, 0) && NoNewline(path, |lit|, |path|)
  }

  /** `^<envs>/<env-data>$` */
  predicate GlobalEnvMatch(g: Globe, path: string) {
    var lit := g.environmentBaseDir + "/" + g.environmentDataFileName;
    LitAt(lit, path, 0) && |path| == |lit|
  }

  // ---------------------------------------------------------------------------
  // Environment data pattern (lines 35-37): `^(<envs>/.+)/<env-data>$`.

  /** The environment directory captured from an environment data file, if the path is one. The
      file name has a fixed length and `$` anchors it at the end, so the split is unique. */
  function EnvCapture(g: Globe, path: string): (r: Option<string>)
    ensures r.Some? <==>
      exists env :: |env| > |g.environmentBaseDir| + 1 && EnvSplit(g, path, env)
    ensures r.Some? ==> EnvSplit(g, path, r.value) && |r.value| > |g.environmentBaseDir| + 1
  {
    var a := EnvStart(g);
    var d := |path| - |g.environmentDataFileName| - 1;
    if d >= a + 1 && LitAt(g.environmentBaseDir + "/", path, 0) && NoNewline(path, a, d)
       && path[d] == '/' && LitAt(g.environmentDataFileName, path, d + 1)
    then
      assert EnvSplit(g, path, path[..d]);
      Some(path[..d])
    else
      None
  }

  /** `path` is `env + "/" + <env-data>`, with `env` made of `<envs>/` and a newline-free rest. */
  predicate EnvSplit(g: Globe, path: string, env: string) {
    var a := EnvStart(g);
    && a <= |env| < |path|
    && env == path[..|env|]
    && LitAt(g.environmentBaseDir + "/", path, 0)
    && NoNewline(path, a, |env|)
    && path[|env|] == '/'
    && LitAt(g.environmentDataFileName, path, |env| + 1)
    && |env| + 1 + |g.environmentDataFileName| == |path|
  }

  // ---------------------------------------------------------------------------
  // Application pattern (lines 39-41): `^(<envs>/.*?)/_apps/(.*?)/.*$`.

  const AppsSep: string := "/_apps/"

  /** Where the text after `<envs>/` begins. */
  function EnvStart(g: Globe): nat {
    |g.environmentBaseDir| + 1
  }

  /** `k` is an acceptable end for the lazy environment group: `/_apps/` follows it, and after that
      the lazy application group can stop at a `/` with a newline-free rest. */
  predicate AppsSplit(path: string, a: nat, k: nat) {
    && a <= k
    && LitAt(AppsSep, path, k)
    && NoNewline(path, a, k)
    && NoNewline(path, k + 7, |path|)
    && exists q :: k + 7 <= q < |path| && path[q] == '/'
  }

  /** The first acceptable environment end at or after `k` (the lazy group's choice). */
  function FindAppsSplit(path: string, a: nat, k: nat): (r: Option<nat>)
    decreases |path| - k
    ensures r.Some? ==> k <= r.value && AppsSplit(path, a, r.value)
  {
    if AppsSplit(path, a, k) then Some(k)
    else if k + 7 >= |path| then None
    else FindAppsSplit(path, a, k + 1)
  }

  /** No acceptable end lies before the one the lazy group takes, nor anywhere when it takes none. */
  lemma {:induction false} FindAppsSplitFirst(path: string, a: nat, k: nat, k': nat)
    requires k <= k'
    requires FindAppsSplit(path, a, k).None? || k' < FindAppsSplit(path, a, k).value
    decreases |path| - k
    ensures !AppsSplit(path, a, k')
  {
    if k < k' && !AppsSplit(path, a, k) && k + 7 < |path| {
      FindAppsSplitFirst(path, a, k + 1, k');
    }
  }

  /** The first `/` at or after `i`. */
  function FirstSlash(s: string, i: nat): (r: Option<nat>)
    decreases |s| - i
    ensures r.Some? ==> i <= r.value < |s| && s[r.value] == '/'
  {
    if i >= |s| then None
    else if s[i] == '/' then Some(i)
    else FirstSlash(s, i + 1)
  }

  /** No `/` lies before the first one, nor anywhere when there is none. */
  lemma {:induction false} FirstSlashFirst(s: string, i: nat, k: nat)
    requires i <= k < |s|
    requires FirstSlash(s, i).None? || k < FirstSlash(s, i).value
    decreases |s| - i
    ensures s[k] != '/'
  {
    if i < k {
      FirstSlashFirst(s, i + 1, k);
    }
  }

  lemma {:induction false} FirstSlashReaches(s: string, i: nat, q: nat)
    requires i <= q < |s| && s[q] == '/'
    requires forall k :: i <= k < q ==> s[k] != '/'
    decreases q - i
    ensures FirstSlash(s, i) == Some(q)
  {
    if i < q {
      FirstSlashReaches(s, i + 1, q);
    }
  }

  /** The (environment, application) pair captured from a path under `<env>/_apps/<app>/`:
      the environment is the shortest prefix that works and the application the segment up to the
      next `/`. */
  function AppCapture(g: Globe, path: string): (r: Option<(string, string)>)
  {
    var a := EnvStart(g);
    if !LitAt(g.environmentBaseDir + "/", path, 0) then None
    else
      match FindAppsSplit(path, a, a)
      case None => None
      case Some(k) =>
        match FirstSlash(path, k + 7)
        case None => None
        case Some(q) => Some((path[..k], path[k + 7..q]))
  }

  /** A literal without `.` matches only itself. */
  lemma LitAtExact(lit: string, s: string, i: nat)
    requires LitAt(lit, s, i) && '.' !in lit
    ensures s[i..i + |lit|] == lit
  {
    forall k | 0 <= k < |lit| ensures s[i..i + |lit|][k] == lit[k] {
      assert CharMatches(lit[k], s[i + k]);
    }
  }

  /** The application pattern matches exactly when the path starts with `<envs>/` and some
      acceptable split exists. */
  lemma AppCaptureMatches(g: Globe, path: string)
    ensures AppCapture(g, path).Some? <==>
      LitAt(g.environmentBaseDir + "/", path, 0) && exists k: nat :: AppsSplit(path, EnvStart(g), k)
  {
    var a := EnvStart(g);
    if LitAt(g.environmentBaseDir + "/", path, 0) {
      var found := FindAppsSplit(path, a, a);
      if found.Some? {
        var k := found.value;
        assert AppsSplit(path, a, k);
        var q :| k + 7 <= q < |path| && path[q] == '/';
        if FirstSlash(path, k + 7).None? {
          FirstSlashFirst(path, k + 7, q);
        }
      } else {
        forall k: nat ensures !AppsSplit(path, a, k) {
          if a <= k { FindAppsSplitFirst(path, a, a, k); }
        }
      }
    }
  }

  /** The captures of the application pattern: the environment ends at the EARLIEST `/_apps/`
      that a further `/` follows, and the application is the segment right after it, without `/`;
      together with that `/_apps/` they spell the path's beginning. */
  lemma AppCaptureShape(g: Globe, path: string)
    requires AppCapture(g, path).Some?
    ensures var env := AppCapture(g, path).value.0;
      var app := AppCapture(g, path).value.1;
      && EnvStart(g) <= |env| && AppsSplit(path, EnvStart(g), |env|)
      && (forall k :: EnvStart(g) <= k < |env| ==> !AppsSplit(path, EnvStart(g), k))
      && '/' !in app
      && |env| + 7 + |app| < |path|
      && path[|env| + 7 + |app|] == '/'
      && path == env + AppsSep + app + path[|env| + 7 + |app|..]
  {
    var a := EnvStart(g);
    var k := FindAppsSplit(path, a, a).value;
    var q := FirstSlash(path, k + 7).value;
    var env := path[..k];
    var app := path[k + 7..q];
    assert AppCapture(g, path).value == (env, app);
    forall j | a <= j < k ensures !AppsSplit(path, a, j) {
      FindAppsSplitFirst(path, a, a, j);
    }
    NoSlashBefore(path, k + 7, q);
    LitAtExact(AppsSep, path, k);
    SplitAround(path, k, q);
  }

  /** Nothing between a position and the first `/` after it is a `/`. */
  lemma NoSlashBefore(s: string, i: nat, q: nat)
    requires FirstSlash(s, i) == Some(q)
    ensures '/' !in s[i..q]
  {
    forall j | 0 <= j < q - i ensures s[i..q][j] != '/' {
      FirstSlashFirst(s, i, i + j);
    }
  }

  /** A path cut around the separator at `k` and at `q`. */
  lemma SplitAround(path: string, k: nat, q: nat)
    requires k + 7 <= q <= |path| && path[k..k + 7] == AppsSep
    ensures path == path[..k] + AppsSep + path[k + 7..q] + path[q..]
  {
    assert path == path[..k] + path[k..k + 7] + path[k + 7..q] + path[q..];
  }

  // ---------------------------------------------------------------------------
  // Prototype patterns (lines 26-33):
  //   `^<protos>/(?:.*?/)?(.*?)/(?:<ytt>|helm|vendir|<ytt-pkg>|<argocd>)/.*$`
  //   `^<protos>/(?:.*?/)?(.*?)/<app-data>$`

  /** What follows the captured prototype name. */
  datatype Tail =
    | StepDir(dirs: seq<string>)  // `/(?:d1|d2|...)/.*$`
    | DataFile(name: string)      // `/<app-data>$`

  function PrototypeStepDirs(g: Globe): seq<string> {
    [g.yttStepDirName, "helm", "vendir", g.yttPkgStepDirName, g.argoCDDataDirName]
  }

  /** The tail matches `path` from position `m` on. */
  predicate TailAt(t: Tail, path: string, m: nat) {
    match t
    case StepDir(dirs) => StepDirAt(dirs, path, m)
    case DataFile(f) => LitAt("/" + f, path, m) && m + 1 + |f| == |path|
  }

  /** `/<d>/.*$` matches `path` from `m` on. */
  predicate DirAt(d: string, path: string, m: nat) {
    LitAt("/" + d + "/", path, m) && NoNewline(path, m + |d| + 2, |path|)
  }

  /** The alternation over step directories, tried in order. */
  predicate StepDirAt(dirs: seq<string>, path: string, m: nat)
    decreases |dirs|
  {
    |dirs| > 0 && (DirAt(dirs[0], path, m) || StepDirAt(dirs[1..], path, m))
  }

  /** The alternation matches exactly when one of its directories does. */
  lemma {:induction false} StepDirAtIff(dirs: seq<string>, path: string, m: nat)
    decreases |dirs|
    ensures StepDirAt(dirs, path, m) <==> exists d :: d in dirs && DirAt(d, path, m)
  {
    if |dirs| > 0 {
      StepDirAtIff(dirs[1..], path, m);
      if exists d :: d in dirs && DirAt(d, path, m) {
        var d :| d in dirs && DirAt(d, path, m);
        if d != dirs[0] {
          assert d in dirs[1..];
        }
      }
      if StepDirAt(dirs[1..], path, m) {
        var d :| d in dirs[1..] && DirAt(d, path, m);
        assert d in dirs;
      }
    }
  }

  /** Every step directory tail starts with a `/`. */
  lemma {:induction false} StepDirAtSlash(dirs: seq<string>, path: string, m: nat)
    requires StepDirAt(dirs, path, m)
    decreases |dirs|
    ensures m < |path| && path[m] == '/'
  {
    if DirAt(dirs[0], path, m) {
      assert CharMatches(("/" + dirs[0] + "/")[0], path[m]);
    } else {
      StepDirAtSlash(dirs[1..], path, m);
    }
  }

  /** The lazy name group starting at `j`: the first end `m` with a newline-free name before it
      and the tail matching after it. */
  function NameEnd(t: Tail, path: string, j: nat, m: nat): (r: Option<nat>)
    requires j <= m && NoNewline(path, j, m)
    decreases |path| + 1 - m
    ensures r.Some? ==> m <= r.value <= |path| && NoNewline(path, j, r.value) && TailAt(t, path, r.value)
  {
    if m > |path| then None
    else if TailAt(t, path, m) then Some(m)
    else if m < |path| && path[m] == '\n' then None
    else NameEnd(t, path, j, m + 1)
  }

  /** The lazy group takes the first end that works: when it finds none, no end works. */
  lemma {:induction false} NameEndNoneAll(t: Tail, path: string, j: nat, m: nat, m': nat)
    requires j <= m && NoNewline(path, j, m) && NameEnd(t, path, j, m).None?
    requires m <= m' <= |path| && NoNewline(path, j, m')
    decreases |path| + 1 - m
    ensures !TailAt(t, path, m')
  {
    if m < m' {
      assert path[m] != '\n';
      NameEndNoneAll(t, path, j, m + 1, m');
    }
  }

  /** An end at which the tail matches, reached without a newline, makes the lazy group match. */
  lemma NameEndFinds(t: Tail, path: string, j: nat, m: nat)
    requires j <= m <= |path| && NoNewline(path, j, m) && TailAt(t, path, m)
    ensures NameEnd(t, path, j, j).Some?
  {
    if NameEnd(t, path, j, j).None? {
      NameEndNoneAll(t, path, j, j, m);
      assert false;
    }
  }

  /** `n` is an acceptable end for the namespace group `(?:.*?/)` started at `s0`: a `/` with a
      newline-free text before it, after which the name group and the tail can match. */
  predicate NamespaceEndAt(t: Tail, path: string, s0: nat, n: nat) {
    && s0 <= n < |path|
    && path[n] == '/'
    && NoNewline(path, s0, n)
    && NameEnd(t, path, n + 1, n + 1).Some?
  }

  /** The lazy namespace group: the first acceptable end at or after `n`. */
  function NamespaceEnd(t: Tail, path: string, s0: nat, n: nat): (r: Option<nat>)
    requires s0 <= n && NoNewline(path, s0, n)
    decreases |path| - n
    ensures r.Some? ==> n <= r.value && NamespaceEndAt(t, path, s0, r.value)
  {
    if n >= |path| then None
    else if path[n] == '/' && NameEnd(t, path, n + 1, n + 1).Some? then Some(n)
    else if path[n] == '\n' then None
    else NamespaceEnd(t, path, s0, n + 1)
  }

  /** Where the name group starts: after the namespace group if that can match at all (the
      optional group is tried present first), else right after `<protos>/`. */
  function NameStart(g: Globe, t: Tail, path: string): (r: nat)
    ensures ProtoStart(g) <= r
    ensures r == ProtoStart(g) || (r - 1 < |path| && path[r - 1] == '/')
  {
    var ns := NamespaceEnd(t, path, ProtoStart(g), ProtoStart(g));
    if ns.Some? then ns.value + 1 else ProtoStart(g)
  }

  /** The prototype name captured by one of the two prototype patterns. */
  function ProtoCapture(g: Globe, t: Tail, path: string): (r: Option<string>)
  {
    if !LitAt(g.prototypesDir + "/", path, 0) then None
    else
      var start := NameStart(g, t, path);
      var m := NameEnd(t, path, start, start);
      if m.Some? then Some(path[start..m.value]) else None
  }

  /** Where the text after `<protos>/` begins. */
  function ProtoStart(g: Globe): nat {
    |g.prototypesDir| + 1
  }

  /** `name` sits at `start`, right after `<protos>/` or right after a `/`, and the tail follows. */
  predicate NameAt(g: Globe, t: Tail, path: string, start: nat, name: string) {
    && ProtoStart(g) <= start && start + |name| <= |path|
    && (start == ProtoStart(g) || path[start - 1] == '/')
    && path[start..start + |name|] == name
    && TailAt(t, path, start + |name|)
  }

  /** Every captured prototype name is a piece of the path that starts a segment and is followed
      by the pattern's tail. */
  lemma ProtoCaptureSound(g: Globe, t: Tail, path: string)
    requires ProtoCapture(g, t, path).Some?
    ensures exists start :: NameAt(g, t, path, start, ProtoCapture(g, t, path).value)
  {
    var s0 := ProtoStart(g);
    var ns := NamespaceEnd(t, path, s0, s0);
    var start := if ns.Some? then ns.value + 1 else s0;
    assert start == NameStart(g, t, path);
    var r := NameEnd(t, path, start, start);
    assert r.Some? && ProtoCapture(g, t, path).value == path[start..r.value];
    NameAtEnd(g, t, path, start, r.value);
  }

  lemma NameAtEnd(g: Globe, t: Tail, path: string, start: nat, end: nat)
    requires ProtoStart(g) <= start <= end <= |path| && TailAt(t, path, end)
    requires start == ProtoStart(g) || path[start - 1] == '/'
    ensures NameAt(g, t, path, start, path[start..end])
  {
  }

  /** A newline-free path under `<protos>/` in which the tail occurs anywhere always yields a
      capture (the pattern without the namespace group already matches it). */
  lemma ProtoCaptureComplete(g: Globe, t: Tail, path: string, m: nat)
    requires LitAt(g.prototypesDir + "/", path, 0) && NoNewline(path, ProtoStart(g), |path|)
    requires ProtoStart(g) <= m <= |path| && TailAt(t, path, m)
    ensures ProtoCapture(g, t, path).Some?
  {
    var s0 := ProtoStart(g);
    var ns := NamespaceEnd(t, path, s0, s0);
    if ns.Some? {
      assert NamespaceEndAt(t, path, s0, ns.value);
      assert NameStart(g, t, path) == ns.value + 1;
    } else {
      assert NameStart(g, t, path) == s0;
      NameEndFinds(t, path, s0, m);
    }
  }

  // ---------------------------------------------------------------------------
  // What the lazy searches return on the usual directory layouts.

  lemma FindAppsSplitReaches(path: string, a: nat, i: nat, k: nat)
    requires i <= k && AppsSplit(path, a, k)
    requires forall j :: i <= j < k ==> !AppsSplit(path, a, j)
    decreases k - i
    ensures FindAppsSplit(path, a, i) == Some(k)
  {
    if i < k {
      FindAppsSplitReaches(path, a, i + 1, k);
    }
  }

  /** A path under `<envs>/` with no `/` between `<envs>/` and an `/_apps/` at `k`, and whose next
      `/` after that is at `q`: the captures are the text before `k` and the text between. */
  lemma AppCaptureAt(g: Globe, path: string, k: nat, q: nat)
    requires LitAt(g.environmentBaseDir + "/", path, 0)
    requires EnvStart(g) <= k && k + 7 <= q < |path| && path[k..k + 7] == AppsSep && path[q] == '/'
    requires forall j :: EnvStart(g) <= j < k ==> path[j] != '/' && path[j] != '\n'
    requires forall j :: k + 7 <= j < q ==> path[j] != '/'
    requires forall j :: k + 7 <= j < |path| ==> path[j] != '\n'
    ensures AppCapture(g, path) == Some((path[..k], path[k + 7..q]))
  {
    var a := EnvStart(g);
    LitAtSlice(AppsSep, path, k);
    assert AppsSplit(path, a, k);
    NoSplitBefore(path, a, k);
    FindAppsSplitReaches(path, a, a, k);
    FirstSlashReaches(path, k + 7, q);
    AppCaptureFrom(g, path, k, q);
  }

  /** The two lazy groups' choices determine the captures. */
  lemma AppCaptureFrom(g: Globe, path: string, k: nat, q: nat)
    requires LitAt(g.environmentBaseDir + "/", path, 0)
    requires FindAppsSplit(path, EnvStart(g), EnvStart(g)) == Some(k)
    requires FirstSlash(path, k + 7) == Some(q)
    ensures AppCapture(g, path) == Some((path[..k], path[k + 7..q]))
  {
  }

  /** No split point lies inside a stretch without `/`. */
  lemma NoSplitBefore(path: string, a: nat, k: nat)
    requires k <= |path|
    requires forall j :: a <= j < k ==> path[j] != '/'
    ensures forall j :: a <= j < k ==> !AppsSplit(path, a, j)
  {
    forall j | a <= j < k ensures !AppsSplit(path, a, j) {
      LitAtFirstChar(AppsSep, path, j);
    }
  }

  /** A path `<envs>/<x>/_apps/<app>/<rest>` whose environment segment `x` holds no `/` yields the
      environment `<envs>/<x>` and the application `app`. */
  lemma AppCaptureLayout(g: Globe, x: string, app: string, rest: string)
    requires '/' !in x && '/' !in app
    requires '\n' !in x && '\n' !in app && '\n' !in rest
    ensures AppCapture(g, g.environmentBaseDir + "/" + x + AppsSep + app + "/" + rest)
      == Some((g.environmentBaseDir + "/" + x, app))
  {
    var env := g.environmentBaseDir + "/" + x;
    var path := env + AppsSep + app + "/" + rest;
    var k := |env|;
    var q := k + 7 + |app|;
    AppPathParts(env, app, rest);
    EnvPrefixChars(g, x, path);
    AppPathChars(env, app, rest);
    AppCaptureAt(g, path, k, q);
    assert path[..k] == env;
    assert path[k + 7..q] == app;
  }

  /** `<envs>/<x>` at the start of a path: the pattern's literal matches, and no `/` or newline
      follows it within `x`. */
  lemma EnvPrefixChars(g: Globe, x: string, path: string)
    requires '/' !in x && '\n' !in x
    requires |g.environmentBaseDir + "/" + x| <= |path|
    requires path[..|g.environmentBaseDir + "/" + x|] == g.environmentBaseDir + "/" + x
    ensures LitAt(g.environmentBaseDir + "/", path, 0)
    ensures forall j :: EnvStart(g) <= j < EnvStart(g) + |x| ==> path[j] != '/' && path[j] != '\n'
  {
    var env := g.environmentBaseDir + "/" + x;
    var a := EnvStart(g);
    forall i | 0 <= i < a ensures CharMatches((g.environmentBaseDir + "/")[i], path[i]) {
      assert path[i] == path[..|env|][i] == env[i];
    }
    forall j | a <= j < a + |x| ensures path[j] != '/' && path[j] != '\n' {
      assert path[j] == path[..|env|][j] == env[j] == x[j - a];
    }
  }

  /** After `/_apps/` in `<env>/_apps/<app>/<rest>`: no `/` within `app`, no newline to the end. */
  lemma AppPathChars(env: string, app: string, rest: string)
    requires '/' !in app && '\n' !in app && '\n' !in rest
    ensures var p := env + AppsSep + app + "/" + rest;
      var k := |env|;
      && (forall j :: k + 7 <= j < k + 7 + |app| ==> p[j] != '/')
      && (forall j :: k + 7 <= j < |p| ==> p[j] != '\n')
  {
    var p := env + AppsSep + app + "/" + rest;
    var k := |env|;
    var q := k + 7 + |app|;
    AppPathParts(env, app, rest);
    forall j | k + 7 <= j < |p| ensures p[j] != '\n' && (j < q ==> p[j] != '/') {
      if j < q { assert p[j] == p[k + 7..q][j - k - 7] == app[j - k - 7]; }
      else if j > q { assert p[j] == p[q + 1..][j - q - 1] == rest[j - q - 1]; }
    }
  }

  /** The pieces of `<env>/_apps/<app>/<rest>` sit where their lengths put them. */
  lemma AppPathParts(env: string, app: string, rest: string)
    ensures var p := env + AppsSep + app + "/" + rest;
      var q := |env| + 7 + |app|;
      && |p| == q + 1 + |rest|
      && p[..|env|] == env && p[|env|..|env| + 7] == AppsSep && p[|env| + 7..q] == app
      && p[q] == '/' && p[q + 1..] == rest
  {
  }

  /** Every tail starts with a `/`. */
  lemma TailAtSlash(t: Tail, path: string, m: nat)
    requires TailAt(t, path, m)
    ensures m < |path| && path[m] == '/'
  {
    match t
    case StepDir(dirs) =>
      StepDirAtSlash(dirs, path, m);
    case DataFile(f) =>
      assert CharMatches(("/" + f)[0], path[m]);
  }

  lemma NameEndReaches(t: Tail, path: string, j: nat, i: nat, m: nat)
    requires j <= i <= m && NoNewline(path, j, i)
    requires forall k :: i <= k < m ==> k < |path| && path[k] != '/' && path[k] != '\n'
    requires m <= |path| && TailAt(t, path, m)
    decreases m - i
    ensures NameEnd(t, path, j, i) == Some(m)
  {
    if i < m {
      if TailAt(t, path, i) { TailAtSlash(t, path, i); }
      NameEndReaches(t, path, j, i + 1, m);
    }
  }

  lemma NameEndNone(t: Tail, path: string, j: nat, i: nat)
    requires j <= i && NoNewline(path, j, i)
    requires forall k :: i <= k < |path| ==> path[k] != '/'
    decreases |path| + 1 - i
    ensures NameEnd(t, path, j, i).None?
  {
    if i <= |path| {
      if TailAt(t, path, i) { TailAtSlash(t, path, i); }
      if i < |path| && path[i] != '\n' {
        NameEndNone(t, path, j, i + 1);
      }
    }
  }

  lemma NamespaceEndReaches(t: Tail, path: string, s0: nat, i: nat, n: nat)
    requires NamespaceEndAt(t, path, s0, n)
    requires s0 <= i <= n && NoNewline(path, s0, i)
    requires forall k :: i <= k < n ==> path[k] != '/' && path[k] != '\n'
    decreases n - i
    ensures NamespaceEnd(t, path, s0, i) == Some(n)
  {
    if i < n {
      NamespaceEndReaches(t, path, s0, i + 1, n);
    }
  }

  lemma NamespaceEndNone(t: Tail, path: string, s0: nat, i: nat)
    requires s0 <= i && NoNewline(path, s0, i)
    requires forall n :: i <= n ==> !NamespaceEndAt(t, path, s0, n)
    decreases |path| - i
    ensures NamespaceEnd(t, path, s0, i).None?
  {
    if i < |path| && path[i] != '\n' {
      NamespaceEndNone(t, path, s0, i + 1);
    }
  }

  /** A path under `<protos>/` whose first `/` is at `n` and whose next `/` is where the tail
      begins: the capture is the segment between them. */
  lemma ProtoCaptureSecondSegment(g: Globe, t: Tail, path: string, n: nat, m: nat)
    requires LitAt(g.prototypesDir + "/", path, 0)
    requires ProtoStart(g) <= n < m <= |path| && path[n] == '/'
    requires forall k :: ProtoStart(g) <= k < n ==> path[k] != '/' && path[k] != '\n'
    requires forall k :: n < k < m ==> path[k] != '/' && path[k] != '\n'
    requires TailAt(t, path, m)
    ensures ProtoCapture(g, t, path) == Some(path[n + 1..m])
  {
    NameEndReaches(t, path, n + 1, n + 1, m);
    NameStartAt(g, t, path, n);
    ProtoCaptureFrom(g, t, path, n + 1, m);
  }

  /** The namespace group stops at the first `/` whose name group can match. */
  lemma NameStartAt(g: Globe, t: Tail, path: string, n: nat)
    requires ProtoStart(g) <= n < |path| && path[n] == '/'
    requires forall k :: ProtoStart(g) <= k < n ==> path[k] != '/' && path[k] != '\n'
    requires NameEnd(t, path, n + 1, n + 1).Some?
    ensures NameStart(g, t, path) == n + 1
  {
    var s0 := ProtoStart(g);
    assert NamespaceEndAt(t, path, s0, n);
    NamespaceEndReaches(t, path, s0, s0, n);
  }

  /** Once the name group's start and end are known, the capture is the text between them. */
  lemma ProtoCaptureFrom(g: Globe, t: Tail, path: string, start: nat, m: nat)
    requires LitAt(g.prototypesDir + "/", path, 0)
    requires NameStart(g, t, path) == start
    requires NoNewline(path, start, start) && NameEnd(t, path, start, start) == Some(m)
    ensures ProtoCapture(g, t, path) == Some(path[start..m])
  {
  }

  /** A file directly inside `<env>/_apps/` (no application directory) is not an application path. */
  lemma AppCaptureNoAppDir(g: Globe, x: string, file: string)
    requires '/' !in x && '/' !in file
    ensures AppCapture(g, g.environmentBaseDir + "/" + x + AppsSep + file).None?
  {
    var path := g.environmentBaseDir + "/" + x + AppsSep + file;
    var a := EnvStart(g);
    var s := a + |x|;
    assert forall j :: a <= j < s ==> path[j] == x[j - a];
    assert forall j :: s + 7 <= j < |path| ==> path[j] == file[j - s - 7];
    assert forall j :: s <= j < s + 7 ==> path[j] == AppsSep[j - s];
    forall k: nat ensures !AppsSplit(path, a, k) {
      if AppsSplit(path, a, k) {
        assert false;
      }
    }
    AppCaptureMatches(g, path);
  }

  /** `<protos>/<ns>/<name><tail>` with single-segment `ns` and `name`: the captured prototype is
      `name`. The namespace group is tried first, so this holds whatever `ns` is, even when it is
      the prototype's own directory and `name` one of its step directories. */
  lemma ProtoCaptureNamespaced(g: Globe, t: Tail, ns: string, name: string, tail: string)
    requires '/' !in ns && '/' !in name && '\n' !in ns && '\n' !in name
    requires var path := g.prototypesDir + "/" + ns + "/" + name + tail;
      TailAt(t, path, ProtoStart(g) + |ns| + 1 + |name|)
    ensures ProtoCapture(g, t, g.prototypesDir + "/" + ns + "/" + name + tail) == Some(name)
  {
    var path := g.prototypesDir + "/" + ns + "/" + name + tail;
    var s0 := ProtoStart(g);
    var n := s0 + |ns|;
    var m := n + 1 + |name|;
    assert LitAt(g.prototypesDir + "/", path, 0) by {
      forall i | 0 <= i < s0 ensures CharMatches((g.prototypesDir + "/")[i], path[i]) {
        assert path[i] == (g.prototypesDir + "/")[i];
      }
    }
    assert forall k :: n < k < m ==> path[k] != '/' && path[k] != '\n' by {
      forall k | n < k < m ensures path[k] != '/' && path[k] != '\n' {
        assert path[k] == name[k - n - 1];
      }
    }
    assert forall k :: s0 <= k < n ==> path[k] != '/' && path[k] != '\n' by {
      forall k | s0 <= k < n ensures path[k] != '/' && path[k] != '\n' {
        assert path[k] == ns[k - s0];
      }
    }
    assert path[n] == '/';
    ProtoCaptureSecondSegment(g, t, path, n, m);
    assert path[n + 1..m] == name;
  }

  /** `<protos>/<name>/<file>` without a namespace: the captured prototype is `name` (the
      namespace group cannot match, so the pattern falls back to the form without it). */
  lemma ProtoCaptureFlat(g: Globe, t: Tail, name: string, tail: string)
    requires '/' !in name && '\n' !in name && '\n' !in tail
    requires forall k :: 1 <= k < |tail| ==> tail[k] != '/'
    requires var path := g.prototypesDir + "/" + name + tail;
      TailAt(t, path, ProtoStart(g) + |name|)
    ensures ProtoCapture(g, t, g.prototypesDir + "/" + name + tail) == Some(name)
  {
    var path := g.prototypesDir + "/" + name + tail;
    var s0 := ProtoStart(g);
    var m := s0 + |name|;
    TailAtSlash(t, path, m);
    assert LitAt(g.prototypesDir + "/", path, 0) by {
      forall i | 0 <= i < s0 ensures CharMatches((g.prototypesDir + "/")[i], path[i]) {
        assert path[i] == (g.prototypesDir + "/")[i];
      }
    }
    assert forall k :: s0 <= k < m ==> k < |path| && path[k] != '/' && path[k] != '\n' by {
      forall k | s0 <= k < m ensures k < |path| && path[k] != '/' && path[k] != '\n' {
        assert path[k] == name[k - s0];
      }
    }
    assert forall k :: m < k < |path| ==> path[k] != '/' && path[k] != '\n' by {
      forall k | m < k < |path| ensures path[k] != '/' && path[k] != '\n' {
        assert path[k] == tail[k - m];
      }
    }
    NameStartFlat(g, t, path, m);
    NameEndReaches(t, path, s0, s0, m);
    ProtoCaptureFrom(g, t, path, s0, m);
    assert path[s0..m] == name;
  }

  /** With a single `/` after `<protos>/`, at `m`, the namespace group cannot match: its `/`
      would leave no `/` for the tail. */
  lemma NameStartFlat(g: Globe, t: Tail, path: string, m: nat)
    requires ProtoStart(g) <= m < |path| && path[m] != '\n'
    requires forall k :: ProtoStart(g) <= k < m ==> path[k] != '/' && path[k] != '\n'
    requires forall k :: m < k < |path| ==> path[k] != '/' && path[k] != '\n'
    ensures NameStart(g, t, path) == ProtoStart(g)
  {
    var s0 := ProtoStart(g);
    forall n | s0 <= n ensures !NamespaceEndAt(t, path, s0, n) {
      if m <= n < |path| {
        NameEndNone(t, path, n + 1, n + 1);
      }
    }
    NamespaceEndNone(t, path, s0, s0);
  }

  /** `<protos>/<name>/<d>/<file>` without a namespace, `d` a step directory: the captured
      prototype is `name`. */
  lemma ProtoCaptureFlatStepDir(g: Globe, name: string, d: string, file: string)
    requires '/' !in name && '\n' !in name
    requires '/' !in d && d in PrototypeStepDirs(g)
    requires '/' !in file && '\n' !in file
    ensures ProtoCapture(g, StepDir(PrototypeStepDirs(g)), g.prototypesDir + "/" + name + "/" + d + "/" + file)
      == Some(name)
  {
    var t := StepDir(PrototypeStepDirs(g));
    var path := g.prototypesDir + "/" + name + "/" + d + "/" + file;
    var s0 := ProtoStart(g);
    var m := s0 + |name|;
    var p := m + 1 + |d|;
    FlatStepDirChars(g, name, d, file);
    StepDirAtIff(PrototypeStepDirs(g), path, m);
    assert TailAt(t, path, m);
    NameStartFlatStepDir(g, path, m, p);
    NameEndReaches(t, path, s0, s0, m);
    ProtoCaptureFrom(g, t, path, s0, m);
    assert path[s0..m] == name;
  }

  /** The characters of `<protos>/<name>/<d>/<file>`, position by position. */
  lemma FlatStepDirChars(g: Globe, name: string, d: string, file: string)
    requires '/' !in name && '\n' !in name && '/' !in d && '/' !in file && '\n' !in file
    ensures var path := g.prototypesDir + "/" + name + "/" + d + "/" + file;
      var m := ProtoStart(g) + |name|;
      var p := m + 1 + |d|;
      && p < |path| && path[m] == '/' && path[p] == '/'
      && LitAt(g.prototypesDir + "/", path, 0)
      && DirAt(d, path, m)
      && (forall k :: ProtoStart(g) <= k < m ==> path[k] != '/' && path[k] != '\n')
      && (forall k :: ProtoStart(g) <= k < |path| && k != m && k != p ==> path[k] != '/')
  {
    var a, b := g.prototypesDir + "/", "/" + d + "/";
    var path := a + name + b + file;
    assert path == g.prototypesDir + "/" + name + "/" + d + "/" + file;
    var m := |a| + |name|;
    var p := m + 1 + |d|;
    FlatParts(a, name, d, file);
    LitAtSlice(a, path, 0);
    LitAtSlice(b, path, m);
    CharNotInSlice('/', path, |a|, m);
    CharNotInSlice('\n', path, |a|, m);
    CharNotInSlice('/', path, m + 1, p);
    CharNotInSlice('/', path, p + 1, |path|);
    CharNotInSlice('\n', path, p + 1, |path|);
  }

  /** The pieces of `<a><name>/<d>/<file>` sit where their lengths put them. */
  lemma FlatParts(a: string, name: string, d: string, file: string)
    ensures var path := a + name + ("/" + d + "/") + file;
      var m := |a| + |name|;
      var p := m + 1 + |d|;
      && |path| == p + 1 + |file|
      && path[..|a|] == a && path[|a|..m] == name && path[m..p + 1] == "/" + d + "/"
      && path[m] == '/' && path[m + 1..p] == d && path[p] == '/' && path[p + 1..] == file
  {
  }

  /** A literal read off a slice matches there. */
  lemma LitAtSlice(lit: string, s: string, i: nat)
    requires i + |lit| <= |s| && s[i..i + |lit|] == lit
    ensures LitAt(lit, s, i)
  {
    forall k | 0 <= k < |lit| ensures CharMatches(lit[k], s[i + k]) {
      assert s[i + k] == s[i..i + |lit|][k];
    }
  }

  /** A character absent from a slice is absent at each of its positions. */
  lemma CharNotInSlice(c: char, s: string, i: nat, j: nat)
    requires i <= j <= |s| && c !in s[i..j]
    ensures forall k :: i <= k < j ==> s[k] != c
  {
    forall k | i <= k < j ensures s[k] != c {
      assert s[k] == s[i..j][k - i];
    }
  }

  /** A step-directory tail needs a second `/` after the one it starts with. */
  lemma {:induction false} StepDirAtSecondSlash(dirs: seq<string>, path: string, m: nat)
    requires StepDirAt(dirs, path, m)
    decreases |dirs|
    ensures exists k :: m < k < |path| && path[k] == '/'
  {
    if DirAt(dirs[0], path, m) {
      var lit := "/" + dirs[0] + "/";
      assert CharMatches(lit[|lit| - 1], path[m + |lit| - 1]);
    } else {
      StepDirAtSecondSlash(dirs[1..], path, m);
    }
  }

  /** The lazy name group finds no end when the tail matches nowhere from `i` on. */
  lemma {:induction false} NameEndNoTail(t: Tail, path: string, j: nat, i: nat)
    requires j <= i && NoNewline(path, j, i)
    requires forall k :: i <= k <= |path| ==> !TailAt(t, path, k)
    decreases |path| + 1 - i
    ensures NameEnd(t, path, j, i).None?
  {
    if i < |path| && path[i] != '\n' {
      NameEndNoTail(t, path, j, i + 1);
    }
  }

  /** With exactly two `/` after `<protos>/`, at `m` and `p`, the namespace group cannot match
      before a step directory: after either `/` no step-directory tail (which needs two more `/`)
      remains. */
  lemma NameStartFlatStepDir(g: Globe, path: string, m: nat, p: nat)
    requires ProtoStart(g) <= m < p < |path| && path[m] == '/' && path[p] == '/'
    requires forall k :: ProtoStart(g) <= k < |path| && k != m && k != p ==> path[k] != '/'
    ensures NameStart(g, StepDir(PrototypeStepDirs(g)), path) == ProtoStart(g)
  {
    var t := StepDir(PrototypeStepDirs(g));
    var s0 := ProtoStart(g);
    forall k | m < k <= |path| ensures !TailAt(t, path, k) {
      if TailAt(t, path, k) {
        TailAtSlash(t, path, k);
        StepDirAtSecondSlash(PrototypeStepDirs(g), path, k);
        assert false;
      }
    }
    forall n | s0 <= n ensures !NamespaceEndAt(t, path, s0, n) {
      if n == m {
        NameEndNoTail(t, path, m + 1, m + 1);
      } else if n == p {
        NameEndNone(t, path, p + 1, p + 1);
      }
    }
    NamespaceEndNone(t, path, s0, s0);
  }

  // ---------------------------------------------------------------------------
  // The expressions used by the resolver and Go's `FindStringSubmatch` result for each: nothing,
  // or the whole match (the whole path, since every expression is anchored) and one entry per
  // capture group.

  datatype Expr =
    | GlobalLibDirExpr | GlobalYttDirExpr | GlobalEnvExpr
    | PrototypeExpr | PrototypeDataFileExpr
    | EnvsExpr | AppsExpr

  function GroupCount(e: Expr): nat {
    match e
    case GlobalLibDirExpr | GlobalYttDirExpr | GlobalEnvExpr => 0
    case PrototypeExpr | PrototypeDataFileExpr | EnvsExpr => 1
    case AppsExpr => 2
  }

  /** A non-nil `FindStringSubmatch` result: the whole match and the capture groups. */
  datatype Submatch = Submatch(whole: string, groups: seq<string>)

  function Submatches(g: Globe, e: Expr, path: string): (r: Option<Submatch>)
    ensures r.Some? ==> |r.value.groups| == GroupCount(e) && r.value.whole == path
  {
    match e
    case GlobalLibDirExpr => if GlobalLibDirMatch(g, path) then Some(Submatch(path, [])) else None
    case GlobalYttDirExpr => if GlobalYttDirMatch(g, path) then Some(Submatch(path, [])) else None
    case GlobalEnvExpr => if GlobalEnvMatch(g, path) then Some(Submatch(path, [])) else None
    case PrototypeExpr =>
      (match ProtoCapture(g, StepDir(PrototypeStepDirs(g)), path)
       case Some(name) => Some(Submatch(path, [name]))
       case None => None)
    case PrototypeDataFileExpr =>
      (match ProtoCapture(g, DataFile(g.applicationDataFileName), path)
       case Some(name) => Some(Submatch(path, [name]))
       case None => None)
    case EnvsExpr =>
      (match EnvCapture(g, path)
       case Some(env) => Some(Submatch(path, [env]))
       case None => None)
    case AppsExpr =>
      (match AppCapture(g, path)
       case Some((env, app)) => Some(Submatch(path, [env, app]))
       case None => None)
  }
}
