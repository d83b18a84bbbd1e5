/** String helpers from internal/myks/util.go: adding a name to a list once, redacting secrets in
    command arguments before they are logged, the log line for a command, and the argument list
    handed to `ytt`. */
module Util {
  import opened Collections

  /** The search loop with early return: a present element leaves the list alone and reports
      `false`; an absent one is appended and reported with `true`. */
  method AppendIfNotExists(slice: seq<string>, element: string) returns (r: seq<string>, added: bool)
    ensures element in slice ==> r == slice && !added
    ensures element !in slice ==> r == slice + [element] && added
    ensures element in r && |slice| <= |r| <= |slice| + 1
  {
    for i := 0 to |slice|
      invariant element !in slice[..i]
    {
      if slice[i] == element {
        return slice, false;
      }
    }
    assert slice[..|slice|] == slice;
    return slice + [element], true;
  }

  // ---------------------------------------------------------------------------
  // reductSecrets (lines 28-37): every match of `(password|secret|token)=(\S+)` is replaced by
  // `$1=[REDACTED]`, scanning left to right without overlaps.

  /** The alternatives of the first group, in the pattern's order. */
  const SensitiveFields: seq<string> := ["password", "secret", "token"]

  const Redacted: string := "[REDACTED]"

  /** RE2's `\s`: tab, newline, form feed, carriage return and space. */
  predicate Space(c: char) {
    c == '\t' || c == '\n' || c == '\U{C}' || c == '\r' || c == ' '
  }

  /** The pattern matches at the start of `x` with `key` as its first group. */
  predicate KeyMatch(x: string, key: string) {
    |x| > |key| + 1 && x[..|key|] == key && x[|key|] == '=' && !Space(x[|key| + 1])
  }

  /** The first alternative that matches at the start of `x` (at most one can, since the three
      fields start with different letters). */
  function KeyAt(x: string): (r: Option<string>)
    ensures r.Some? ==> r.value in SensitiveFields && KeyMatch(x, r.value)
    ensures r.None? ==> forall key :: key in SensitiveFields ==> !KeyMatch(x, key)
  {
    if KeyMatch(x, "password") then Some("password")
    else if KeyMatch(x, "secret") then Some("secret")
    else if KeyMatch(x, "token") then Some("token")
    else None
  }

  /** The end of the greedy `\S+` run that starts at `j`. */
  function RunEnd(x: string, j: nat): (r: nat)
    requires j <= |x|
    decreases |x| - j
    ensures j <= r <= |x| && (r < |x| ==> Space(x[r]))
    ensures forall k :: j <= k < r ==> !Space(x[k])
  {
    if j == |x| || Space(x[j]) then j else RunEnd(x, j + 1)
  }

  /** `regexp.ReplaceAllString(x, "$1=[REDACTED]")` for the secrets pattern. */
  function Redact(x: string): string
    decreases |x|
  {
    if x == [] then []
    else
      match KeyAt(x)
      case Some(key) => key + "=" + Redacted + Redact(x[RunEnd(x, |key| + 1)..])
      case None => [x[0]] + Redact(x[1..])
  }

  /** An argument with no occurrence of the pattern is left as it is. */
  lemma {:induction false} RedactNoMatch(x: string)
    requires forall i :: 0 <= i < |x| ==> KeyAt(x[i..]).None?
    ensures Redact(x) == x
  {
    if x != [] {
      assert x[0..] == x;
      forall i | 0 <= i < |x[1..]| ensures KeyAt(x[1..][i..]).None? {
        assert x[1..][i..] == x[1 + i..];
      }
      RedactNoMatch(x[1..]);
      assert x == [x[0]] + x[1..];
    }
  }

  /** The three fields start with different letters, so the one that matches is the one found. */
  lemma KeyAtUnique(x: string, key: string)
    requires key in SensitiveFields && KeyMatch(x, key)
    ensures KeyAt(x) == Some(key)
  {
    assert x[0] == x[..|key|][0] == key[0];
  }

  /** The end of a run is the first whitespace (or the end) after it. */
  lemma RunEndAt(x: string, j: nat, e: nat)
    requires j <= e <= |x| && (e < |x| ==> Space(x[e]))
    requires forall k :: j <= k < e ==> !Space(x[k])
    ensures RunEnd(x, j) == e
  {
  }

  /** A match at the start is replaced and the scan resumes after the value. */
  lemma RedactAtKey(x: string, key: string)
    requires x != [] && KeyAt(x) == Some(key)
    ensures Redact(x) == key + "=" + Redacted + Redact(x[RunEnd(x, |key| + 1)..])
  {
  }

  lemma KeyOfOne(key: string, value: string, rest: string)
    requires key in SensitiveFields && value != [] && !Space(value[0])
    ensures KeyAt(key + "=" + value + rest) == Some(key)
  {
    var x := key + "=" + value + rest;
    assert x[..|key|] == key && x[|key|] == '=' && x[|key| + 1] == value[0];
    KeyAtUnique(x, key);
  }

  lemma RunOfOne(key: string, value: string, rest: string)
    requires forall k :: 0 <= k < |value| ==> !Space(value[k])
    requires rest == [] || Space(rest[0])
    ensures var x := key + "=" + value + rest;
      && RunEnd(x, |key| + 1) == |key| + 1 + |value|
      && x[|key| + 1 + |value|..] == rest
  {
    var x := key + "=" + value + rest;
    var j := |key| + 1;
    assert forall k :: j <= k < j + |value| ==> x[k] == value[k - j];
    assert x[j + |value|..] == rest;
    RunEndAt(x, j, j + |value|);
  }

  /** `<key>=<value>` with a whitespace-free value, followed by the end or by whitespace, becomes
      `<key>=[REDACTED]`. */
  lemma RedactOne(key: string, value: string, rest: string)
    requires key in SensitiveFields && value != [] && forall k :: 0 <= k < |value| ==> !Space(value[k])
    requires rest == [] || Space(rest[0])
    ensures Redact(key + "=" + value + rest) == key + "=" + Redacted + Redact(rest)
  {
    KeyOfOne(key, value, rest);
    RunOfOne(key, value, rest);
    RedactAtKey(key + "=" + value + rest, key);
  }

  /** The first `n` characters, none of which starts a match, are copied as they are, and the
      scan goes on after them. */
  lemma {:induction false} RedactAfterPrefix(s: string, n: nat)
    requires n <= |s| && forall i :: 0 <= i < n ==> KeyAt(s[i..]).None?
    decreases n
    ensures Redact(s) == s[..n] + Redact(s[n..])
  {
    if n > 0 {
      NoMatchShift(s, n);
      RedactNoKey(s);
      RedactAfterPrefix(s[1..], n - 1);
      var head, tail := s[1..][..n - 1], Redact(s[n..]);
      assert s[1..][n - 1..] == s[n..];
      assert s[..n] == [s[0]] + head;
      ConsConcat(s[0], head, tail);
    } else {
      assert s[n..] == s;
    }
  }

  /** Positions before `n` start no match in `s`: so neither does `s` itself, nor the positions
      before `n - 1` of its tail. */
  lemma NoMatchShift(s: string, n: nat)
    requires 0 < n <= |s| && forall i :: 0 <= i < n ==> KeyAt(s[i..]).None?
    ensures KeyAt(s).None?
    ensures forall i :: 0 <= i < n - 1 ==> KeyAt(s[1..][i..]).None?
  {
    assert s[0..] == s;
    forall i | 0 <= i < n - 1 ensures KeyAt(s[1..][i..]).None? {
      assert s[1..][i..] == s[1 + i..];
    }
  }

  /** The pattern is not anchored: `<key>=<value>` after text in which no match starts (such as
      `--` or `--vault-`) becomes `<key>=[REDACTED]` there. */
  lemma RedactInside(p: string, key: string, value: string, rest: string)
    requires key in SensitiveFields && value != [] && forall k :: 0 <= k < |value| ==> !Space(value[k])
    requires rest == [] || Space(rest[0])
    requires forall i :: 0 <= i < |p| ==> KeyAt((p + (key + "=" + value + rest))[i..]).None?
    ensures Redact(p + (key + "=" + value + rest)) == p + (key + "=" + Redacted + Redact(rest))
  {
    var x := key + "=" + value + rest;
    RedactAfterPrefix(p + x, |p|);
    assert (p + x)[..|p|] == p && (p + x)[|p|..] == x;
    RedactOne(key, value, rest);
  }

  /** A command-line flag: with no `=` before the key, as in `--password=<value>` or
      `--vault-token=<value>`, the value is redacted. */
  lemma RedactFlag(p: string, key: string, value: string, rest: string)
    requires '=' !in p
    requires key in SensitiveFields && value != [] && forall k :: 0 <= k < |value| ==> !Space(value[k])
    requires rest == [] || Space(rest[0])
    ensures Redact(p + (key + "=" + value + rest)) == p + (key + "=" + Redacted + Redact(rest))
  {
    forall i | 0 <= i < |p| ensures KeyAt((p + (key + "=" + value + rest))[i..]).None? {
      NoKeyInFlag(p, key, value, rest, i);
    }
    RedactInside(p, key, value, rest);
  }

  /** No field holds `=`. */
  lemma FieldNoEq(f: string, j: int)
    requires f in SensitiveFields && 0 <= j < |f|
    ensures f[j] != '='
  {
  }

  /** The fields end in different letters. */
  lemma FieldLast(f: string, g: string)
    requires f in SensitiveFields && g in SensitiveFields
    ensures f[|f| - 1] == g[|g| - 1] ==> f == g
  {
  }

  /** No match starts inside `p` when `p` holds no `=` and a field follows it. */
  lemma NoKeyInFlag(p: string, key: string, value: string, rest: string, i: nat)
    requires '=' !in p && key in SensitiveFields && i < |p|
    ensures KeyAt((p + (key + "=" + value + rest))[i..]).None?
  {
    NoFieldInFlag(p, key, value, rest, i, "password");
    NoFieldInFlag(p, key, value, rest, i, "secret");
    NoFieldInFlag(p, key, value, rest, i, "token");
  }

  /** The `=` of a match of `f` inside `p` would have to be the one after `key`, making `f` end
      like `key` while being longer than it. */
  lemma NoFieldInFlag(p: string, key: string, value: string, rest: string, i: nat, f: string)
    requires '=' !in p && key in SensitiveFields && f in SensitiveFields && i < |p|
    ensures !KeyMatch((p + (key + "=" + value + rest))[i..], f)
  {
    var s := p + (key + "=" + value + rest);
    var y := s[i..];
    var e := i + |f|;
    var q := |p| + |key|;
    if |y| > |f| + 1 {
      if e < |p| {
        assert y[|f|] == p[e];
      } else if e < q {
        assert y[|f|] == key[e - |p|];
        FieldNoEq(key, e - |p|);
      } else if e > q {
        assert y[..|f|][q - i] == s[q] == '=';
        FieldNoEq(f, q - i);
      } else {
        assert y[..|f|][|f| - 1] == s[q - 1] == key[|key| - 1];
        FieldLast(f, key);
      }
    }
  }

  /** Two texts that agree before position `n`, have `=` just before it and a non-space at it
      start with the same match, whichever of them has the longer tail. */
  lemma AgreeMatch(x: string, y: string, n: nat, key: string)
    requires key in SensitiveFields && KeyMatch(y, key)
    requires 0 < n < |x| && n < |y| && x[..n] == y[..n] && y[n - 1] == '='
    requires !Space(x[n]) && !Space(y[n])
    ensures KeyMatch(x, key)
  {
    assert '=' !in key;
    assert |key| < n;
    assert x[..|key|] == x[..n][..|key|];
    assert y[..|key|] == y[..n][..|key|];
    if |key| + 1 < n {
      assert x[|key| + 1] == x[..n][|key| + 1];
    }
  }

  /** Without a match at the start the first character is kept and the scan moves on. */
  lemma RedactNoKey(x: string)
    requires x != [] && KeyAt(x).None?
    ensures Redact(x) == [x[0]] + Redact(x[1..])
  {
  }

  /** The step of `MatchPreserved` where `t` itself starts with a match: the texts agree up to
      and including its `=`, and both continue with a non-space. */
  lemma MatchPreservedAtKey(p: string, t: string, k: string, key: string)
    requires t != [] && KeyAt(t) == Some(k)
    requires key in SensitiveFields && KeyMatch(p + Redact(t), key)
    ensures KeyMatch(p + t, key)
  {
    RedactedHead(p, t, k);
    AgreeMatch(p + t, p + Redact(t), |p| + |k| + 1, key);
  }

  /** Before and after redaction, a text starting with a match reads `<key>=` first; then comes
      the value's first character, or the `[` of the replacement. */
  lemma RedactedHead(p: string, t: string, k: string)
    requires t != [] && KeyAt(t) == Some(k)
    ensures var x, y, n := p + t, p + Redact(t), |p| + |k| + 1;
      && n < |x| && n < |y| && y[..n] == x[..n] && y[n - 1] == '='
      && y[n] == '[' && x[n] == t[|k| + 1]
  {
    RedactAtKey(t, k);
    var x, y := p + t, p + Redact(t);
    var n := |p| + |k| + 1;
    assert t[..|k| + 1] == k + "=";
    assert x[..n] == p + k + "=";
    assert y[..n] == p + k + "=";
  }

  /** Redacting what follows some text can only remove, never create, a match at the start:
      up to the first replaced value the two texts agree, and a replaced value starts with a
      non-space in both. */
  lemma {:induction false} MatchPreserved(p: string, t: string, key: string)
    requires key in SensitiveFields && KeyMatch(p + Redact(t), key)
    decreases |t|
    ensures KeyMatch(p + t, key)
  {
    if t != [] {
      var found := KeyAt(t);
      if found.Some? {
        MatchPreservedAtKey(p, t, found.value, key);
      } else {
        RedactNoKey(t);
        ConcatCons(p, t[0], Redact(t[1..]));
        MatchPreserved(p + [t[0]], t[1..], key);
        ConcatCons(p, t[0], t[1..]);
        assert [t[0]] + t[1..] == t;
      }
    }
  }

  /** No key starts with whitespace, so redaction leaves a leading space in place. */
  lemma RedactSpace(w: string)
    requires w != [] && Space(w[0])
    ensures Redact(w) == [w[0]] + Redact(w[1..])
  {
    forall key | key in SensitiveFields ensures !KeyMatch(w, key) {
      assert key[0] != w[0];
      if |w| >= |key| {
        assert w[..|key|][0] == w[0];
      }
    }
    RedactNoKey(w);
  }

  /** The text after a kept first character gains no match at the start by redaction. */
  lemma IdempotentNoKey(x: string)
    requires x != [] && KeyAt(x).None?
    requires Redact(Redact(x[1..])) == Redact(x[1..])
    ensures Redact(Redact(x)) == Redact(x)
  {
    RedactNoKey(x);
    var tail := Redact(x[1..]);
    var y := [x[0]] + tail;
    assert [x[0]] + x[1..] == x;
    forall key | key in SensitiveFields ensures !KeyMatch(y, key) {
      if KeyMatch(y, key) {
        MatchPreserved([x[0]], x[1..], key);
      }
    }
    RedactNoKey(y);
    assert y[1..] == tail;
  }

  /** A replaced value `[REDACTED]` is followed by whitespace or the end, so it is replaced by
      itself. */
  lemma IdempotentAtKey(x: string, key: string)
    requires x != [] && KeyAt(x) == Some(key)
    requires var e := RunEnd(x, |key| + 1); Redact(Redact(x[e..])) == Redact(x[e..])
    ensures Redact(Redact(x)) == Redact(x)
  {
    RedactAtKey(x, key);
    var e := RunEnd(x, |key| + 1);
    var rest := Redact(x[e..]);
    if x[e..] != [] {
      RedactSpace(x[e..]);
    }
    RedactedNoSpace();
    RedactOne(key, Redacted, rest);
  }

  lemma RedactedNoSpace()
    ensures forall k :: 0 <= k < |Redacted| ==> !Space(Redacted[k])
  {
  }

  /** Redacting a redacted text changes nothing. */
  lemma {:induction false} RedactIdempotent(x: string)
    decreases |x|
    ensures Redact(Redact(x)) == Redact(x)
  {
    if x != [] {
      var found := KeyAt(x);
      if found.Some? {
        RedactIdempotent(x[RunEnd(x, |found.value| + 1)..]);
        IdempotentAtKey(x, found.value);
      } else {
        RedactIdempotent(x[1..]);
        IdempotentNoKey(x);
      }
    }
  }

  /** `reductSecrets` applied to a list: one output per argument, in the same order. */
  function RedactAll(args: seq<string>): (r: seq<string>)
    ensures |r| == |args| && forall i :: 0 <= i < |args| ==> r[i] == Redact(args[i])
  {
    seq(|args|, i requires 0 <= i < |args| => Redact(args[i]))
  }

  /** Redacting a list twice is redacting it once. */
  lemma RedactAllIdempotent(args: seq<string>)
    ensures RedactAll(RedactAll(args)) == RedactAll(args)
  {
    forall i | 0 <= i < |args| ensures Redact(Redact(args[i])) == Redact(args[i]) {
      RedactIdempotent(args[i]);
    }
  }

  method ReductSecrets(args: seq<string>) returns (logArgs: seq<string>)
    ensures logArgs == RedactAll(args)
  {
    logArgs := [];
    for i := 0 to |args|
      invariant logArgs == RedactAll(args[..i])
    {
      logArgs := logArgs + [Redact(args[i])];
    }
    assert args[..|args|] == args;
  }

  // ---------------------------------------------------------------------------
  // msgRunCmd (lines 263-266).

  /** `strings.Join(words, sep)`. */
  function Join(words: seq<string>, sep: string): string {
    if words == [] then ""
    else if |words| == 1 then words[0]
    else words[0] + sep + Join(words[1..], sep)
  }

  /** The log line for a command: the command in blue, the purpose in italics, then on a grey line
      the command and its redacted arguments separated by spaces. */
  function MsgRunCmd(purpose: string, cmd: string, args: seq<string>): string {
    MsgHeader(purpose, cmd) + (cmd + " " + Join(RedactAll(args), " ") + "\U{1B}[0m")
  }

  /** The first line of the log message and the colour switch to grey. */
  function MsgHeader(purpose: string, cmd: string): string {
    "Running \U{1B}[34m" + cmd + "\U{1B}[0m to: \U{1B}[3m" + purpose + "\U{1B}[0m\n\U{1B}[37m"
  }

  /** Arguments without secrets are left as they are by redaction, so the logged line ends with
      the command and those arguments, unchanged, before the colour reset. */
  lemma MsgVerbatim(purpose: string, cmd: string, args: seq<string>)
    requires forall a :: a in args ==> forall i :: 0 <= i < |a| ==> KeyAt(a[i..]).None?
    ensures RedactAll(args) == args
    ensures var shown := cmd + " " + Join(args, " ") + "\U{1B}[0m";
      var m := MsgRunCmd(purpose, cmd, args);
      |shown| <= |m| && m[|m| - |shown|..] == shown
  {
    forall i | 0 <= i < |args| ensures RedactAll(args)[i] == args[i] {
      assert args[i] in args;
      RedactNoMatch(args[i]);
    }
    assert RedactAll(args) == args;
    var shown := cmd + " " + Join(args, " ") + "\U{1B}[0m";
    assert MsgRunCmd(purpose, cmd, args) == MsgHeader(purpose, cmd) + shown;
  }

  /** Logging a message built from already redacted arguments shows the same text. */
  lemma MsgOfRedacted(purpose: string, cmd: string, args: seq<string>)
    ensures MsgRunCmd(purpose, cmd, RedactAll(args)) == MsgRunCmd(purpose, cmd, args)
  {
    RedactAllIdempotent(args);
  }

  // ---------------------------------------------------------------------------
  // The `ytt` argument list of runYttWithFilesAndStdin (lines 269-278). Whether a standard input
  // is attached is a flag; the reader itself is not modelled.

  method YttArgs(paths: seq<string>, hasStdin: bool, args: seq<string>) returns (cmdArgs: seq<string>)
    ensures var files := if hasStdin then paths + ["-"] else paths;
      && |cmdArgs| == |files| + |args|
      && (forall i :: 0 <= i < |files| ==> cmdArgs[i] == "--file=" + files[i])
      && cmdArgs[|files|..] == args
  {
    var files := paths;
    if hasStdin {
      files := files + ["-"];
    }
    cmdArgs := [];
    for i := 0 to |files|
      invariant |cmdArgs| == i && forall j :: 0 <= j < i ==> cmdArgs[j] == "--file=" + files[j]
    {
      cmdArgs := cmdArgs + ["--file=" + files[i]];
    }
    cmdArgs := cmdArgs + args;
  }
}
