/** Post-processing of git's change listings (internal/myks/git.go): the lines of
    `git diff --name-status` and `git status --porcelain` become (path, status) records, which are
    then filtered by status. Running git is outside the model: the command outputs are inputs. */
module Git {
  import opened Collections

  /** One changed file: its path and a one-letter status (`M`, `A`, `D`, `?`, ...). */
  datatype ChangedFile = ChangedFile(path: string, status: string)

  // ---------------------------------------------------------------------------
  // Go's `strings.Split(s, "\n")`: n newlines give n + 1 pieces, the empty text one empty piece.

  function IndexOf(s: string, c: char): (r: nat)
    requires c in s
    ensures r < |s| && s[r] == c && c !in s[..r]
  {
    if s[0] == c then 0
    else
      assert s == [s[0]] + s[1..];
      1 + IndexOf(s[1..], c)
  }

  function SplitLines(s: string): (r: seq<string>)
    decreases |s|
    ensures r != []
    ensures forall i :: 0 <= i < |r| ==> '\n' !in r[i]
  {
    if '\n' !in s then [s]
    else
      var k := IndexOf(s, '\n');
      [s[..k]] + SplitLines(s[k + 1..])
  }

  /** `strings.Join(lines, "\n")`. */
  function JoinLines(lines: seq<string>): string
    requires lines != []
  {
    if |lines| == 1 then lines[0] else lines[0] + "\n" + JoinLines(lines[1..])
  }

  /** Joining the pieces gives back the text. */
  lemma {:induction false} JoinSplit(s: string)
    decreases |s|
    ensures JoinLines(SplitLines(s)) == s
  {
    if '\n' in s {
      var k := IndexOf(s, '\n');
      JoinSplit(s[k + 1..]);
      assert s == s[..k] + "\n" + s[k + 1..];
    }
  }

  /** The first piece ends at the first newline. */
  lemma SplitFirst(first: string, rest: string)
    requires '\n' !in first
    ensures SplitLines(first + "\n" + rest) == [first] + SplitLines(rest)
  {
    var s := first + "\n" + rest;
    assert s[|first|] == '\n' && s[..|first|] == first;
    var k := IndexOf(s, '\n');
    assert forall j :: 0 <= j < |first| ==> s[j] == first[j];
    assert k == |first|;
    assert s[k + 1..] == rest;
  }

  /** Splitting a join of newline-free pieces gives back the pieces. */
  lemma {:induction false} SplitJoin(lines: seq<string>)
    requires lines != [] && forall i :: 0 <= i < |lines| ==> '\n' !in lines[i]
    ensures SplitLines(JoinLines(lines)) == lines
  {
    if |lines| > 1 {
      SplitFirst(lines[0], JoinLines(lines[1..]));
      SplitJoin(lines[1..]);
      assert lines == [lines[0]] + lines[1..];
    }
  }

  // ---------------------------------------------------------------------------
  // One line against `^([A-Z]\t|[A-Z? ]{2} )(.*)$` (git.go line 43).

  predicate Upper(c: char) {
    'A' <= c <= 'Z'
  }

  predicate PorcelainChar(c: char) {
    Upper(c) || c == '?' || c == ' '
  }

  /** The first alternative: one upper-case letter and a tab (the `--name-status` form). */
  predicate TabPrefix(line: string) {
    |line| >= 2 && Upper(line[0]) && line[1] == '\t'
  }

  /** The second alternative: two of `A`-`Z`, `?`, space, then a space (the `--porcelain` form). */
  predicate PorcelainPrefix(line: string) {
    |line| >= 3 && PorcelainChar(line[0]) && PorcelainChar(line[1]) && line[2] == ' '
  }

  /** The length of the first group; the two alternatives never both apply. */
  function PrefixLen(line: string): nat
    requires TabPrefix(line) || PorcelainPrefix(line)
  {
    if TabPrefix(line) then 2 else 3
  }

  /** The whole line matches: a prefix, then `(.*)$`, which without the multi-line flag needs the
      rest to be free of newlines. */
  predicate LineMatches(line: string) {
    (TabPrefix(line) || PorcelainPrefix(line)) && '\n' !in line[PrefixLen(line)..]
  }

  /** Go's `strings.TrimLeft` / `TrimRight` / `Trim` with a cut set. */
  function TrimLeft(s: string, cut: set<char>): string {
    if s != [] && s[0] in cut then TrimLeft(s[1..], cut) else s
  }

  function TrimRight(s: string, cut: set<char>): string {
    if s != [] && s[|s| - 1] in cut then TrimRight(s[..|s| - 1], cut) else s
  }

  function Trim(s: string, cut: set<char>): string {
    TrimRight(TrimLeft(s, cut), cut)
  }

  /** What one line yields: nothing, a record, or the run-time panic of `[:1]` on an empty text
      (an all-space porcelain prefix). */
  datatype LineParse = NoMatch | Entry(file: ChangedFile) | SlicePanic

  /** Line 47: the status is the first character of the prefix once spaces and tabs are trimmed
      from both ends; the path is the rest of the line, unchanged. */
  function ParseLine(line: string): LineParse {
    if !LineMatches(line) then NoMatch
    else if TabPrefix(line) then Entry(ChangedFile(line[2..], line[..1]))
    else if line[0] != ' ' then Entry(ChangedFile(line[3..], [line[0]]))
    else if line[1] != ' ' then Entry(ChangedFile(line[3..], [line[1]]))
    else SlicePanic
  }

  /** The parse agrees with trimming the matched prefix and taking its first character, and it
      panics exactly when the trimmed prefix is empty. */
  lemma ParseLineSpec(line: string)
    ensures ParseLine(line).NoMatch? <==> !LineMatches(line)
    ensures ParseLine(line).SlicePanic? <==>
      LineMatches(line) && Trim(line[..PrefixLen(line)], {' ', '\t'}) == ""
    ensures ParseLine(line).Entry? ==> var status := Trim(line[..PrefixLen(line)], {' ', '\t'});
      && status != "" && ParseLine(line).file.status == status[..1]
      && ParseLine(line).file.path == line[PrefixLen(line)..]
  {
    var cut := {' ', '\t'};
    if !LineMatches(line) {
    } else if TabPrefix(line) {
      assert line[..2] == [line[0], '\t'];
      assert TrimLeft(line[..2], cut) == line[..2];
      assert TrimRight(line[..2], cut) == line[..1];
    } else {
      var prefix := line[..3];
      assert prefix == [line[0], line[1], ' '];
      assert TrimRight(prefix, cut) == TrimRight(prefix[..2], cut);
      if line[0] != ' ' {
        assert TrimLeft(prefix, cut) == prefix;
        assert TrimRight(prefix[..2], cut)[..1] == [line[0]] by {
          if line[1] == ' ' {
            assert prefix[..2][..1] == [line[0]];
          }
        }
      } else if line[1] != ' ' {
        assert TrimLeft(prefix, cut) == TrimLeft(prefix[1..], cut);
        assert prefix[1..] == [line[1], ' '];
        assert TrimRight(prefix[1..], cut) == [line[1]];
      } else {
        assert TrimLeft(prefix[2..], cut) == "";
        assert TrimLeft(prefix[1..], cut) == "";
      }
    }
  }

  /** The usual `--name-status` and `--porcelain` line shapes: `M\t<path>`, ` M <path>` and
      `?? <path>`, and an all-space prefix. */
  lemma ParseExamples(path: string)
    requires '\n' !in path
    ensures ParseLine("M\t" + path) == Entry(ChangedFile(path, "M"))
    ensures ParseLine(" M " + path) == Entry(ChangedFile(path, "M"))
    ensures ParseLine("?? " + path) == Entry(ChangedFile(path, "?"))
    ensures ParseLine("   " + path) == SlicePanic
  {
    assert ("M\t" + path)[2..] == path;
    assert (" M " + path)[3..] == path;
    assert ("?? " + path)[3..] == path;
    assert ("   " + path)[3..] == path;
  }

  // ---------------------------------------------------------------------------
  // convertToChangedFiles (lines 41-53).

  /** The records of the lines that yield one, in line order. */
  function Entries(lines: seq<string>): (r: seq<ChangedFile>)
    ensures |r| <= |lines|
  {
    if lines == [] then []
    else (if ParseLine(lines[0]).Entry? then [ParseLine(lines[0]).file] else []) + Entries(lines[1..])
  }

  /** A record is present exactly when some line parses to it. */
  lemma {:induction false} EntriesMembers(lines: seq<string>)
    ensures forall cf :: cf in Entries(lines) <==> exists l :: l in lines && ParseLine(l) == Entry(cf)
  {
    if lines != [] {
      EntriesMembers(lines[1..]);
      assert lines == [lines[0]] + lines[1..];
      assert forall l :: l in lines <==> l == lines[0] || l in lines[1..];
    }
  }

  /** Only lines that match the pattern contribute: the record's path is the line's tail after its
      prefix. */
  lemma EntryFromLine(lines: seq<string>, cf: ChangedFile)
    requires cf in Entries(lines)
    ensures exists l :: l in lines && LineMatches(l) && cf.path == l[PrefixLen(l)..]
  {
    EntriesMembers(lines);
    var l :| l in lines && ParseLine(l) == Entry(cf);
    ParseLineSpec(l);
  }

  /** The outcome of the conversion: the records, or the index of the first line whose status
      slice panics. */
  datatype Conversion = Converted(files: seq<ChangedFile>) | Panicked(line: nat)

  /** No line before index `n` makes the status slice panic. */
  predicate NoPanicBefore(lines: seq<string>, n: nat) {
    forall j :: 0 <= j < n && j < |lines| ==> !ParseLine(lines[j]).SlicePanic?
  }

  method ConvertToChangedFiles(changes: string) returns (r: Conversion)
    ensures var lines := SplitLines(changes);
      && (r.Panicked? ==> r.line < |lines| && ParseLine(lines[r.line]).SlicePanic? && NoPanicBefore(lines, r.line))
      && (r.Converted? ==> NoPanicBefore(lines, |lines|) && r.files == Entries(lines))
  {
    var lines := SplitLines(changes);
    var cfs: seq<ChangedFile> := [];
    for i := 0 to |lines|
      invariant NoPanicBefore(lines, i)
      invariant cfs + Entries(lines[i..]) == Entries(lines)
    {
      var parsed := ParseLine(lines[i]);
      if parsed.SlicePanic? {
        return Panicked(i);
      }
      assert lines[i..][1..] == lines[i + 1..];
      assert Entries(lines[i..]) == (if parsed.Entry? then [parsed.file] else []) + Entries(lines[i + 1..]);
      if parsed.Entry? {
        cfs := cfs + [parsed.file];
      }
    }
    return Converted(cfs);
  }

  // ---------------------------------------------------------------------------
  // getChangedFiles (lines 18-39): the diff listing (only with a revision) comes first, then the
  // working-tree status. A failing git command is an input.

  /** What a git command produced: its standard output, or a failure. */
  datatype CmdOutput = Stdout(text: string) | CmdFailed

  datatype Fetch = Fetched(files: seq<ChangedFile>) | Failed | Panic

  /** A command that succeeded and whose output converts without a panic. */
  predicate Clean(out: CmdOutput) {
    out.Stdout? && NoPanicBefore(SplitLines(out.text), |SplitLines(out.text)|)
  }

  method GetChangedFiles(revision: string, diff: CmdOutput, status: CmdOutput) returns (r: Fetch)
    ensures r.Fetched? <==> (revision != "" ==> Clean(diff)) && Clean(status)
    ensures r.Failed? <==>
      (revision != "" && diff.CmdFailed?) || ((revision != "" ==> Clean(diff)) && status.CmdFailed?)
    ensures r.Panic? <==>
      (revision != "" && diff.Stdout? && !Clean(diff))
      || ((revision != "" ==> Clean(diff)) && status.Stdout? && !Clean(status))
    ensures r.Fetched? && revision == "" ==> r.files == Entries(SplitLines(status.text))
    ensures r.Fetched? && revision != "" ==>
      var first := Entries(SplitLines(diff.text));
      && |first| <= |r.files|
      && r.files[..|first|] == first
      && r.files[|first|..] == Entries(SplitLines(status.text))
  {
    var files: seq<ChangedFile> := [];
    if revision != "" {
      if diff.CmdFailed? {
        return Failed;
      }
      var converted := ConvertToChangedFiles(diff.text);
      if converted.Panicked? {
        return Panic;
      }
      files := converted.files;
    }
    if status.CmdFailed? {
      return Failed;
    }
    var converted := ConvertToChangedFiles(status.text);
    if converted.Panicked? {
      return Panic;
    }
    assert (files + converted.files)[..|files|] == files;
    assert (files + converted.files)[|files|..] == converted.files;
    return Fetched(files + converted.files);
  }

  // ---------------------------------------------------------------------------
  // extractChangedFilePaths and its two status filters (lines 55-75).

  /** The paths of the records, position by position. */
  function Paths(cfs: seq<ChangedFile>): (r: seq<string>)
    ensures |r| == |cfs| && forall i :: 0 <= i < |cfs| ==> r[i] == cfs[i].path
  {
    seq(|cfs|, i requires 0 <= i < |cfs| => cfs[i].path)
  }

  method ExtractChangedFilePaths(cfs: seq<ChangedFile>) returns (paths: seq<string>)
    ensures paths == Paths(cfs)
  {
    paths := [];
    for i := 0 to |cfs|
      invariant |paths| == i && forall j :: 0 <= j < i ==> paths[j] == cfs[j].path
    {
      paths := paths + [cfs[i].path];
    }
  }

  /** The record filter of `WithStatus`: the empty status keeps everything. */
  function HasStatus(status: string): ChangedFile -> bool {
    (cf: ChangedFile) => status == "" || cf.status == status
  }

  /** The record filter of `WithoutStatus`: the empty status keeps everything. */
  function LacksStatus(status: string): ChangedFile -> bool {
    (cf: ChangedFile) => status == "" || cf.status != status
  }

  function WithStatus(cfs: seq<ChangedFile>, status: string): (r: seq<string>)
    ensures status == "" ==> r == Paths(cfs)
    ensures status != "" ==> forall p :: p in r <==> exists cf :: cf in cfs && cf.status == status && cf.path == p
  {
    var kept := Filter(cfs, HasStatus(status));
    assert status == "" ==> kept == cfs by {
      if status == "" {
        KeepEverything(cfs, HasStatus(status));
      }
    }
    PathsMembership(kept);
    Paths(kept)
  }

  function WithoutStatus(cfs: seq<ChangedFile>, status: string): (r: seq<string>)
    ensures status == "" ==> r == Paths(cfs)
    ensures status != "" ==> forall p :: p in r <==> exists cf :: cf in cfs && cf.status != status && cf.path == p
  {
    var kept := Filter(cfs, LacksStatus(status));
    assert status == "" ==> kept == cfs by {
      if status == "" {
        KeepEverything(cfs, LacksStatus(status));
      }
    }
    PathsMembership(kept);
    Paths(kept)
  }

  /** Order and multiplicity: no records give no paths, and one more record at the end adds its
      path at the end exactly when its status is the one asked for. */
  lemma WithStatusSnoc(cfs: seq<ChangedFile>, cf: ChangedFile, status: string)
    ensures WithStatus([], status) == []
    ensures WithStatus(cfs + [cf], status)
      == WithStatus(cfs, status) + (if status == "" || cf.status == status then [cf.path] else [])
  {
    FilterSnoc(cfs, cf, HasStatus(status));
    PathsAppend(Filter(cfs, HasStatus(status)), if HasStatus(status)(cf) then [cf] else []);
  }

  /** The same for `WithoutStatus`: one more record adds its path at the end exactly when its
      status differs from the one given. */
  lemma WithoutStatusSnoc(cfs: seq<ChangedFile>, cf: ChangedFile, status: string)
    ensures WithoutStatus([], status) == []
    ensures WithoutStatus(cfs + [cf], status)
      == WithoutStatus(cfs, status) + (if status == "" || cf.status != status then [cf.path] else [])
  {
    FilterSnoc(cfs, cf, LacksStatus(status));
    PathsAppend(Filter(cfs, LacksStatus(status)), if LacksStatus(status)(cf) then [cf] else []);
  }

  lemma PathsAppend(s: seq<ChangedFile>, t: seq<ChangedFile>)
    ensures Paths(s + t) == Paths(s) + Paths(t)
  {
  }

  lemma PathsMembership(cfs: seq<ChangedFile>)
    ensures forall p :: p in Paths(cfs) <==> exists cf :: cf in cfs && cf.path == p
  {
    var ps := Paths(cfs);
    forall p | p in ps ensures exists cf :: cf in cfs && cf.path == p {
      var i :| 0 <= i < |ps| && ps[i] == p;
      assert cfs[i] in cfs;
    }
    forall cf | cf in cfs ensures cf.path in ps {
      var i :| 0 <= i < |cfs| && cfs[i] == cf;
      assert ps[i] == cf.path;
    }
  }

  lemma {:induction false} KeepEverything<T(!new)>(s: seq<T>, keep: T -> bool)
    requires forall x :: keep(x)
    ensures Filter(s, keep) == s
  {
    if s != [] {
      KeepEverything(s[..|s| - 1], keep);
    }
  }

  /** For a non-empty status every record lands in exactly one of the two lists. */
  lemma StatusPartition(cfs: seq<ChangedFile>, status: string)
    requires status != ""
    ensures |WithStatus(cfs, status)| + |WithoutStatus(cfs, status)| == |cfs|
  {
    FilterPartition(cfs, HasStatus(status), LacksStatus(status));
  }
}
