/**
  The agent's translation of a request into the argument vector and the standard input
  of a subprocess (agent/internal/execrunner/execrunner.go).
 */
module AgentArgv {
  import opened Wrappers
  import opened Descriptors
  import opened Dispatch

  // ---- checks ------------------------------------------------------------------------

  function Word(s: string, separators: set<char>): (w: string)
    ensures w <= s
  {
    if s == "" || s[0] in separators then "" else [s[0]] + Word(s[1..], separators)
  }

  /** strings.FieldsFunc: maximal runs of characters that are no separators. */
  function Fields(s: string, separators: set<char>): seq<string>
    decreases |s|
  {
    if s == "" then []
    else if s[0] in separators then Fields(s[1..], separators)
    else
      var w := Word(s, separators);
      [w] + Fields(s[|w|..], separators)
  }

  /** assertSafeArgvValue. */
  predicate SafeArgvValue(value: string) {
    !StartsWithDash(value) && ".." !in Fields(value, SEPARATORS)
  }

  function StripFlagPrefix(flag: string): Option<string> {
    if |flag| <= 2 || flag[..2] != "--" then None else Some(flag[2..])
  }

  /** The flag of a data file as sent: an absent flag arrives as "". */
  function FlagOf(f: DataFile): string {
    if f.flag.Some? then f.flag.value else ""
  }

  predicate SafeFile(f: DataFile) {
    f.stdinFromPath || (StripFlagPrefix(FlagOf(f)).Some? && IsFlagName(StripFlagPrefix(FlagOf(f)).value)
                        && SafeArgvValue(f.path))
  }

  // ---- argv ----------------------------------------------------------------------------

  type Pair = (string, string)

  function ArgTokens(pairs: seq<Pair>): seq<string> {
    if pairs == [] then []
    else ArgTokens(pairs[..|pairs| - 1]) + ["--" + pairs[|pairs| - 1].0, pairs[|pairs| - 1].1]
  }

  /** Flag and path of each data file that is not read as standard input. */
  function FilePairs(files: seq<DataFile>): seq<Pair> {
    if files == [] then []
    else
      var init, f := FilePairs(files[..|files| - 1]), files[|files| - 1];
      var name := StripFlagPrefix(FlagOf(f));
      if f.stdinFromPath then init else init + [(if name.Some? then name.value else "", f.path)]
  }

  /** The entries of a map in some order, each once. */
  ghost predicate Lists(pairs: seq<Pair>, args: map<string, string>) {
    && (forall i :: 0 <= i < |pairs| ==> pairs[i].0 in args && args[pairs[i].0] == pairs[i].1)
    && (forall i, j :: 0 <= i < j < |pairs| ==> pairs[i].0 != pairs[j].0)
    && |pairs| == |args|
  }

  ghost predicate Acceptable(request: Request) {
    && (forall k :: k in request.args ==> IsFlagName(k))
    && (forall i :: 0 <= i < |request.dataFiles| ==> SafeFile(request.dataFiles[i]))
    && (forall i :: 0 <= i < |request.positionalArgs| ==> SafeArgvValue(request.positionalArgs[i]))
  }

  function Argv(pairs: seq<Pair>, request: Request): seq<string> {
    ArgTokens(pairs) + ArgTokens(FilePairs(request.dataFiles)) + request.positionalArgs
  }

  /** Ranging over a Go map visits the keys in any order. */
  method AppendArgs(args: map<string, string>) returns (argv: Option<seq<string>>, ghost pairs: seq<Pair>)
    ensures argv.Some? <==> forall k :: k in args ==> IsFlagName(k)
    ensures argv.Some? ==> Lists(pairs, args) && argv.value == ArgTokens(pairs)
  {
    var out: seq<string> := [];
    var unvisited := args.Keys;
    pairs := [];
    while unvisited != {}
      invariant unvisited <= args.Keys && |pairs| + |unvisited| == |args.Keys|
      invariant forall k :: k in args && k !in unvisited ==> IsFlagName(k)
      invariant forall i :: 0 <= i < |pairs| ==>
                  pairs[i].0 in args && pairs[i].0 !in unvisited && args[pairs[i].0] == pairs[i].1
      invariant forall i, j :: 0 <= i < j < |pairs| ==> pairs[i].0 != pairs[j].0
      invariant out == ArgTokens(pairs)
      decreases |unvisited|
    {
      var flagName :| flagName in unvisited;
      if !IsFlagName(flagName) {
        return None, pairs;
      }
      out := out + ["--" + flagName, args[flagName]];
      assert (pairs + [(flagName, args[flagName])])[..|pairs|] == pairs;
      pairs := pairs + [(flagName, args[flagName])];
      unvisited := unvisited - {flagName};
    }
    return Some(out), pairs;
  }

  method AppendFiles(files: seq<DataFile>) returns (argv: Option<seq<string>>)
    ensures argv.Some? <==> forall i :: 0 <= i < |files| ==> SafeFile(files[i])
    ensures argv.Some? ==> argv.value == ArgTokens(FilePairs(files))
  {
    var out: seq<string> := [];
    for i := 0 to |files|
      invariant forall j :: 0 <= j < i ==> SafeFile(files[j])
      invariant out == ArgTokens(FilePairs(files[..i]))
    {
      var f := files[i];
      assert files[..i + 1][..i] == files[..i];
      if f.stdinFromPath {
        continue;
      }
      var name := StripFlagPrefix(FlagOf(f));
      if name.None? || !IsFlagName(name.value) || !SafeArgvValue(f.path) {
        assert !SafeFile(files[i]);
        return None;
      }
      var pairs := FilePairs(files[..i]);
      assert (pairs + [(name.value, f.path)])[..|pairs|] == pairs;
      out := out + ["--" + name.value, f.path];
    }
    assert files[..|files|] == files;
    return Some(out);
  }

  /** buildArgs. */
  method BuildArgs(request: Request) returns (argv: Option<seq<string>>, ghost pairs: seq<Pair>)
    ensures argv.Some? <==> Acceptable(request)
    ensures argv.Some? ==> Lists(pairs, request.args) && argv.value == Argv(pairs, request)
  {
    var args;
    args, pairs := AppendArgs(request.args);
    if args.None? {
      return None, pairs;
    }
    var files := AppendFiles(request.dataFiles);
    if files.None? {
      return None, pairs;
    }
    for i := 0 to |request.positionalArgs|
      invariant forall j :: 0 <= j < i ==> SafeArgvValue(request.positionalArgs[j])
    {
      if !SafeArgvValue(request.positionalArgs[i]) {
        return None, pairs;
      }
    }
    return Some(args.value + files.value + request.positionalArgs), pairs;
  }

  // ---- standard input ----------------------------------------------------------------------

  datatype StdinSource =
    | NoStdin
    | Bytes(bytes: seq<bv8>)
    | File(path: string)
    | Refused(path: string)
    | CannotOpen(path: string)

  /** What the first stdin data file comes to. */
  function FromPath(path: string, canOpen: string -> bool): StdinSource {
    if !OpensStdin(path) then Refused(path) else if !canOpen(path) then CannotOpen(path) else File(path)
  }

  ghost predicate NoneBelow(files: seq<DataFile>, k: nat)
    requires k <= |files|
  {
    forall i :: 0 <= i < k ==> !files[i].stdinFromPath
  }

  ghost predicate IsFirstStdin(files: seq<DataFile>, i: nat) {
    i < |files| && files[i].stdinFromPath && NoneBelow(files, i)
  }

  /** stdinSource: the first stdin data file decides; without one, the bytes of the request
      itself, if there are any. */
  method ChooseStdin(files: seq<DataFile>, stdin: seq<bv8>, canOpen: string -> bool) returns (r: StdinSource)
    ensures NoneBelow(files, |files|) ==> r == if |stdin| > 0 then Bytes(stdin) else NoStdin
    ensures forall i: nat :: IsFirstStdin(files, i) ==> r == FromPath(files[i].path, canOpen)
  {
    for i := 0 to |files|
      invariant NoneBelow(files, i)
    {
      if files[i].stdinFromPath {
        assert forall j: nat :: IsFirstStdin(files, j) ==> j == i;
        if !OpensStdin(files[i].path) {
          return Refused(files[i].path);
        }
        return if canOpen(files[i].path) then File(files[i].path) else CannotOpen(files[i].path);
      }
    }
    return if |stdin| > 0 then Bytes(stdin) else NoStdin;
  }

  predicate OpensStdin(path: string) {
    |path| > 0 && path[0] == '/' && ".." !in Split(path, {'/'})
  }

  /** What can be opened: an absolute path without a ".." between slashes. */
  lemma OpensStdinIff(path: string)
    ensures OpensStdin(path) <==> path != "" && path[0] == '/' && !ClimbsUp(path, {'/'})
  {
    ClimbsUpIsSegment(path, {'/'});
  }

  // ---- a parser of argument vectors -------------------------------------------------------

  datatype Decoded = Decoded(flags: seq<Pair>, positionals: seq<string>)

  predicate LooksLikeFlag(token: string) {
    token != "" && token[0] == '-'
  }

  /** Reads every token that starts with '-' as a flag that takes the next token, which
      must not start with '-', and any other token as a positional. */
  function Decode(argv: seq<string>): Option<Decoded> {
    if argv == [] then Some(Decoded([], []))
    else if LooksLikeFlag(argv[0]) then
      if |argv| < 2 || LooksLikeFlag(argv[1]) then None
      else
        var rest := Decode(argv[2..]);
        if rest.None? then None
        else Some(Decoded([(argv[0], argv[1])] + rest.value.flags, rest.value.positionals))
    else
      var rest := Decode(argv[1..]);
      if rest.None? then None
      else Some(Decoded(rest.value.flags, [argv[0]] + rest.value.positionals))
  }
}
