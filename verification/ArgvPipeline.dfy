/**
  Registry, worker and agent agree: a request rendered under a registered descriptor is
  accepted by the agent, and its argument vector says exactly what was bound.
 */
module ArgvPipeline {
  import opened Wrappers
  import opened WorkflowSpecs
  import opened Bindings
  import opened Descriptors
  import opened Ordering
  import opened Dispatch
  import opened AgentArgv

  // ---- the two languages check the same things -----------------------------------------

  function NonEmpty(segments: seq<string>): seq<string> {
    if segments == [] then []
    else (if segments[0] == "" then [] else [segments[0]]) + NonEmpty(segments[1..])
  }

  lemma {:induction false} NonEmptyContains(segments: seq<string>, w: string)
    requires w != ""
    ensures w in NonEmpty(segments) <==> w in segments
  {
    if segments != [] {
      NonEmptyContains(segments[1..], w);
      assert segments == [segments[0]] + segments[1..];
    }
  }

  /** The first segment of a split is the leading run, the others split what follows it. */
  lemma {:induction false} SplitAtWord(s: string, separators: set<char>)
    ensures var w, r := Word(s, separators), Split(s, separators);
            && r[0] == w
            && (if |w| == |s| then r[1..] == [] else s[|w|] in separators && r[1..] == Split(s[|w| + 1..], separators))
  {
    if s != "" {
      SplitAtWord(s[1..], separators);
    }
  }

  /** FieldsFunc gives the segments of split that are not empty. */
  lemma {:induction false} FieldsAreNonEmptySegments(s: string, separators: set<char>)
    ensures Fields(s, separators) == NonEmpty(Split(s, separators))
    decreases |s|
  {
    if s != "" {
      var w, r := Word(s, separators), Split(s, separators);
      SplitAtWord(s, separators);
      assert r == [w] + r[1..];
      if s[0] in separators {
        FieldsAreNonEmptySegments(s[1..], separators);
      } else if |w| < |s| {
        FieldsAreNonEmptySegments(s[|w| + 1..], separators);
        assert s[|w|..][1..] == s[|w| + 1..];
        assert s[|w|..][0] == s[|w|];
        assert Fields(s[|w|..], separators) == Fields(s[|w| + 1..], separators);
      } else {
        assert s[|w|..] == "";
      }
    }
  }

  /** The worker's path check and the agent's reject the same ".." segments. */
  lemma PathChecksAgree(path: string)
    ensures ".." in Split(path, SEPARATORS) <==> ".." in Fields(path, SEPARATORS)
    ensures path != "" ==> (SafePath(Text(path)) <==> SafeArgvValue(path))
  {
    FieldsAreNonEmptySegments(path, SEPARATORS);
    NonEmptyContains(Split(path, SEPARATORS), "..");
  }

  /** A segment without any separator of `more` is still one when splitting by `more`. */
  lemma {:induction false} SegmentSurvives(s: string, some: set<char>, more: set<char>, w: string)
    requires some <= more && forall c :: c in w ==> c !in more
    ensures Split(s, some)[0] == w ==> Split(s, more)[0] == w
    ensures w in Split(s, some)[1..] ==> w in Split(s, more)[1..]
  {
    if s != "" {
      var a, b := Split(s[1..], some), Split(s[1..], more);
      assert a == [a[0]] + a[1..] && b == [b[0]] + b[1..];
      SegmentSurvives(s[1..], some, more, w);
      if s[0] !in some && w != "" && w[0] == s[0] {
        SegmentSurvives(s[1..], some, more, w[1..]);
        assert [s[0]] + a[0] == w ==> a[0] == w[1..];
        assert w == [w[0]] + w[1..];
      }
    }
  }

  /** A stdin path the worker accepts is opened by the agent exactly when it is absolute:
      the worker lets a relative one through. */
  lemma StdinOpensIffAbsolute(path: string)
    requires SafePath(Text(path))
    ensures OpensStdin(path) <==> path[0] == '/'
  {
    if ".." in Split(path, {'/'}) {
      var r := Split(path, {'/'});
      SegmentSurvives(path, {'/'}, SEPARATORS, "..");
      assert r == [r[0]] + r[1..];
    }
  }

  lemma RelativeStdinIsRefused()
    ensures SafePath(Text("data")) && !OpensStdin("data")
  {
    PlainSplit("data");
  }

  lemma {:induction false} PlainSplit(s: string)
    requires forall c :: c in s ==> c !in SEPARATORS
    ensures Split(s, SEPARATORS) == [s]
  {
    if s != "" {
      PlainSplit(s[1..]);
      assert Split(s, SEPARATORS) == [[s[0]] + s[1..]];
      assert s == [s[0]] + s[1..];
    }
  }

  /** A flag the registry accepts is one whose bare name the agent accepts, and only
      those. */
  lemma FlagPatternsAgree(flag: string)
    ensures IsFullFlag(flag) <==> StripFlagPrefix(flag).Some? && IsFlagName(StripFlagPrefix(flag).value)
    ensures IsFullFlag(flag) ==> "--" + StripFlagPrefix(flag).value == flag
  {
    if |flag| > 2 {
      assert flag[..2] == "--" <==> flag[0] == '-' && flag[1] == '-' by {
        assert flag[..2] == [flag[0], flag[1]];
      }
      assert forall i :: 3 <= i < |flag| ==> flag[i] == flag[2..][i - 2];
      assert forall i :: 0 < i < |flag[2..]| ==> flag[2..][i] == flag[i + 2];
      assert flag == flag[..2] + flag[2..];
    }
  }

  // ---- the agent accepts what the worker renders ---------------------------------------------

  lemma {:induction false} FilesAreSafe(descriptor: seq<Entry>, input: Record, stateId: Option<string>)
    requires Registered(descriptor) && SafeHeavy(descriptor, input)
    ensures forall i :: 0 <= i < |FilesFor(descriptor, input, stateId)| ==>
              SafeFile(FilesFor(descriptor, input, stateId)[i])
  {
    if descriptor != [] {
      var init, e := descriptor[..|descriptor| - 1], descriptor[|descriptor| - 1];
      var v := Lookup(input, e.param);
      assert descriptor == init + [e];
      RegisteredPrefix(descriptor);
      FilesAreSafe(init, input, stateId);
      if v != Undefined && e.style == Flag {
        FlagPatternsAgree(e.flagName.value);
        PathChecksAgree(v.text);
      }
    }
  }

  lemma PositionalsAreSafe(descriptor: seq<Entry>, input: Record, m: map<int, string>)
    requires SafeHeavy(descriptor, input) && PositionalFor(descriptor, input, m)
    ensures forall i :: 0 <= i < |ByIndex(m)| ==> SafeArgvValue(ByIndex(m)[i])
  {
    var keys := Sorted(m.Keys);
    forall i | 0 <= i < |keys|
      ensures SafeArgvValue(ByIndex(m)[i])
    {
      assert keys[i] in keys;
      var j :| 0 <= j < |descriptor| && descriptor[j].style == Positional &&
               Lookup(input, descriptor[j].param) != Undefined && IndexOf(descriptor[j]) == keys[i];
      PathChecksAgree(m[keys[i]]);
    }
  }

  /** What the worker sends for a safe input under a registered descriptor, the agent
      accepts. */
  lemma RenderedIsAcceptable(input: Record, capability: Capability, contentHash: Option<string>)
    requires Registered(capability.descriptor) && SafeInput(capability.descriptor, input)
    ensures RenderAll(capability.descriptor, input, StateId(capability, contentHash)).Success?
    ensures Acceptable(RequestFor(input, capability, contentHash))
  {
    RenderingConserves(input, capability, contentHash);
    FilesAreSafe(capability.descriptor, input, StateId(capability, contentHash));
    PositionalsAreSafe(capability.descriptor, input,
      RenderAll(capability.descriptor, input, StateId(capability, contentHash)).value.positionalByIndex);
  }

  // ---- decoding -------------------------------------------------------------------------------

  function WithDashes(pairs: seq<Pair>): seq<Pair> {
    seq(|pairs|, i requires 0 <= i < |pairs| => ("--" + pairs[i].0, pairs[i].1))
  }

  ghost predicate PlainValues(pairs: seq<Pair>) {
    forall i :: 0 <= i < |pairs| ==> !LooksLikeFlag(pairs[i].1)
  }

  lemma {:induction false} DecodePositionals(tokens: seq<string>)
    requires forall i :: 0 <= i < |tokens| ==> !LooksLikeFlag(tokens[i])
    ensures Decode(tokens) == Some(Decoded([], tokens))
  {
    if tokens != [] {
      DecodePositionals(tokens[1..]);
      assert tokens == [tokens[0]] + tokens[1..];
    }
  }

  /** Leading flag tokens decode to their pairs, in order. */
  lemma {:induction false} DecodeFlags(pairs: seq<Pair>, rest: seq<string>)
    requires PlainValues(pairs) && Decode(rest).Some?
    ensures Decode(ArgTokens(pairs) + rest) ==
            Some(Decoded(WithDashes(pairs) + Decode(rest).value.flags, Decode(rest).value.positionals))
    decreases |pairs|
  {
    if pairs == [] {
      assert ArgTokens(pairs) + rest == rest;
      assert WithDashes(pairs) + Decode(rest).value.flags == Decode(rest).value.flags;
    } else {
      var init, last := pairs[..|pairs| - 1], pairs[|pairs| - 1];
      var tail := ["--" + last.0, last.1] + rest;
      assert tail[2..] == rest && tail[0] == "--" + last.0 && tail[1] == last.1;
      assert ArgTokens(pairs) + rest == ArgTokens(init) + tail;
      DecodeFlags(init, tail);
      assert WithDashes(pairs) == WithDashes(init) + [("--" + last.0, last.1)];
      Regroup(WithDashes(init), ("--" + last.0, last.1), Decode(rest).value.flags);
    }
  }

  lemma Regroup(a: seq<Pair>, p: Pair, b: seq<Pair>)
    ensures a + ([p] + b) == (a + [p]) + b
  {
  }

  /** A flag value that starts with '-' makes the whole vector unreadable. */
  lemma {:induction false} DashValueFails(pairs: seq<Pair>, rest: seq<string>)
    requires Decode(rest).None? || !PlainValues(pairs)
    ensures Decode(ArgTokens(pairs) + rest).None?
    decreases |pairs|
  {
    if pairs == [] {
      assert ArgTokens(pairs) + rest == rest;
    } else {
      var init, last := pairs[..|pairs| - 1], pairs[|pairs| - 1];
      var tail := ["--" + last.0, last.1] + rest;
      assert tail[2..] == rest && tail[0] == "--" + last.0 && tail[1] == last.1;
      assert ArgTokens(pairs) + rest == ArgTokens(init) + tail;
      DashValueFails(init, tail);
    }
  }

  /** A request the agent accepts decodes back to its arguments, its flag files and its
      positional arguments exactly when no light value starts with '-'. The agent checks
      the names of the arguments only; the worker's check of their values is needed. */
  lemma AcceptableDecodes(request: Request, pairs: seq<Pair>)
    requires Acceptable(request) && Lists(pairs, request.args)
    ensures PlainValues(pairs) <==>
            Decode(Argv(pairs, request)) ==
            Some(Decoded(WithDashes(pairs) + WithDashes(FilePairs(request.dataFiles)), request.positionalArgs))
  {
    var files := FilePairs(request.dataFiles);
    FilePairsPlain(request.dataFiles);
    DecodePositionals(request.positionalArgs);
    DecodeFlags(files, request.positionalArgs);
    assert Argv(pairs, request) == ArgTokens(pairs) + (ArgTokens(files) + request.positionalArgs);
    if PlainValues(pairs) {
      DecodeFlags(pairs, ArgTokens(files) + request.positionalArgs);
      assert WithDashes(files) + [] == WithDashes(files);
    } else {
      DashValueFails(pairs, ArgTokens(files) + request.positionalArgs);
    }
  }

  lemma {:induction false} FilePairsPlain(files: seq<DataFile>)
    requires forall i :: 0 <= i < |files| ==> SafeFile(files[i])
    ensures PlainValues(FilePairs(files))
  {
    if files != [] {
      FilePairsPlain(files[..|files| - 1]);
    }
  }

  /** The flag pairs a descriptor asks for, in descriptor order: the registered flag and
      the bound path. */
  function HeavyFlags(descriptor: seq<Entry>, input: Record): seq<Pair> {
    if descriptor == [] then []
    else
      var init, e := HeavyFlags(descriptor[..|descriptor| - 1], input), descriptor[|descriptor| - 1];
      var v := Lookup(input, e.param);
      if v == Undefined || e.style != Flag || e.flagName.None? || !v.Text? then init
      else init + [(e.flagName.value, v.text)]
  }

  lemma {:induction false} FileFlags(descriptor: seq<Entry>, input: Record, stateId: Option<string>)
    requires Registered(descriptor) && SafeHeavy(descriptor, input)
    ensures WithDashes(FilePairs(FilesFor(descriptor, input, stateId))) == HeavyFlags(descriptor, input)
  {
    if descriptor != [] {
      var init, e := descriptor[..|descriptor| - 1], descriptor[|descriptor| - 1];
      var v, files := Lookup(input, e.param), FilesFor(init, input, stateId);
      assert descriptor == init + [e];
      RegisteredPrefix(descriptor);
      FileFlags(init, input, stateId);
      if v != Undefined && e.style != Positional {
        FilePairsSnoc(files, FilesFor(descriptor, input, stateId)[|files|]);
        if e.style == Flag {
          FlagPatternsAgree(e.flagName.value);
          WithDashesSnoc(FilePairs(files), (StripFlagPrefix(e.flagName.value).value, v.text));
        }
      }
    }
  }

  lemma FilePairsSnoc(files: seq<DataFile>, f: DataFile)
    ensures FilePairs(files + [f]) ==
            if f.stdinFromPath then FilePairs(files)
            else FilePairs(files) +
                 [(if StripFlagPrefix(FlagOf(f)).Some? then StripFlagPrefix(FlagOf(f)).value else "", f.path)]
  {
    assert (files + [f])[..|files|] == files;
  }

  lemma WithDashesSnoc(pairs: seq<Pair>, p: Pair)
    ensures WithDashes(pairs + [p]) == WithDashes(pairs) + [("--" + p.0, p.1)]
  {
  }

  /** The light bindings, each once under its own name and with its value as printed. */
  ghost predicate LightPairs(descriptor: seq<Entry>, input: Record, pairs: seq<Pair>) {
    && (forall i :: 0 <= i < |pairs| ==>
          IsLight(descriptor, input, pairs[i].0) && Prints(input[pairs[i].0], pairs[i].1))
    && (forall i, j :: 0 <= i < j < |pairs| ==> pairs[i].0 != pairs[j].0)
    && (forall k :: IsLight(descriptor, input, k) ==> exists i :: 0 <= i < |pairs| && pairs[i].0 == k)
  }

  lemma ListsEveryKey(pairs: seq<Pair>, args: map<string, string>, k: string)
    requires Lists(pairs, args) && k in args
    ensures exists i :: 0 <= i < |pairs| && pairs[i].0 == k
  {
    var listed := set i | 0 <= i < |pairs| :: pairs[i].0;
    DistinctKeys(pairs, |pairs|);
    assert listed <= args.Keys && |listed| == |args.Keys|;
    assert args.Keys == listed + (args.Keys - listed);
    assert k in listed;
  }

  lemma {:induction false} DistinctKeys(pairs: seq<Pair>, n: nat)
    requires n <= |pairs| && forall i, j :: 0 <= i < j < |pairs| ==> pairs[i].0 != pairs[j].0
    ensures |set i | 0 <= i < n :: pairs[i].0| == n
  {
    if n > 0 {
      DistinctKeys(pairs, n - 1);
      var below := set i | 0 <= i < n - 1 :: pairs[i].0;
      assert (set i | 0 <= i < n :: pairs[i].0) == below + {pairs[n - 1].0};
    }
  }

  lemma ListedAreLight(descriptor: seq<Entry>, input: Record, pairs: seq<Pair>)
    requires Lists(pairs, LightArgs(input, LightKeys(input, descriptor)))
    ensures LightPairs(descriptor, input, pairs)
  {
    var args := LightArgs(input, LightKeys(input, descriptor));
    forall k | IsLight(descriptor, input, k)
      ensures exists i :: 0 <= i < |pairs| && pairs[i].0 == k
    {
      ListsEveryKey(pairs, args, k);
    }
  }

  /**
    The round trip. From a registered descriptor and a safe input, whatever order the
    agent ranges over the arguments in, the argument vector decodes to the light bindings
    as named flags, then the heavy flags with their paths in descriptor order, and the
    heavy positionals in index order.
   */
  lemma ArgvRoundTrip(input: Record, capability: Capability, contentHash: Option<string>, pairs: seq<Pair>)
    requires Registered(capability.descriptor) && SafeInput(capability.descriptor, input)
    requires Lists(pairs, LightArgs(input, LightKeys(input, capability.descriptor)))
    ensures RenderAll(capability.descriptor, input, StateId(capability, contentHash)).Success?
    ensures var decoded := Decode(Argv(pairs, RequestFor(input, capability, contentHash)));
            && decoded.Some?
            && decoded.value.flags == WithDashes(pairs) + HeavyFlags(capability.descriptor, input)
            && LightPairs(capability.descriptor, input, pairs)
            && InIndexOrder(capability.descriptor, input, decoded.value.positionals)
  {
    RenderingConserves(input, capability, contentHash);
    RenderedIsAcceptable(input, capability, contentHash);
    LightPairsArePlain(capability.descriptor, input, pairs);
    AcceptableDecodes(RequestFor(input, capability, contentHash), pairs);
    FileFlags(capability.descriptor, input, StateId(capability, contentHash));
  }

  lemma LightPairsArePlain(descriptor: seq<Entry>, input: Record, pairs: seq<Pair>)
    requires SafeInput(descriptor, input) && Lists(pairs, LightArgs(input, LightKeys(input, descriptor)))
    ensures LightPairs(descriptor, input, pairs) && PlainValues(pairs)
  {
    ListedAreLight(descriptor, input, pairs);
    forall i | 0 <= i < |pairs|
      ensures !LooksLikeFlag(pairs[i].1)
    {
      SafeLightIff(pairs[i].0, input[pairs[i].0]);
    }
  }

  /** The whole pipeline in one piece: the registry has no objection to the descriptor,
      the worker renders, the agent builds the argument vector, a service parses it. */
  method Pipeline(entries: seq<RawEntry>, stateIdKeyed: bool, input: Record, contentHash: Option<string>)
    returns (r: Option<Decoded>, ghost pairs: seq<Pair>)
    requires WellFormed(entries) && SafeInput(TypedAll(entries), input)
    ensures DescriptorErrors(Entries(entries)) == []
    ensures LightPairs(TypedAll(entries), input, pairs)
    ensures r.Some? && r.value.flags == WithDashes(pairs) + HeavyFlags(TypedAll(entries), input)
    ensures InIndexOrder(TypedAll(entries), input, r.value.positionals)
  {
    NoErrorsIffWellFormed(entries);
    AcceptedIsRegistered(entries);
    var capability := Capability(TypedAll(entries), stateIdKeyed);
    RenderedIsAcceptable(input, capability, contentHash);
    var request := BuildInvokeRequest(input, Some(capability), contentHash);
    var argv;
    argv, pairs := BuildArgs(request.value);
    ArgvRoundTrip(input, capability, contentHash, pairs);
    r := Decode(argv.value);
  }
}
