/**
  The worker's rendering of a step's resolved inputs into an agent request
  (src/apps/worker/dispatch.ts): light bindings become named arguments, heavy ones are
  rendered as the function's registered descriptor says.
 */
module Dispatch {
  import opened Wrappers
  import opened WorkflowSpecs
  import opened Bindings
  import opened Descriptors
  import opened Ordering

  datatype DispatchError =
    | InvalidHeavyValue(param: string)
    | DuplicatePosition(param: string, index: int)
    | UnsafeValue(key: string)
    | InvalidArgFlagName(key: string)

  datatype DataFile = DataFile(flag: Option<string>, path: string, stateId: Option<string>, stdinFromPath: bool)

  datatype Capability = Capability(descriptor: seq<Entry>, stateIdKeyed: bool)

  datatype Request = InvokeRequest(args: map<string, string>, positionalArgs: seq<string>, dataFiles: seq<DataFile>)

  // ---- path segments -----------------------------------------------------------------

  const SEPARATORS := {'/', '\\'}

  /** value.split(/[/\\]/), and strings.Split for one separator: segments may be empty. */
  function Split(s: string, separators: set<char>): (r: seq<string>)
    ensures |r| > 0
  {
    if s == "" then [""]
    else
      var rest := Split(s[1..], separators);
      if s[0] in separators then [""] + rest else [[s[0]] + rest[0]] + rest[1..]
  }

  /** `w` is a whole segment of `s` that starts at `i`. */
  ghost predicate SegmentAt(s: string, separators: set<char>, w: string, i: nat) {
    && i + |w| <= |s| && s[i..i + |w|] == w
    && (i == 0 || s[i - 1] in separators) && (i + |w| == |s| || s[i + |w|] in separators)
    && forall c :: c in w ==> c !in separators
  }

  /** The segments of a split are the runs between separators, the ends of the string
      counting as such. */
  lemma SplitSegments(s: string, separators: set<char>, w: string)
    ensures w in Split(s, separators) <==> exists i: nat :: SegmentAt(s, separators, w, i)
  {
    var r := Split(s, separators);
    SplitHead(s, separators, w);
    assert r == [r[0]] + r[1..];
    if i: nat :| SegmentAt(s, separators, w, i) {
      assert i > 0 ==> LaterSegment(s, separators, w);
    }
    if LaterSegment(s, separators, w) {
      var i: nat :| i > 0 && SegmentAt(s, separators, w, i);
    }
  }

  ghost predicate LaterSegment(s: string, separators: set<char>, w: string) {
    exists i: nat :: i > 0 && SegmentAt(s, separators, w, i)
  }

  lemma {:induction false} SplitHead(s: string, separators: set<char>, w: string)
    ensures Split(s, separators)[0] == w <==> SegmentAt(s, separators, w, 0)
    ensures w in Split(s, separators)[1..] <==> LaterSegment(s, separators, w)
    decreases |s|
  {
    if s != "" {
      var c, t := s[0], s[1..];
      assert s == [c] + t;
      var r, rt := Split(s, separators), Split(t, separators);
      SplitHead(t, separators, w);
      assert rt == [rt[0]] + rt[1..];
      LaterInTail(s, separators, w);
      if c in separators {
        assert r[1..] == rt;
        EmptyHead(s, separators, w);
      } else {
        assert r[1..] == rt[1..];
        if w != "" {
          SplitHead(t, separators, w[1..]);
          assert w == [w[0]] + w[1..];
          HeadInTail(s, separators, w);
        }
      }
    }
  }

  lemma EmptyHead(s: string, separators: set<char>, w: string)
    requires s != "" && s[0] in separators
    ensures SegmentAt(s, separators, w, 0) <==> w == ""
  {
    if w != "" {
      assert w[0] in w;
      assert |w| <= |s| ==> s[0..|w|][0] == s[0];
    }
  }

  lemma HeadInTail(s: string, separators: set<char>, w: string)
    requires s != "" && w != "" && s[0] !in separators
    ensures SegmentAt(s, separators, w, 0) <==> s[0] == w[0] && SegmentAt(s[1..], separators, w[1..], 0)
  {
    if |w| <= |s| {
      assert s[0..|w|] == [s[0]] + s[1..][0..|w| - 1];
    }
    assert w == [w[0]] + w[1..];
  }

  /** A segment further on is one of the rest: at its start after a separator, or later. */
  lemma LaterInTail(s: string, separators: set<char>, w: string)
    requires s != ""
    ensures LaterSegment(s, separators, w) <==>
            (s[0] in separators && SegmentAt(s[1..], separators, w, 0)) || LaterSegment(s[1..], separators, w)
  {
    var t := s[1..];
    if i: nat :| i > 0 && SegmentAt(s, separators, w, i) {
      ShiftSegment(s, separators, w, i);
    }
    if s[0] in separators && SegmentAt(t, separators, w, 0) {
      ShiftSegment(s, separators, w, 1);
    }
    if i: nat :| i > 0 && SegmentAt(t, separators, w, i) {
      ShiftSegment(s, separators, w, i + 1);
    }
  }

  lemma ShiftSegment(s: string, separators: set<char>, w: string, i: nat)
    requires s != "" && i > 0
    ensures SegmentAt(s, separators, w, i) <==>
            SegmentAt(s[1..], separators, w, i - 1) && (i == 1 ==> s[0] in separators)
  {
    if i + |w| <= |s| {
      assert s[i..i + |w|] == s[1..][i - 1..i - 1 + |w|];
    }
  }

  predicate StartsWithDash(s: string) {
    |s| > 0 && s[0] == '-'
  }

  // ---- heavy bindings ------------------------------------------------------------------

  predicate SafePath(v: Value) {
    v.Text? && v.text != "" && !StartsWithDash(v.text) && ".." !in Split(v.text, SEPARATORS)
  }

  /** A ".." between two of these separators, or at an end of the path. */
  ghost predicate ClimbsUp(path: string, separators: set<char>) {
    exists i: nat :: DotsAt(path, separators, i)
  }

  ghost predicate DotsAt(path: string, separators: set<char>, i: nat) {
    && i + 2 <= |path| && path[i] == '.' && path[i + 1] == '.'
    && (i == 0 || path[i - 1] in separators) && (i + 2 == |path| || path[i + 2] in separators)
  }

  lemma ClimbsUpIsSegment(path: string, separators: set<char>)
    requires '.' !in separators
    ensures ".." in Split(path, separators) <==> ClimbsUp(path, separators)
  {
    SplitSegments(path, separators, "..");
    forall i: nat
      ensures SegmentAt(path, separators, "..", i) <==> DotsAt(path, separators, i)
    {
      if i + 2 <= |path| {
        assert path[i..i + 2] == [path[i], path[i + 1]];
      }
    }
  }

  /** What can be a heavy value: a non-empty text that does not begin with a dash and has no
      ".." between slashes or backslashes. */
  lemma SafePathIff(v: Value)
    ensures SafePath(v) <==>
            v.Text? && v.text != "" && v.text[0] != '-' && !ClimbsUp(v.text, {'/', '\\'})
  {
    if v.Text? {
      ClimbsUpIsSegment(v.text, {'/', '\\'});
    }
  }

  /** assertHeavyBindingIsPath. */
  function HeavyPath(param: string, v: Value): (r: Result<string, DispatchError>)
    ensures r.Success? <==> SafePath(v)
    ensures r.Success? ==> v == Text(r.value)
    ensures r.Failure? ==> r.error == if v.Text? && v.text != "" then UnsafeValue(param) else InvalidHeavyValue(param)
  {
    if !v.Text? || v.text == "" then Failure(InvalidHeavyValue(param))
    else if StartsWithDash(v.text) then Failure(UnsafeValue(param))
    else if ".." in Split(v.text, SEPARATORS) then Failure(UnsafeValue(param))
    else Success(v.text)
  }

  /** The state id attached to every data file: only for a function that reuses state,
      and only with a content hash that is not empty. */
  function StateId(capability: Capability, contentHash: Option<string>): Option<string> {
    if capability.stateIdKeyed && contentHash.Some? && contentHash.value != "" then contentHash else None
  }

  function IndexOf(e: Entry): int {
    if e.positionIndex.Some? then e.positionIndex.value else 0
  }

  datatype Rendered = Rendered(dataFiles: seq<DataFile>, positionalByIndex: map<int, string>)

  function RenderEntry(r: Rendered, e: Entry, input: Record, stateId: Option<string>): Result<Rendered, DispatchError> {
    var v := Lookup(input, e.param);
    if v == Undefined then Success(r)
    else
      match HeavyPath(e.param, v)
      case Failure(error) => Failure(error)
      case Success(path) =>
        match e.style
        case Flag => Success(r.(dataFiles := r.dataFiles + [DataFile(e.flagName, path, stateId, false)]))
        case Positional =>
          if IndexOf(e) in r.positionalByIndex then Failure(DuplicatePosition(e.param, IndexOf(e)))
          else Success(r.(positionalByIndex := r.positionalByIndex[IndexOf(e) := path]))
        case Stdin => Success(r.(dataFiles := r.dataFiles + [DataFile(None, path, stateId, true)]))
  }

  function RenderAll(descriptor: seq<Entry>, input: Record, stateId: Option<string>): Result<Rendered, DispatchError> {
    if descriptor == [] then Success(Rendered([], map[]))
    else
      match RenderAll(descriptor[..|descriptor| - 1], input, stateId)
      case Failure(error) => Failure(error)
      case Success(r) => RenderEntry(r, descriptor[|descriptor| - 1], input, stateId)
  }

  function ByIndex(m: map<int, string>): seq<string> {
    var keys := Sorted(m.Keys);
    seq(|keys|, i requires 0 <= i < |keys| => assert keys[i] in keys; m[keys[i]])
  }

  /** `s` holds the values of `m`, each at the place given by how many keys are smaller. */
  ghost predicate SortedByIndex(m: map<int, string>, s: seq<string>) {
    && |s| == |m|
    && forall x :: x in m ==> Rank(m.Keys, x) < |s| && s[Rank(m.Keys, x)] == m[x]
  }

  lemma ByIndexIsSorted(m: map<int, string>)
    ensures SortedByIndex(m, ByIndex(m))
  {
    forall x | x in m
      ensures Rank(m.Keys, x) < |ByIndex(m)| && ByIndex(m)[Rank(m.Keys, x)] == m[x]
    {
      SortedAtRank(m.Keys, x);
    }
  }

  /** A state id travels only with a function that reuses state, and only one that is not
      empty. */
  ghost predicate CarriesStateId(f: DataFile, capability: Capability, contentHash: Option<string>) {
    match f.stateId
    case Some(id) => capability.stateIdKeyed && contentHash == Some(id) && id != ""
    case None => !capability.stateIdKeyed || contentHash == None || contentHash == Some("")
  }

  lemma {:induction false} FilesCarryStateId(descriptor: seq<Entry>, input: Record, stateId: Option<string>)
    requires RenderAll(descriptor, input, stateId).Success?
    ensures forall i :: 0 <= i < |RenderAll(descriptor, input, stateId).value.dataFiles| ==>
              RenderAll(descriptor, input, stateId).value.dataFiles[i].stateId == stateId
  {
    if descriptor != [] {
      FilesCarryStateId(descriptor[..|descriptor| - 1], input, stateId);
    }
  }

  /** renderHeavyBindings. */
  method RenderHeavyBindings(input: Record, capability: Capability, contentHash: Option<string>)
    returns (r: Result<(seq<DataFile>, seq<string>), DispatchError>)
    ensures var rendered := RenderAll(capability.descriptor, input, StateId(capability, contentHash));
            match rendered
            case Failure(error) => r == Failure(error)
            case Success(v) =>
              && r == Success((v.dataFiles, ByIndex(v.positionalByIndex)))
              && SortedByIndex(v.positionalByIndex, r.value.1)
              && forall i :: 0 <= i < |r.value.0| ==> CarriesStateId(r.value.0[i], capability, contentHash)
  {
    var dataFiles: seq<DataFile>, positionalByIndex: map<int, string> := [], map[];
    var descriptor, stateId := capability.descriptor, StateId(capability, contentHash);
    for i := 0 to |descriptor|
      invariant RenderAll(descriptor[..i], input, stateId) == Success(Rendered(dataFiles, positionalByIndex))
    {
      var entry := descriptor[i];
      var before := Rendered(dataFiles, positionalByIndex);
      assert descriptor[..i + 1][..i] == descriptor[..i];
      assert RenderAll(descriptor[..i + 1], input, stateId) == RenderEntry(before, entry, input, stateId);
      if RenderEntry(before, entry, input, stateId).Failure? {
        RenderFailsEarly(descriptor, i + 1, input, stateId);
      }
      var value := Lookup(input, entry.param);
      if value == Undefined {
        continue;
      }
      var path := HeavyPath(entry.param, value);
      if path.Failure? {
        return Failure(path.error);
      }
      match entry.style {
        case Flag =>
          dataFiles := dataFiles + [DataFile(entry.flagName, path.value, stateId, false)];
        case Positional =>
          if IndexOf(entry) in positionalByIndex {
            return Failure(DuplicatePosition(entry.param, IndexOf(entry)));
          }
          positionalByIndex := positionalByIndex[IndexOf(entry) := path.value];
        case Stdin =>
          dataFiles := dataFiles + [DataFile(None, path.value, stateId, true)];
      }
    }
    assert descriptor[..|descriptor|] == descriptor;
    ByIndexIsSorted(positionalByIndex);
    FilesCarryStateId(descriptor, input, stateId);
    return Success((dataFiles, ByIndex(positionalByIndex)));
  }

  lemma {:induction false} RenderFailsEarly(descriptor: seq<Entry>, k: nat, input: Record, stateId: Option<string>)
    requires k <= |descriptor| && RenderAll(descriptor[..k], input, stateId).Failure?
    ensures RenderAll(descriptor, input, stateId) == RenderAll(descriptor[..k], input, stateId)
    decreases |descriptor|
  {
    if k < |descriptor| {
      var init := descriptor[..|descriptor| - 1];
      assert init[..k] == descriptor[..k];
      RenderFailsEarly(init, k, input, stateId);
    } else {
      assert descriptor[..k] == descriptor;
    }
  }

  // ---- light bindings ----------------------------------------------------------------------

  function HeavyParams(descriptor: seq<Entry>): set<string> {
    set i | 0 <= i < |descriptor| :: descriptor[i].param
  }

  function LightKeys(input: Record, descriptor: seq<Entry>): set<string> {
    set k | k in input && input[k] != Undefined && k !in HeavyParams(descriptor)
  }

  /** stringifyArgValue. */
  function Stringify(v: Value): string {
    match v
    case Undefined => ""
    case Text(text) => text
    case Scalar(printed) => printed
    case Json(encoded) => encoded
  }

  predicate SafeLight(k: string, v: Value) {
    IsFlagName(k) && !StartsWithDash(Stringify(v))
  }

  /** An integer in decimal notation, as String() prints it. */
  function Printed(n: int): string {
    if n < 0 then "-" + Digits(-n) else Digits(n)
  }

  function Digits(n: nat): (r: string)
    ensures |r| > 0 && forall i :: 0 <= i < |r| ==> '0' <= r[i] <= '9'
  {
    var last := ['0' + (n % 10) as char];
    if n < 10 then last else Digits(n / 10) + last
  }

  /** Of the integers exactly those that are not negative can be light values. */
  lemma IntegerIsSafeIff(k: string, n: int)
    ensures SafeLight(k, Scalar(Printed(n))) <==> IsFlagName(k) && n >= 0
  {
    if n < 0 {
      assert Printed(n)[0] == '-';
    } else {
      assert '0' <= Digits(n)[0];
    }
  }

  function LightArgs(input: Record, keys: set<string>): map<string, string>
    requires keys <= input.Keys
  {
    map k | k in keys :: Stringify(input[k])
  }

  /** A defined key that the descriptor does not declare heavy. */
  ghost predicate IsLight(descriptor: seq<Entry>, input: Record, k: string) {
    k in input && input[k] != Undefined && forall i :: 0 <= i < |descriptor| ==> descriptor[i].param != k
  }

  /** A text travels as it is, a number or boolean as printed, anything else as JSON. */
  ghost predicate Prints(v: Value, w: string) {
    match v
    case Undefined => false
    case Text(text) => w == text
    case Scalar(printed) => w == printed
    case Json(encoded) => w == encoded
  }

  lemma SafeLightIff(k: string, v: Value)
    requires v != Undefined
    ensures SafeLight(k, v) <==> IsFlagName(k) && forall w :: Prints(v, w) ==> w == "" || w[0] != '-'
  {
    assert Prints(v, Stringify(v));
  }

  ghost predicate Offends(input: Record, descriptor: seq<Entry>, k: string, error: DispatchError) {
    && k in LightKeys(input, descriptor) && !SafeLight(k, input[k])
    && error == if IsFlagName(k) then UnsafeValue(k) else InvalidArgFlagName(k)
  }

  /** translateArgsToInvokeArgs: the entries come in some order, and the first offending
      one decides the error. */
  method TranslateArgs(input: Record, descriptor: seq<Entry>) returns (r: Result<map<string, string>, DispatchError>)
    ensures r.Success? <==> forall k :: k in LightKeys(input, descriptor) ==> SafeLight(k, input[k])
    ensures r.Success? ==> r.value == LightArgs(input, LightKeys(input, descriptor))
    ensures r.Success? ==> forall k :: (k in r.value <==> IsLight(descriptor, input, k))
                                       && (k in r.value ==> Prints(input[k], r.value[k]))
    ensures r.Failure? ==> exists k :: Offends(input, descriptor, k, r.error)
  {
    var heavyParams := HeavyParams(descriptor);
    var args: map<string, string> := map[];
    var unvisited := input.Keys;
    ghost var light := LightKeys(input, descriptor);
    while unvisited != {}
      invariant unvisited <= input.Keys
      invariant forall k :: k in light && k !in unvisited ==> SafeLight(k, input[k])
      invariant forall k :: k in args <==> k in light && k !in unvisited
      invariant forall k :: k in args ==> args[k] == Stringify(input[k])
      decreases |unvisited|
    {
      var key :| key in unvisited;
      unvisited := unvisited - {key};
      var value := input[key];
      if value == Undefined || key in heavyParams {
        continue;
      }
      assert key in light;
      if !IsFlagName(key) {
        assert Offends(input, descriptor, key, InvalidArgFlagName(key));
        return Failure(InvalidArgFlagName(key));
      }
      var stringified := Stringify(value);
      if StartsWithDash(stringified) {
        assert Offends(input, descriptor, key, UnsafeValue(key));
        return Failure(UnsafeValue(key));
      }
      args := args[key := stringified];
    }
    return Success(args);
  }

  /** A function without a registered capability has no heavy bindings and no state reuse. */
  function CapabilityOrNone(capability: Option<Capability>): (c: Capability)
    ensures capability == None ==> c.descriptor == [] && !c.stateIdKeyed
    ensures capability.Some? ==> capability == Some(c)
  {
    if capability.Some? then capability.value else Capability([], false)
  }

  /** buildInvokeRequest: the bindings of the request. */
  method BuildInvokeRequest(input: Record, registered: Option<Capability>, contentHash: Option<string>)
    returns (r: Result<Request, DispatchError>)
    ensures var capability := CapabilityOrNone(registered);
            && (r.Success? <==>
                  && RenderAll(capability.descriptor, input, StateId(capability, contentHash)).Success?
                  && forall k :: k in LightKeys(input, capability.descriptor) ==> SafeLight(k, input[k]))
            && (r.Success? ==> r.value == RequestFor(input, capability, contentHash))
  {
    var capability := CapabilityOrNone(registered);
    var heavy := RenderHeavyBindings(input, capability, contentHash);
    if heavy.Failure? {
      return Failure(heavy.error);
    }
    var args := TranslateArgs(input, capability.descriptor);
    if args.Failure? {
      return Failure(args.error);
    }
    return Success(InvokeRequest(args.value, heavy.value.1, heavy.value.0));
  }

  function RequestFor(input: Record, capability: Capability, contentHash: Option<string>): Request
    requires RenderAll(capability.descriptor, input, StateId(capability, contentHash)).Success?
  {
    var rendered := RenderAll(capability.descriptor, input, StateId(capability, contentHash)).value;
    InvokeRequest(LightArgs(input, LightKeys(input, capability.descriptor)),
            ByIndex(rendered.positionalByIndex), rendered.dataFiles)
  }

  // ---- rendering under a registered descriptor ---------------------------------------------

  ghost predicate SafeHeavy(descriptor: seq<Entry>, input: Record) {
    forall i :: 0 <= i < |descriptor| ==>
      Lookup(input, descriptor[i].param) == Undefined || SafePath(Lookup(input, descriptor[i].param))
  }

  ghost predicate SafeInput(descriptor: seq<Entry>, input: Record) {
    SafeHeavy(descriptor, input) && forall k :: k in LightKeys(input, descriptor) ==> SafeLight(k, input[k])
  }

  /** The data files a descriptor asks for: one for each flag or stdin parameter that has a
      value, in descriptor order. */
  function FilesFor(descriptor: seq<Entry>, input: Record, stateId: Option<string>): seq<DataFile> {
    if descriptor == [] then []
    else
      var init, e := FilesFor(descriptor[..|descriptor| - 1], input, stateId), descriptor[|descriptor| - 1];
      var v := Lookup(input, e.param);
      if v == Undefined || e.style == Positional then init
      else init + [DataFile(if e.style == Flag then e.flagName else None, if v.Text? then v.text else "", stateId,
                            e.style == Stdin)]
  }

  ghost predicate PositionalFor(descriptor: seq<Entry>, input: Record, m: map<int, string>) {
    && (forall i :: 0 <= i < |descriptor| && descriptor[i].style == Positional &&
                    Lookup(input, descriptor[i].param) != Undefined ==>
          IndexOf(descriptor[i]) in m && Lookup(input, descriptor[i].param) == Text(m[IndexOf(descriptor[i])]))
    && (forall x :: x in m ==>
          exists i :: 0 <= i < |descriptor| && descriptor[i].style == Positional &&
                      Lookup(input, descriptor[i].param) != Undefined && IndexOf(descriptor[i]) == x)
  }

  /** The entry has a value to put at position `x`. */
  ghost predicate HasPlace(e: Entry, input: Record, x: int) {
    e.style == Positional && e.positionIndex == Some(x) && e.param in input && input[e.param] != Undefined
  }

  ghost function Places(descriptor: seq<Entry>, input: Record): set<int> {
    set i | 0 <= i < |descriptor| && descriptor[i].positionIndex.Some?
            && HasPlace(descriptor[i], input, descriptor[i].positionIndex.value) :: descriptor[i].positionIndex.value
  }

  /** The positional arguments are the positional entries' values in the order of their
      indexes: each stands at the place given by how many indexes in use are smaller. */
  ghost predicate InIndexOrder(descriptor: seq<Entry>, input: Record, positionals: seq<string>) {
    && |positionals| == |Places(descriptor, input)|
    && forall i, x :: 0 <= i < |descriptor| && HasPlace(descriptor[i], input, x) ==>
         var rank := Rank(Places(descriptor, input), x);
         rank < |positionals| && input[descriptor[i].param] == Text(positionals[rank])
  }

  lemma PlacesAreKeys(descriptor: seq<Entry>, input: Record, m: map<int, string>)
    requires Registered(descriptor) && PositionalFor(descriptor, input, m)
    ensures Places(descriptor, input) == m.Keys
  {
    forall x
      ensures x in Places(descriptor, input) <==> x in m
    {
      if x in m {
        var i :| 0 <= i < |descriptor| && descriptor[i].style == Positional &&
                 Lookup(input, descriptor[i].param) != Undefined && IndexOf(descriptor[i]) == x;
        assert HasPlace(descriptor[i], input, x);
      }
    }
  }

  lemma SortedIsInIndexOrder(descriptor: seq<Entry>, input: Record, m: map<int, string>)
    requires Registered(descriptor) && PositionalFor(descriptor, input, m)
    ensures InIndexOrder(descriptor, input, ByIndex(m))
  {
    PlacesAreKeys(descriptor, input, m);
    ByIndexIsSorted(m);
  }

  /** The defined keys that the descriptor declares heavy. */
  ghost function HeavyKeys(descriptor: seq<Entry>, input: Record): set<string> {
    set k | k in HeavyParams(descriptor) && Lookup(input, k) != Undefined
  }

  ghost predicate RendersWell(descriptor: seq<Entry>, input: Record, stateId: Option<string>, r: Rendered) {
    && r.dataFiles == FilesFor(descriptor, input, stateId)
    && PositionalFor(descriptor, input, r.positionalByIndex)
    && |r.dataFiles| + |r.positionalByIndex| == |HeavyKeys(descriptor, input)|
  }

  lemma RegisteredPrefix(descriptor: seq<Entry>)
    requires descriptor != [] && Registered(descriptor)
    ensures Registered(descriptor[..|descriptor| - 1])
  {
  }

  lemma FreshPosition(init: seq<Entry>, e: Entry, input: Record, m: map<int, string>)
    requires Registered(init + [e]) && PositionalFor(init, input, m) && e.style == Positional
    ensures IndexOf(e) !in m
  {
    var all := init + [e];
    assert all[|init|] == e;
    forall i | 0 <= i < |init| && init[i].style == Positional
      ensures IndexOf(init[i]) != IndexOf(e)
    {
      assert all[i] == init[i];
    }
  }

  lemma PositionalSnoc(init: seq<Entry>, e: Entry, input: Record, m: map<int, string>, after: map<int, string>)
    requires Registered(init + [e]) && PositionalFor(init, input, m)
    requires if e.style == Positional && Lookup(input, e.param) != Undefined
             then Lookup(input, e.param).Text? && after == m[IndexOf(e) := Lookup(input, e.param).text]
             else after == m
    ensures PositionalFor(init + [e], input, after)
  {
    var all := init + [e];
    assert all[|init|] == e && forall i :: 0 <= i < |init| ==> all[i] == init[i];
    if e.style == Positional {
      FreshPosition(init, e, input, m);
    }
    forall x | x in after
      ensures exists i :: 0 <= i < |all| && all[i].style == Positional &&
                          Lookup(input, all[i].param) != Undefined && IndexOf(all[i]) == x
    {
      if x in m {
        var i :| 0 <= i < |init| && init[i].style == Positional && Lookup(input, init[i].param) != Undefined
                 && IndexOf(init[i]) == x;
        assert all[i] == init[i];
      } else {
        assert IndexOf(all[|init|]) == x;
      }
    }
  }

  lemma HeavyParamsSnoc(init: seq<Entry>, e: Entry)
    ensures HeavyParams(init + [e]) == HeavyParams(init) + {e.param}
  {
    var all := init + [e];
    assert all[|init|] == e;
    forall p | p in HeavyParams(init)
      ensures p in HeavyParams(all)
    {
      var i :| 0 <= i < |init| && init[i].param == p;
      assert all[i].param == p;
    }
  }

  lemma HeavyKeysSnoc(init: seq<Entry>, e: Entry, input: Record)
    requires Registered(init + [e])
    ensures |HeavyKeys(init + [e], input)| ==
            |HeavyKeys(init, input)| + if Lookup(input, e.param) != Undefined then 1 else 0
  {
    var all := init + [e];
    assert all[|init|] == e;
    assert forall i :: 0 <= i < |init| ==> init[i].param != all[|init|].param by {
      assert forall i :: 0 <= i < |init| ==> all[i] == init[i];
    }
    HeavyParamsSnoc(init, e);
    OneMoreHeavyKey(init, all, e.param, input);
  }

  lemma OneMoreHeavyKey(init: seq<Entry>, all: seq<Entry>, param: string, input: Record)
    requires HeavyParams(all) == HeavyParams(init) + {param} && param !in HeavyParams(init)
    ensures |HeavyKeys(all, input)| == |HeavyKeys(init, input)| + if Lookup(input, param) != Undefined then 1 else 0
  {
    assert HeavyKeys(all, input) ==
           if Lookup(input, param) != Undefined then HeavyKeys(init, input) + {param} else HeavyKeys(init, input);
  }

  /** Under a registered descriptor, rendering succeeds exactly on safe heavy values, and
      puts each of them in its one place. */
  lemma {:induction false} RenderRegistered(descriptor: seq<Entry>, input: Record, stateId: Option<string>)
    requires Registered(descriptor)
    ensures RenderAll(descriptor, input, stateId).Success? <==> SafeHeavy(descriptor, input)
    ensures SafeHeavy(descriptor, input) ==>
              RendersWell(descriptor, input, stateId, RenderAll(descriptor, input, stateId).value)
  {
    if descriptor != [] {
      var init, e := descriptor[..|descriptor| - 1], descriptor[|descriptor| - 1];
      assert descriptor == init + [e];
      RegisteredPrefix(descriptor);
      RenderRegistered(init, input, stateId);
      if SafeHeavy(init, input) {
        RenderLast(init, e, input, stateId, RenderAll(init, input, stateId).value);
      } else {
        var i :| 0 <= i < |init| && Lookup(input, init[i].param) != Undefined
                 && !SafePath(Lookup(input, init[i].param));
        assert descriptor[i] == init[i];
      }
    }
  }

  lemma RenderLast(init: seq<Entry>, e: Entry, input: Record, stateId: Option<string>, r: Rendered)
    requires Registered(init + [e]) && SafeHeavy(init, input) && RendersWell(init, input, stateId, r)
    ensures RenderEntry(r, e, input, stateId).Success? <==> SafeHeavy(init + [e], input)
    ensures SafeHeavy(init + [e], input) ==>
              RendersWell(init + [e], input, stateId, RenderEntry(r, e, input, stateId).value)
  {
    SafeHeavySnoc(init, e, input);
    if e.style == Positional {
      FreshPosition(init, e, input, r.positionalByIndex);
    }
    RenderEntryFields(r, e, input, stateId);
    if Lookup(input, e.param) == Undefined || SafePath(Lookup(input, e.param)) {
      RendersOneMore(init, e, input, stateId, r, RenderEntry(r, e, input, stateId).value);
    }
  }

  /** One entry more, value by value. */
  ghost predicate RenderedOneMore(r: Rendered, e: Entry, input: Record, stateId: Option<string>, r': Rendered) {
    var v := Lookup(input, e.param);
    && r'.dataFiles == (if v == Undefined || e.style == Positional then r.dataFiles
                        else r.dataFiles + [DataFile(if e.style == Flag then e.flagName else None,
                                                     if v.Text? then v.text else "", stateId, e.style == Stdin)])
    && r'.positionalByIndex == (if v.Text? && e.style == Positional then r.positionalByIndex[IndexOf(e) := v.text]
                                else r.positionalByIndex)
  }

  lemma RenderEntryFields(r: Rendered, e: Entry, input: Record, stateId: Option<string>)
    requires e.style == Positional ==> IndexOf(e) !in r.positionalByIndex
    ensures var v, result := Lookup(input, e.param), RenderEntry(r, e, input, stateId);
            && (result.Success? <==> v == Undefined || SafePath(v))
            && (result.Success? ==> RenderedOneMore(r, e, input, stateId, result.value))
  {
  }

  lemma RendersOneMore(
    init: seq<Entry>, e: Entry, input: Record, stateId: Option<string>, r: Rendered, r': Rendered)
    requires Registered(init + [e]) && RendersWell(init, input, stateId, r)
    requires Lookup(input, e.param) == Undefined || SafePath(Lookup(input, e.param))
    requires e.style == Positional ==> IndexOf(e) !in r.positionalByIndex
    requires RenderedOneMore(r, e, input, stateId, r')
    ensures RendersWell(init + [e], input, stateId, r')
  {
    var v := Lookup(input, e.param);
    FilesSnoc(init, e, input, stateId);
    PositionalSnoc(init, e, input, r.positionalByIndex, r'.positionalByIndex);
    HeavyKeysSnoc(init, e, input);
    if v != Undefined && e.style == Positional {
      OneMoreKey(r.positionalByIndex, IndexOf(e), v.text);
    }
  }

  lemma SafeHeavySnoc(init: seq<Entry>, e: Entry, input: Record)
    requires SafeHeavy(init, input)
    ensures SafeHeavy(init + [e], input) <==> Lookup(input, e.param) == Undefined || SafePath(Lookup(input, e.param))
  {
    var all := init + [e];
    assert all[|init|] == e && forall i :: 0 <= i < |init| ==> all[i] == init[i];
  }

  lemma FilesSnoc(init: seq<Entry>, e: Entry, input: Record, stateId: Option<string>)
    ensures var v := Lookup(input, e.param);
            FilesFor(init + [e], input, stateId) ==
              if v == Undefined || e.style == Positional then FilesFor(init, input, stateId)
              else FilesFor(init, input, stateId) +
                   [DataFile(if e.style == Flag then e.flagName else None, if v.Text? then v.text else "", stateId,
                             e.style == Stdin)]
  {
    assert (init + [e])[..|init|] == init;
  }

  lemma OneMoreKey(m: map<int, string>, x: int, path: string)
    requires x !in m
    ensures |m[x := path]| == |m| + 1
  {
    assert m[x := path].Keys == m.Keys + {x};
  }

  /** Rendering a safe input under a registered descriptor never fails and loses nothing:
      every defined key is in exactly one of the arguments, the data files and the
      positional arguments, the data files follow the descriptor and the positional
      arguments their indexes. */
  lemma RenderingConserves(input: Record, capability: Capability, contentHash: Option<string>)
    requires Registered(capability.descriptor) && SafeInput(capability.descriptor, input)
    ensures RenderAll(capability.descriptor, input, StateId(capability, contentHash)).Success?
    ensures var request := RequestFor(input, capability, contentHash);
            var m := RenderAll(capability.descriptor, input, StateId(capability, contentHash)).value.positionalByIndex;
            && request.args == LightArgs(input, LightKeys(input, capability.descriptor))
            && request.dataFiles == FilesFor(capability.descriptor, input, StateId(capability, contentHash))
            && PositionalFor(capability.descriptor, input, m) && request.positionalArgs == ByIndex(m)
            && InIndexOrder(capability.descriptor, input, request.positionalArgs)
            && |request.args| + |request.dataFiles| + |request.positionalArgs|
               == |set k | k in input && input[k] != Undefined|
  {
    var descriptor := capability.descriptor;
    RenderRegistered(descriptor, input, StateId(capability, contentHash));
    var defined := set k | k in input && input[k] != Undefined;
    var light, heavy := LightKeys(input, descriptor), HeavyKeys(descriptor, input);
    assert defined == light + heavy;
    assert light !! heavy;
    assert LightArgs(input, light).Keys == light;
    SortedIsInIndexOrder(descriptor, input,
      RenderAll(descriptor, input, StateId(capability, contentHash)).value.positionalByIndex);
  }

  /** For a function that reuses state by content hash, every heavy binding of an accepted
      capability travels with the hash. */
  lemma {:induction false} StateIdReachesEveryFile(descriptor: seq<Entry>, input: Record, stateId: Option<string>)
    requires forall i :: 0 <= i < |descriptor| ==> descriptor[i].style != Positional
    requires Registered(descriptor) && SafeHeavy(descriptor, input)
    ensures |FilesFor(descriptor, input, stateId)| == |HeavyKeys(descriptor, input)|
    ensures forall f :: f in FilesFor(descriptor, input, stateId) ==> f.stateId == stateId
  {
    if descriptor != [] {
      var init, e := descriptor[..|descriptor| - 1], descriptor[|descriptor| - 1];
      assert descriptor == init + [e];
      RegisteredPrefix(descriptor);
      StateIdReachesEveryFile(init, input, stateId);
      HeavyKeysSnoc(init, e, input);
    }
  }
}
