/**
  Registration checks of a function's invocation descriptor
  (src/registry/validate.ts, src/registry/constants.ts): what the registry accepts as the
  description of how a heavy parameter reaches a service's own command line.
 */
module Descriptors {
  import opened Wrappers

  // ---- flag names ------------------------------------------------------------------

  predicate IsLetter(c: char) {
    'a' <= c <= 'z' || 'A' <= c <= 'Z'
  }

  predicate IsNameChar(c: char) {
    IsLetter(c) || '0' <= c <= '9' || c == '-'
  }

  /** The pattern [a-zA-Z][a-zA-Z0-9-]* over the whole string. */
  predicate IsFlagName(s: string) {
    |s| > 0 && IsLetter(s[0]) && forall i :: 0 <= i < |s| ==> IsNameChar(s[i])
  }

  /** INVOCATION_FLAG_NAME_PATTERN: the same with a leading "--". */
  predicate IsFullFlag(s: string) {
    && |s| >= 3 && s[0] == '-' && s[1] == '-' && IsLetter(s[2])
    && forall i :: 3 <= i < |s| ==> IsNameChar(s[i])
  }

  /** Every letter, digit and hyphen can be in a name, and nothing that would end a token,
      join a value to it or start another flag. */
  lemma NameCharsAreSafe(c: char)
    ensures IsNameChar(c) ==> c !in {' ', '=', '_', '.', '/', '\\', '"', '\'', '\n', '\0', ':', '@', '[', '`', '{'}
    ensures 'a' <= c <= 'z' || 'A' <= c <= 'Z' || '0' <= c <= '9' || c == '-' ==> IsNameChar(c)
  {
  }

  /** What the patterns accept and refuse. */
  lemma FlagPatternExamples()
    ensures IsFullFlag("--Data-file2") && IsFullFlag("--x") && IsFullFlag("--Z-") && IsFlagName("Data-file2")
    ensures !IsFlagName("") && !IsFlagName("2x") && !IsFlagName("-x") && !IsFlagName("a_b") && !IsFlagName("a=b")
    ensures !IsFullFlag("--") && !IsFullFlag("-x") && !IsFullFlag("---x") && !IsFullFlag("--a b") && !IsFullFlag("x--y")
  {
    assert "a_b"[1] == '_' && "a=b"[1] == '=' && "--a b"[3] == ' ';
  }

  // ---- the descriptor as submitted ---------------------------------------------------

  /** A JSON value as far as the checks tell values apart. */
  datatype Raw = Absent | Str(s: string) | Int(i: int) | Other

  /** INVOCATION_STYLES. */
  datatype Style = Flag | Positional | Stdin

  /** A style is one of the three names, or anything else. */
  datatype RawStyle = Known(style: Style) | Unknown

  datatype RawEntry = NotAnObject | RawEntry(param: Raw, style: RawStyle, flagName: Raw, positionIndex: Raw)

  datatype RawDescriptor = NotAnArray | Entries(entries: seq<RawEntry>)

  datatype DescriptorError =
    | DescriptorNotAnArray
    | EntryNotAnObject
    | ParamNotAString
    | DuplicateParam(param: string)
    | InvalidStyle
    | FlagNameMissing
    | FlagNameMalformed(flagName: string)
    | PositionIndexInvalid
    | DuplicatePositionIndex(index: int)
    | ManyStdinEntries(count: nat)

  // ---- the loop of validateInvocationDescriptor, as a fold -----------------------------

  datatype Seen = Seen(params: set<string>, indexes: set<int>, stdins: nat)

  function ParamErrors(seen: Seen, param: Raw): seq<DescriptorError> {
    if !param.Str? || param.s == "" then [ParamNotAString]
    else if param.s in seen.params then [DuplicateParam(param.s)]
    else []
  }

  function StyleErrors(seen: Seen, e: RawEntry): seq<DescriptorError>
    requires e.RawEntry?
  {
    if e.style == Known(Flag) then
      if !e.flagName.Str? || e.flagName.s == "" then [FlagNameMissing]
      else if !IsFullFlag(e.flagName.s) then [FlagNameMalformed(e.flagName.s)]
      else []
    else if e.style == Known(Positional) then
      if !e.positionIndex.Int? || e.positionIndex.i < 0 then [PositionIndexInvalid]
      else if e.positionIndex.i in seen.indexes then [DuplicatePositionIndex(e.positionIndex.i)]
      else []
    else if e.style == Known(Stdin) then []
    else [InvalidStyle]
  }

  function EntryErrors(seen: Seen, e: RawEntry): seq<DescriptorError> {
    if e.NotAnObject? then [EntryNotAnObject] else ParamErrors(seen, e.param) + StyleErrors(seen, e)
  }

  function SeenAfter(seen: Seen, e: RawEntry): Seen {
    if e.NotAnObject? then seen
    else Seen(
      if e.param.Str? && e.param.s != "" then seen.params + {e.param.s} else seen.params,
      if e.style == Known(Positional) && e.positionIndex.Int? && e.positionIndex.i >= 0
      then seen.indexes + {e.positionIndex.i} else seen.indexes,
      if e.style == Known(Stdin) then seen.stdins + 1 else seen.stdins)
  }

  function SeenIn(entries: seq<RawEntry>): Seen {
    if entries == [] then Seen({}, {}, 0)
    else SeenAfter(SeenIn(entries[..|entries| - 1]), entries[|entries| - 1])
  }

  function AllEntryErrors(entries: seq<RawEntry>): seq<DescriptorError> {
    if entries == [] then []
    else AllEntryErrors(entries[..|entries| - 1]) +
         EntryErrors(SeenIn(entries[..|entries| - 1]), entries[|entries| - 1])
  }

  function DescriptorErrors(descriptor: RawDescriptor): seq<DescriptorError> {
    if descriptor.NotAnArray? then [DescriptorNotAnArray]
    else
      var stdins := SeenIn(descriptor.entries).stdins;
      AllEntryErrors(descriptor.entries) + if stdins > 1 then [ManyStdinEntries(stdins)] else []
  }

  method CheckParam(param: Raw, seenParams: set<string>, errors: seq<DescriptorError>)
    returns (errors': seq<DescriptorError>, seenParams': set<string>)
    ensures forall seen: Seen :: seen.params == seenParams ==> errors' == errors + ParamErrors(seen, param)
    ensures seenParams' == if param.Str? && param.s != "" then seenParams + {param.s} else seenParams
  {
    if !param.Str? || param.s == "" {
      return errors + [ParamNotAString], seenParams;
    }
    if param.s in seenParams {
      assert seenParams + {param.s} == seenParams;
      return errors + [DuplicateParam(param.s)], seenParams;
    }
    return errors, seenParams + {param.s};
  }

  method CheckStyle(e: RawEntry, ghost seen: Seen, seenIndexes: set<int>, stdins: nat, errors: seq<DescriptorError>)
    returns (errors': seq<DescriptorError>, seenIndexes': set<int>, stdins': nat)
    requires e.RawEntry? && seen.indexes == seenIndexes && seen.stdins == stdins
    ensures errors' == errors + StyleErrors(seen, e)
    ensures seenIndexes' == SeenAfter(seen, e).indexes && stdins' == SeenAfter(seen, e).stdins
  {
    errors', seenIndexes', stdins' := errors, seenIndexes, stdins;
    if e.style == Known(Flag) {
      if !e.flagName.Str? || e.flagName.s == "" {
        errors' := errors + [FlagNameMissing];
      } else if !IsFullFlag(e.flagName.s) {
        errors' := errors + [FlagNameMalformed(e.flagName.s)];
      }
    } else if e.style == Known(Positional) {
      if !e.positionIndex.Int? || e.positionIndex.i < 0 {
        errors' := errors + [PositionIndexInvalid];
      } else if e.positionIndex.i in seenIndexes {
        assert seenIndexes + {e.positionIndex.i} == seenIndexes;
        errors' := errors + [DuplicatePositionIndex(e.positionIndex.i)];
      } else {
        seenIndexes' := seenIndexes + {e.positionIndex.i};
      }
    } else if e.style == Known(Stdin) {
      stdins' := stdins + 1;
    } else {
      errors' := errors + [InvalidStyle];
    }
  }

  method CheckEntry(e: RawEntry, seen: Seen, errors: seq<DescriptorError>)
    returns (errors': seq<DescriptorError>, seen': Seen)
    ensures errors' == errors + EntryErrors(seen, e) && seen' == SeenAfter(seen, e)
  {
    if e.NotAnObject? {
      return errors + [EntryNotAnObject], seen;
    }
    var afterParam, seenParams := CheckParam(e.param, seen.params, errors);
    var afterStyle, seenIndexes, stdins := CheckStyle(e, seen, seen.indexes, seen.stdins, afterParam);
    assert afterParam == errors + ParamErrors(seen, e.param);
    return afterStyle, Seen(seenParams, seenIndexes, stdins);
  }

  method CheckEntries(entries: seq<RawEntry>, errors: seq<DescriptorError>)
    returns (errors': seq<DescriptorError>, seen: Seen)
    ensures errors' == errors + AllEntryErrors(entries) && seen == SeenIn(entries)
  {
    errors', seen := errors, Seen({}, {}, 0);
    for i := 0 to |entries|
      invariant seen == SeenIn(entries[..i])
      invariant errors' == errors + AllEntryErrors(entries[..i])
    {
      FoldOneMore(entries, i);
      Regroup(errors, AllEntryErrors(entries[..i]), EntryErrors(seen, entries[i]));
      errors', seen := CheckEntry(entries[i], seen, errors');
    }
    assert entries[..|entries|] == entries;
  }

  lemma Regroup(a: seq<DescriptorError>, b: seq<DescriptorError>, c: seq<DescriptorError>)
    ensures (a + b) + c == a + (b + c)
  {
  }

  lemma FoldOneMore(entries: seq<RawEntry>, i: nat)
    requires i < |entries|
    ensures AllEntryErrors(entries[..i + 1]) ==
            AllEntryErrors(entries[..i]) + EntryErrors(SeenIn(entries[..i]), entries[i])
    ensures SeenIn(entries[..i + 1]) == SeenAfter(SeenIn(entries[..i]), entries[i])
  {
    assert entries[..i + 1][..i] == entries[..i];
  }

  /** validateInvocationDescriptor: appends to the errors of the whole registration. */
  method ValidateInvocationDescriptor(descriptor: RawDescriptor, errors: seq<DescriptorError>)
    returns (errors': seq<DescriptorError>)
    ensures errors' == errors + DescriptorErrors(descriptor)
  {
    errors' := errors;
    if descriptor.NotAnArray? {
      return errors' + [DescriptorNotAnArray];
    }
    var seen;
    errors', seen := CheckEntries(descriptor.entries, errors);
    if seen.stdins > 1 {
      Regroup(errors, AllEntryErrors(descriptor.entries), [ManyStdinEntries(seen.stdins)]);
      errors' := errors' + [ManyStdinEntries(seen.stdins)];
    }
  }

  // ---- what acceptance means ---------------------------------------------------------------

  ghost predicate WellFormedEntry(e: RawEntry) {
    && e.RawEntry? && e.param.Str? && e.param.s != ""
    && e.style.Known?
    && (e.style == Known(Flag) ==> e.flagName.Str? && IsFullFlag(e.flagName.s))
    && (e.style == Known(Positional) ==> e.positionIndex.Int? && e.positionIndex.i >= 0)
  }

  /** Two entries that cannot both be in one descriptor. */
  ghost predicate Clash(a: RawEntry, b: RawEntry)
    requires WellFormedEntry(a) && WellFormedEntry(b)
  {
    || a.param == b.param
    || (a.style == b.style == Known(Positional) && a.positionIndex == b.positionIndex)
    || a.style == b.style == Known(Stdin)
  }

  ghost predicate WellFormed(entries: seq<RawEntry>) {
    && (forall i :: 0 <= i < |entries| ==> WellFormedEntry(entries[i]))
    && (forall i, j :: 0 <= i < j < |entries| ==> !Clash(entries[i], entries[j]))
  }

  ghost predicate AllWellFormed(entries: seq<RawEntry>) {
    forall i :: 0 <= i < |entries| ==> WellFormedEntry(entries[i])
  }

  ghost predicate ParamsExactly(params: set<string>, entries: seq<RawEntry>)
    requires AllWellFormed(entries)
  {
    forall p :: p in params <==> exists i :: 0 <= i < |entries| && entries[i].param == Str(p)
  }

  predicate AtIndex(e: RawEntry, x: int) {
    e.RawEntry? && e.style == Known(Positional) && e.positionIndex == Int(x)
  }

  ghost predicate IndexesExactly(indexes: set<int>, entries: seq<RawEntry>) {
    forall x :: x in indexes <==> exists i :: 0 <= i < |entries| && AtIndex(entries[i], x)
  }

  predicate ReadsStdin(e: RawEntry) {
    e.RawEntry? && e.style == Known(Stdin)
  }

  ghost predicate StdinsCounted(stdins: nat, entries: seq<RawEntry>) {
    && (stdins == 0 <==> forall i :: 0 <= i < |entries| ==> !ReadsStdin(entries[i]))
    && (stdins <= 1 <==> forall i, j :: 0 <= i < j < |entries| ==> !(ReadsStdin(entries[i]) && ReadsStdin(entries[j])))
  }

  ghost predicate SeenExactly(seen: Seen, entries: seq<RawEntry>) {
    && AllWellFormed(entries)
    && ParamsExactly(seen.params, entries)
    && IndexesExactly(seen.indexes, entries)
    && StdinsCounted(seen.stdins, entries)
  }

  lemma SeenOneMore(seen: Seen, entries: seq<RawEntry>, e: RawEntry)
    requires SeenExactly(seen, entries) && WellFormedEntry(e)
    ensures SeenExactly(SeenAfter(seen, e), entries + [e])
  {
    assert AllWellFormed(entries + [e]);
    ParamsOneMore(seen.params, entries, e);
    IndexesOneMore(seen, entries, e);
    StdinsOneMore(seen.stdins, entries, e);
  }

  lemma ParamsOneMore(params: set<string>, entries: seq<RawEntry>, e: RawEntry)
    requires AllWellFormed(entries) && ParamsExactly(params, entries) && WellFormedEntry(e)
    ensures AllWellFormed(entries + [e]) && ParamsExactly(params + {e.param.s}, entries + [e])
  {
    var all := entries + [e];
    assert all[|entries|] == e && AllWellFormed(all);
    forall p
      ensures p in params + {e.param.s} <==> exists i :: 0 <= i < |all| && all[i].param == Str(p)
    {
      if i :| 0 <= i < |entries| && entries[i].param == Str(p) {
        assert all[i].param == Str(p);
      }
    }
  }

  lemma IndexesOneMore(seen: Seen, entries: seq<RawEntry>, e: RawEntry)
    requires IndexesExactly(seen.indexes, entries) && WellFormedEntry(e)
    ensures IndexesExactly(SeenAfter(seen, e).indexes, entries + [e])
  {
    var all := entries + [e];
    assert all[|entries|] == e;
    forall x
      ensures x in SeenAfter(seen, e).indexes <==> exists i :: 0 <= i < |all| && AtIndex(all[i], x)
    {
      if i :| 0 <= i < |entries| && AtIndex(entries[i], x) {
        assert AtIndex(all[i], x);
      }
    }
  }

  lemma StdinsOneMore(stdins: nat, entries: seq<RawEntry>, e: RawEntry)
    requires StdinsCounted(stdins, entries)
    ensures StdinsCounted(if ReadsStdin(e) then stdins + 1 else stdins, entries + [e])
  {
    var all := entries + [e];
    assert all[|entries|] == e;
    assert forall i :: 0 <= i < |entries| ==> all[i] == entries[i];
    if i :| 0 <= i < |entries| && ReadsStdin(entries[i]) {
      assert ReadsStdin(all[i]);
    }
    if i, j :| 0 <= i < j < |entries| && ReadsStdin(entries[i]) && ReadsStdin(entries[j]) {
      assert ReadsStdin(all[i]) && ReadsStdin(all[j]);
    }
  }

  /** The clash the fold reports at once; two stdin entries are only counted. */
  ghost predicate ClashSeen(a: RawEntry, b: RawEntry)
    requires WellFormedEntry(a) && WellFormedEntry(b)
  {
    a.param == b.param || (a.style == b.style == Known(Positional) && a.positionIndex == b.positionIndex)
  }

  lemma ParamIsClean(seen: Seen, entries: seq<RawEntry>, param: Raw)
    requires SeenExactly(seen, entries)
    ensures ParamErrors(seen, param) == [] <==>
            param.Str? && param.s != "" && forall i :: 0 <= i < |entries| ==> entries[i].param != param
  {
    if param.Str? {
      assert param == Str(param.s);
    }
  }

  lemma StyleIsClean(seen: Seen, entries: seq<RawEntry>, e: RawEntry)
    requires SeenExactly(seen, entries) && e.RawEntry? && e.param.Str? && e.param.s != ""
    ensures StyleErrors(seen, e) == [] <==>
            WellFormedEntry(e) &&
            forall i :: 0 <= i < |entries| ==>
              !(entries[i].style == e.style == Known(Positional) && entries[i].positionIndex == e.positionIndex)
  {
    if e.style.Known? {
      assert e.style.style.Flag? || e.style.style.Positional? || e.style.style.Stdin?;
      assert e.positionIndex.Int? ==> e.positionIndex == Int(e.positionIndex.i);
    }
  }

  lemma EntryIsClean(seen: Seen, entries: seq<RawEntry>, e: RawEntry)
    requires SeenExactly(seen, entries)
    ensures EntryErrors(seen, e) == [] <==>
            WellFormedEntry(e) && forall i :: 0 <= i < |entries| ==> !ClashSeen(entries[i], e)
  {
    if e.RawEntry? {
      assert |EntryErrors(seen, e)| == |ParamErrors(seen, e.param)| + |StyleErrors(seen, e)|;
      ParamIsClean(seen, entries, e.param);
      if ParamErrors(seen, e.param) == [] {
        StyleIsClean(seen, entries, e);
      } else if WellFormedEntry(e) {
        var i :| 0 <= i < |entries| && entries[i].param == e.param;
        assert ClashSeen(entries[i], e);
      }
    }
  }

  ghost predicate NoClashSeen(entries: seq<RawEntry>) {
    && (forall i :: 0 <= i < |entries| ==> WellFormedEntry(entries[i]))
    && (forall i, j :: 0 <= i < j < |entries| ==> !ClashSeen(entries[i], entries[j]))
  }

  lemma NoClashOneMore(entries: seq<RawEntry>, e: RawEntry)
    ensures NoClashSeen(entries + [e]) <==>
            && NoClashSeen(entries) && WellFormedEntry(e)
            && forall i :: 0 <= i < |entries| ==> !ClashSeen(entries[i], e)
  {
    var all := entries + [e];
    assert forall i :: 0 <= i < |entries| ==> all[i] == entries[i];
    if NoClashSeen(all) {
      assert WellFormedEntry(all[|entries|]);
      forall i | 0 <= i < |entries|
        ensures WellFormedEntry(entries[i]) && !ClashSeen(entries[i], e)
      {
        assert !ClashSeen(all[i], all[|entries|]);
      }
      forall i, j | 0 <= i < j < |entries|
        ensures !ClashSeen(entries[i], entries[j])
      {
        assert !ClashSeen(all[i], all[j]);
      }
    }
  }

  /** The fold reports nothing on entries without such a clash, and only on those; it has
      then seen exactly the entries. */
  lemma {:induction false} SeenWhenClean(entries: seq<RawEntry>)
    ensures AllEntryErrors(entries) == [] <==> NoClashSeen(entries)
    ensures NoClashSeen(entries) ==> SeenExactly(SeenIn(entries), entries)
  {
    if entries != [] {
      var init, last := entries[..|entries| - 1], entries[|entries| - 1];
      assert entries == init + [last];
      SeenWhenClean(init);
      NoClashOneMore(init, last);
      if NoClashSeen(init) {
        EntryIsClean(SeenIn(init), init, last);
        if WellFormedEntry(last) {
          SeenOneMore(SeenIn(init), init, last);
        }
      }
    }
  }

  /** The registry adds no error exactly when every entry is well formed and no two have
      the same parameter, the same positional index or both read stdin. */
  lemma NoErrorsIffWellFormed(entries: seq<RawEntry>)
    ensures DescriptorErrors(Entries(entries)) == [] <==> WellFormed(entries)
  {
    SeenWhenClean(entries);
    ClashesSeenOrCounted(entries);
    if NoClashSeen(entries) {
      assert StdinsCounted(SeenIn(entries).stdins, entries);
    }
  }

  /** A clash is one the fold reports at once, or two stdin entries. */
  lemma ClashesSeenOrCounted(entries: seq<RawEntry>)
    ensures WellFormed(entries) <==>
            && NoClashSeen(entries)
            && forall i, j :: 0 <= i < j < |entries| ==> !(ReadsStdin(entries[i]) && ReadsStdin(entries[j]))
  {
  }

  // ---- the descriptor the worker reads -------------------------------------------------------

  datatype Entry = Entry(param: string, style: Style, flagName: Option<string>, positionIndex: Option<int>)

  function Typed(e: RawEntry): Entry
    requires WellFormedEntry(e)
  {
    Entry(e.param.s,
          e.style.style,
          if e.flagName.Str? then Some(e.flagName.s) else None,
          if e.positionIndex.Int? then Some(e.positionIndex.i) else None)
  }

  ghost predicate Registered(descriptor: seq<Entry>) {
    && (forall i :: 0 <= i < |descriptor| ==>
          && (descriptor[i].style == Flag ==> descriptor[i].flagName.Some? && IsFullFlag(descriptor[i].flagName.value))
          && (descriptor[i].style == Positional ==> descriptor[i].positionIndex.Some?))
    && (forall i, j :: 0 <= i < j < |descriptor| ==> descriptor[i].param != descriptor[j].param)
    && (forall i, j :: 0 <= i < j < |descriptor| && descriptor[i].style == descriptor[j].style == Positional ==>
          descriptor[i].positionIndex != descriptor[j].positionIndex)
    && (forall i, j :: 0 <= i < j < |descriptor| ==> !(descriptor[i].style == descriptor[j].style == Stdin))
  }

  function TypedAll(entries: seq<RawEntry>): seq<Entry>
    requires WellFormed(entries)
  {
    seq(|entries|, i requires 0 <= i < |entries| => Typed(entries[i]))
  }

  /** The worker reads of an entry what was submitted. */
  ghost predicate ReadAs(raw: RawEntry, e: Entry) {
    && raw.RawEntry? && raw.param == Str(e.param) && raw.style == Known(e.style)
    && (if raw.flagName.Str? then e.flagName == Some(raw.flagName.s) else e.flagName == None)
    && (if raw.positionIndex.Int? then e.positionIndex == Some(raw.positionIndex.i) else e.positionIndex == None)
  }

  lemma AcceptedIsRegistered(entries: seq<RawEntry>)
    requires DescriptorErrors(Entries(entries)) == []
    ensures WellFormed(entries) && Registered(TypedAll(entries)) && |TypedAll(entries)| == |entries|
    ensures forall i :: 0 <= i < |entries| ==> ReadAs(entries[i], TypedAll(entries)[i])
  {
    NoErrorsIffWellFormed(entries);
    var typed := TypedAll(entries);
    forall i, j | 0 <= i < j < |typed|
      ensures typed[i].param != typed[j].param
      ensures !(typed[i].style == typed[j].style == Stdin)
      ensures typed[i].style == typed[j].style == Positional ==> typed[i].positionIndex != typed[j].positionIndex
    {
      assert !Clash(entries[i], entries[j]);
    }
  }

  // ---- state reuse ------------------------------------------------------------------------------

  datatype CapabilityError =
    | OfDescriptor(error: DescriptorError)
    | InvalidStateReuse
    | WarmUpdateNotABoolean
    | WarmUpdateWithoutStateReuse
    | StateReuseWithoutEntries
    | StateReuseWithPositional

  /** STATE_REUSE_KINDS, or anything else. */
  datatype RawReuse = NoReuse | StateIdKeyed | OtherReuse

  datatype RawBool = Bool(b: bool) | NotABool

  predicate HasPositional(descriptor: RawDescriptor) {
    && descriptor.Entries?
    && exists i :: 0 <= i < |descriptor.entries| && descriptor.entries[i].RawEntry? &&
                   descriptor.entries[i].style == Known(Positional)
  }

  /** The part of validateCapability that concerns heavy bindings and state reuse. */
  method ValidateCapability(descriptor: RawDescriptor, stateReuse: RawReuse, additiveWarmUpdate: RawBool)
    returns (errors: seq<CapabilityError>)
    ensures errors == [] <==>
            && descriptor.Entries? && WellFormed(descriptor.entries)
            && stateReuse != OtherReuse
            && additiveWarmUpdate.Bool? && (additiveWarmUpdate.b ==> stateReuse == StateIdKeyed)
            && (stateReuse == StateIdKeyed ==>
                  descriptor.entries != [] &&
                  forall i :: 0 <= i < |descriptor.entries| ==> descriptor.entries[i].style != Known(Positional))
  {
    var descriptorErrors := ValidateInvocationDescriptor(descriptor, []);
    if descriptor.Entries? {
      NoErrorsIffWellFormed(descriptor.entries);
    }
    errors := seq(|descriptorErrors|, i requires 0 <= i < |descriptorErrors| => OfDescriptor(descriptorErrors[i]));
    if stateReuse == OtherReuse {
      errors := errors + [InvalidStateReuse];
    }
    if additiveWarmUpdate.NotABool? {
      errors := errors + [WarmUpdateNotABoolean];
    } else if additiveWarmUpdate.b && stateReuse != StateIdKeyed {
      errors := errors + [WarmUpdateWithoutStateReuse];
    }
    if stateReuse == StateIdKeyed && descriptor == Entries([]) {
      errors := errors + [StateReuseWithoutEntries];
    }
    if stateReuse == StateIdKeyed && HasPositional(descriptor) {
      errors := errors + [StateReuseWithPositional];
    }
  }
}
