/**
  The rewindable session log (src/session/session-log.ts and the queries of
  session_log and session_pointer): rows past the pointer are deleted lazily, by the next
  append. What a session replays is a plain list, appended to and truncated.
 */
module SessionLog {
  import opened Wrappers
  import opened Ordering

  type SessionId = string

  type Input = string

  datatype SessionError = RewindTargetOutOfRange(target: int, current: int) | UniqueViolation

  /** session_log by its unique key, and session_pointer. */
  datatype Tables = Tables(log: map<(SessionId, int), Input>, pointers: map<SessionId, int>)

  function Pointer(t: Tables, s: SessionId): int {
    if s in t.pointers then t.pointers[s] else 0
  }

  /** INSERT ... ON CONFLICT DO UPDATE: the pointer row exists afterwards. */
  function Locked(t: Tables, s: SessionId): Tables {
    t.(pointers := t.pointers[s := Pointer(t, s)])
  }

  function Kept(t: Tables, s: SessionId, after: int): map<(SessionId, int), Input> {
    map k | k in t.log && !(k.0 == s && k.1 > after) :: t.log[k]
  }

  function Appended(t: Tables, s: SessionId, input: Input): Tables {
    var p := Pointer(t, s);
    Tables(Kept(t, s, p)[(s, p + 1) := input], t.pointers[s := p + 1])
  }

  function Rewound(t: Tables, s: SessionId, target: int): Tables {
    t.(pointers := t.pointers[s := target])
  }

  function SequencesUpTo(log: map<(SessionId, int), Input>, s: SessionId, last: int): (r: set<int>)
    ensures forall n :: n in r <==> (s, n) in log && n <= last
  {
    set k | k in log && k.0 == s && k.1 <= last :: k.1
  }

  // ---- the operations ---------------------------------------------------------------------

  class SessionStore {
    var log: map<(SessionId, int), Input>
    var pointers: map<SessionId, int>

    ghost function Contents(): Tables
      reads this
    {
      Tables(log, pointers)
    }

    constructor ()
      ensures Contents() == Tables(map[], map[])
    {
      log, pointers := map[], map[];
    }

    method Lock(s: SessionId) returns (current: int)
      modifies this`pointers
      ensures Contents() == Locked(old(Contents()), s)
      ensures current == Pointer(old(Contents()), s)
    {
      current := if s in pointers then pointers[s] else 0;
      pointers := pointers[s := current];
    }

    method DeleteAfter(s: SessionId, after: int)
      modifies this`log
      ensures log == Kept(old(Contents()), s, after)
    {
      log := map k | k in log && !(k.0 == s && k.1 > after) :: log[k];
    }

    method Insert(s: SessionId, sequence: int, input: Input) returns (r: Result<(), SessionError>)
      modifies this`log
      ensures r.Failure? <==> (s, sequence) in old(log)
      ensures log == if r.Success? then old(log)[(s, sequence) := input] else old(log)
    {
      if (s, sequence) in log {
        return Failure(UniqueViolation);
      }
      log := log[(s, sequence) := input];
      return Success(());
    }

    /** appendEntry. The insert cannot conflict: whatever was past the pointer has just
        been deleted. */
    method AppendEntry(s: SessionId, input: Input) returns (sequence: int)
      requires Inv(Contents())
      modifies this
      ensures Inv(Contents())
      ensures Contents() == Appended(old(Contents()), s, input)
      ensures sequence == |Live(Contents(), s)|
      ensures Live(Contents(), s) == old(Live(Contents(), s)) + [input]
      ensures forall o :: o != s ==> Live(Contents(), o) == old(Live(Contents(), o))
    {
      ghost var start := Contents();
      var current := Lock(s);
      DeleteAfter(s, current);
      sequence := current + 1;
      var inserted := Insert(s, sequence, input);
      assert inserted.Success?;
      pointers := pointers[s := sequence];
      assert Contents() == Appended(start, s, input);
      AppendIsListAppend(start, s, input);
      LivePointer(Contents(), s);
      forall o | o != s
        ensures Live(Contents(), o) == Live(start, o)
      {
        AppendLeavesOthers(start, s, input, o);
      }
    }

    /** rewindSession. A target out of range throws, and the transaction rolls back. */
    method RewindSession(s: SessionId, target: int) returns (r: Result<int, SessionError>)
      requires Inv(Contents())
      modifies this`pointers
      ensures Inv(Contents())
      ensures r.Success? <==> 0 <= target <= old(|Live(Contents(), s)|)
      ensures r.Failure? ==> Contents() == old(Contents()) &&
                             r.error == RewindTargetOutOfRange(target, old(|Live(Contents(), s)|))
      ensures r.Success? ==> r.value == target && Contents() == Rewound(old(Contents()), s, target)
                             && Live(Contents(), s) == old(Live(Contents(), s))[..target]
      ensures forall o :: o != s ==> Live(Contents(), o) == old(Live(Contents(), o))
    {
      ghost var start := Contents();
      var saved := pointers;
      var current := Lock(s);
      LivePointer(start, s);
      if target < 0 || target > current {
        pointers := saved;
        return Failure(RewindTargetOutOfRange(target, current));
      }
      if target != current {
        pointers := pointers[s := target];
      }
      assert Contents() == Rewound(start, s, target);
      RewindIsTruncation(start, s, target);
      return Success(target);
    }

    /** replaySession: the rows up to the pointer, in ascending order of sequence. */
    method ReplaySession(s: SessionId) returns (entries: seq<Input>)
      requires Inv(Contents())
      ensures entries == Live(Contents(), s)
    {
      if s !in pointers {
        return [];
      }
      var sequences := Sorted(SequencesUpTo(log, s, pointers[s]));
      LiveSequences(Contents(), s);
      LivePointer(Contents(), s);
      forall i: nat | i < |sequences|
        ensures (s, sequences[i]) in log && log[(s, sequences[i])] == Live(Contents(), s)[i]
      {
        LiveRow(Contents(), s, i);
      }
      entries := ReadRows(s, sequences);
    }

    method ReadRows(s: SessionId, sequences: seq<int>) returns (entries: seq<Input>)
      requires forall j :: 0 <= j < |sequences| ==> (s, sequences[j]) in log
      ensures |entries| == |sequences|
      ensures forall j :: 0 <= j < |sequences| ==> entries[j] == log[(s, sequences[j])]
    {
      entries := [];
      for i := 0 to |sequences|
        invariant |entries| == i && forall j :: 0 <= j < i ==> entries[j] == log[(s, sequences[j])]
      {
        entries := entries + [log[(s, sequences[i])]];
      }
    }
  }

  // ---- what is stored, and what it stands for ------------------------------------------------

  /** The rows of a session are numbered from 1 to `top`. */
  ghost predicate Contiguous(t: Tables, s: SessionId, top: nat) {
    forall n :: (s, n) in t.log <==> 1 <= n <= top
  }

  ghost predicate SessionInv(t: Tables, s: SessionId) {
    exists top: nat :: Contiguous(t, s, top) && 0 <= Pointer(t, s) <= top
  }

  ghost predicate Inv(t: Tables) {
    forall s :: SessionInv(t, s)
  }

  ghost function Live(t: Tables, s: SessionId): seq<Input>
    requires Inv(t)
  {
    assert SessionInv(t, s);
    seq(Pointer(t, s), i requires 0 <= i < Pointer(t, s) => t.log[(s, i + 1)])
  }

  lemma LivePointer(t: Tables, s: SessionId)
    requires Inv(t)
    ensures |Live(t, s)| == Pointer(t, s)
  {
    assert SessionInv(t, s);
  }

  lemma AppendKeepsInv(t: Tables, s: SessionId, input: Input)
    requires Inv(t)
    ensures Inv(Appended(t, s, input))
  {
    var u := Appended(t, s, input);
    forall o
      ensures SessionInv(u, o)
    {
      assert SessionInv(t, o);
      var top: nat :| Contiguous(t, o, top) && 0 <= Pointer(t, o) <= top;
      if o == s {
        assert Contiguous(u, s, Pointer(t, s) + 1);
      } else {
        assert Contiguous(u, o, top);
      }
    }
  }

  /** Append is list append, whatever abandoned rows were still stored. */
  lemma AppendIsListAppend(t: Tables, s: SessionId, input: Input)
    requires Inv(t)
    ensures Inv(Appended(t, s, input)) && Live(Appended(t, s, input), s) == Live(t, s) + [input]
  {
    AppendKeepsInv(t, s, input);
    assert SessionInv(t, s);
  }

  lemma AppendLeavesOthers(t: Tables, s: SessionId, input: Input, o: SessionId)
    requires Inv(t) && o != s
    ensures Inv(Appended(t, s, input)) && Live(Appended(t, s, input), o) == Live(t, o)
  {
    AppendKeepsInv(t, s, input);
    assert SessionInv(t, o);
  }

  /** Rewind is truncation, and other sessions do not notice. */
  lemma RewindIsTruncation(t: Tables, s: SessionId, target: int)
    requires Inv(t) && 0 <= target <= Pointer(t, s)
    ensures var u := Rewound(t, s, target);
            && Inv(u) && Live(u, s) == Live(t, s)[..target]
            && forall o :: o != s ==> Live(u, o) == Live(t, o)
  {
    var u := Rewound(t, s, target);
    forall o
      ensures SessionInv(u, o)
    {
      assert SessionInv(t, o);
      var top: nat :| Contiguous(t, o, top) && 0 <= Pointer(t, o) <= top;
      assert Contiguous(u, o, top);
    }
  }

  lemma {:induction false} AscendingIsRange(r: seq<int>, n: nat)
    requires forall k :: k in r <==> 1 <= k <= n
    requires forall i, j :: 0 <= i < j < |r| ==> r[i] < r[j]
    ensures |r| == n && forall i :: 0 <= i < n ==> r[i] == i + 1
  {
    if n == 0 {
      assert forall i :: 0 <= i < |r| ==> r[i] in r;
      assert |r| == 0;
    } else {
      assert n in r;
      var i :| 0 <= i < |r| && r[i] == n;
      forall j | 0 <= j < |r|
        ensures r[j] <= n
      {
        assert r[j] in r;
      }
      assert i == |r| - 1 by {
        assert r[|r| - 1] <= n;
      }
      var init := r[..i];
      forall k | 1 <= k < n
        ensures k in init
      {
        assert k in r;
        var j :| 0 <= j < |r| && r[j] == k;
        assert init[j] == k;
      }
      forall k | k in init
        ensures 1 <= k <= n - 1
      {
        var j :| 0 <= j < |init| && init[j] == k;
        assert r[j] in r && r[j] < r[i];
      }
      AscendingIsRange(init, n - 1);
    }
  }

  /** The sequences a replay reads are 1, 2, ... up to the pointer. */
  lemma LiveSequences(t: Tables, s: SessionId)
    requires Inv(t)
    ensures var r := Sorted(SequencesUpTo(t.log, s, Pointer(t, s)));
            |r| == Pointer(t, s) && forall i :: 0 <= i < |r| ==> r[i] == i + 1
  {
    assert SessionInv(t, s);
    AscendingIsRange(Sorted(SequencesUpTo(t.log, s, Pointer(t, s))), Pointer(t, s));
  }

  lemma LiveRow(t: Tables, s: SessionId, i: nat)
    requires Inv(t) && i < Pointer(t, s)
    ensures (s, i + 1) in t.log && |Live(t, s)| == Pointer(t, s) && Live(t, s)[i] == t.log[(s, i + 1)]
  {
    assert SessionInv(t, s);
  }

  // ---- whole histories ---------------------------------------------------------------------------

  /** A transaction on one session; one that aborts, for whatever reason, leaves nothing. */
  datatype Event = Append(s: SessionId, input: Input) | Rewind(s: SessionId, target: int) | Aborted

  function Apply(t: Tables, ev: Event): Tables {
    match ev
    case Append(s, input) => Appended(t, s, input)
    case Rewind(s, target) => if 0 <= target <= Pointer(t, s) then Rewound(t, s, target) else t
    case Aborted => t
  }

  ghost predicate IsHistory(states: seq<Tables>, events: seq<Event>) {
    && |states| == |events| + 1 && states[0] == Tables(map[], map[])
    && forall i {:trigger events[i]} :: 0 <= i < |events| ==> states[i + 1] == Apply(states[i], events[i])
  }

  /** The list a session stands for after these events. */
  function Replay(events: seq<Event>, s: SessionId): seq<Input> {
    if events == [] then []
    else
      var before := Replay(events[..|events| - 1], s);
      match events[|events| - 1]
      case Append(o, input) => if o == s then before + [input] else before
      case Rewind(o, target) => if o == s && 0 <= target <= |before| then before[..target] else before
      case Aborted => before
  }

  /** After any appends, rewinds and aborts over any sessions, the rows of every session
      are contiguous from 1 with the pointer inside them, and what it replays is its list. */
  lemma {:induction false} LogRefinesList(states: seq<Tables>, events: seq<Event>, i: nat, s: SessionId)
    requires IsHistory(states, events) && i < |states|
    ensures Inv(states[i]) && Live(states[i], s) == Replay(events[..i], s)
  {
    if i == 0 {
      forall o
        ensures SessionInv(states[0], o)
      {
        assert Contiguous(states[0], o, 0);
      }
    } else {
      var t, ev := states[i - 1], events[i - 1];
      LogRefinesList(states, events, i - 1, s);
      assert events[..i][..i - 1] == events[..i - 1];
      match ev
      case Append(o, input) =>
        if o == s {
          AppendIsListAppend(t, s, input);
        } else {
          AppendLeavesOthers(t, o, input, s);
        }
      case Rewind(o, target) =>
        LogRefinesList(states, events, i - 1, o);
        LivePointer(t, o);
        if 0 <= target <= Pointer(t, o) {
          RewindIsTruncation(t, o, target);
        }
      case Aborted =>
    }
  }
}
