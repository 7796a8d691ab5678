/** The overwritten value of `persistence/src/snapshot.rs`: write a temporary file, sync it, rename it into place,
    with crashes and I/O errors between and inside the steps. What a crash leaves of unsynced bytes is arbitrary.
    The directory is never synced, so a crash may also bring back any earlier entry. */
module Snapshot {
  import opened Prelude
  import opened Cursor

  datatype File = File(bytes: seq<byte>, synced: bool)

  datatype Stage<T> =
    | Idle
    | Writing(value: T)
    | Synced(value: T)
    | Renamed(value: T)

  /** The last acknowledged value, the values begun since, all values ever begun and the entries replaced so far are
      history, which no operation looks at. */
  datatype Store<T> = Store(path: Option<File>, tmp: Option<File>, stage: Stage<T>, acknowledged: Option<T>,
                            begun: seq<T>, ever: seq<T>, past: seq<Option<File>>)

  datatype Event<T> =
    | Create(value: T)
    | WriteUpTo(count: nat)
    | Sync
    | Rename
    | Return
    | Fail
    | Crash(tmpLeft: Option<File>, pathLeft: seq<byte>, back: Option<nat>)

  function EMPTY<T>(): Store<T> { Store(None, None, Idle, None, [], [], []) }

  function AfterCrash(file: Option<File>, left: seq<byte>): Option<File> {
    match file
    case None => None
    case Some(f) => Some(if f.synced then f else File(left, true))
  }

  function Next<T>(c: Codec<T>, s: Store<T>, e: Event<T>): Store<T> {
    match e
    case Create(v) =>
      if s.stage.Idle? then
        s.(tmp := Some(File([], false)), stage := Writing(v), begun := s.begun + [v], ever := s.ever + [v])
      else s
    case WriteUpTo(n) =>
      if s.stage.Writing? then
        var json := c.encode(s.stage.value);
        s.(tmp := Some(File(json[..if n <= |json| then n else |json|], false)))
      else s
    case Sync =>
      // Reached only once every byte has been handed over.
      if s.stage.Writing? && s.tmp.Some? && s.tmp.value.bytes == c.encode(s.stage.value) then
        s.(tmp := Some(s.tmp.value.(synced := true)), stage := Synced(s.stage.value))
      else s
    case Rename =>
      if s.stage.Synced? then
        s.(path := s.tmp, tmp := None, stage := Renamed(s.stage.value), past := s.past + [s.path])
      else s
    case Return =>
      if s.stage.Renamed? then s.(stage := Idle, acknowledged := Some(s.stage.value), begun := []) else s
    case Fail => s.(stage := Idle)
    case Crash(tmpLeft, pathLeft, back) =>
      var entry := if back.Some? && back.value < |s.past| then s.past[back.value] else s.path;
      s.(path := AfterCrash(entry, pathLeft), tmp := tmpLeft, stage := Idle)
  }

  function Run<T>(c: Codec<T>, s: Store<T>, events: seq<Event<T>>): Store<T>
    decreases |events|
  {
    if events == [] then s else Run(c, Next(c, s, events[0]), events[1..])
  }

  function TrimStart(s: seq<byte>): seq<byte> {
    if s != [] && IsBlank(s[0]) then TrimStart(s[1..]) else s
  }

  /** A missing or blank file holds no value; anything else must parse. */
  function Value<T>(c: Codec<T>, file: Option<File>): Result<Option<T>, ParseError> {
    match file
    case None => Ok(None)
    case Some(f) =>
      var text := TrimStart(TrimEnd(f.bytes));
      if text == [] then Ok(None)
      else match c.decode(text) case None => Err(ParseError) case Some(v) => Ok(Some(v))
  }

  // ---------- What survives ----------

  /** Serialized values neither start nor end in white space and read back. */
  ghost predicate Compact<T(!new)>(c: Codec<T>) {
    OneLiner(c) && forall v :: c.encode(v) != [] && !IsBlank(c.encode(v)[0])
  }

  /** Nothing there, or a synced file holding one of the values whole. */
  ghost predicate Holds<T(!new)>(c: Codec<T>, file: Option<File>, values: seq<T>) {
    file.Some? ==> file.value.synced && exists v :: v in values && file.value.bytes == c.encode(v)
  }

  ghost predicate AllHold<T(!new)>(c: Codec<T>, files: seq<Option<File>>, values: seq<T>) {
    forall i :: 0 <= i < |files| ==> Holds(c, files[i], values)
  }

  predicate InHand<T(==)>(c: Codec<T>, s: Store<T>) {
    && (!s.stage.Idle? ==> s.stage.value in s.begun && s.stage.value in s.ever)
    && (s.stage.Synced? ==> s.tmp == Some(File(c.encode(s.stage.value), true)))
    && (s.stage.Renamed? ==> s.path == Some(File(c.encode(s.stage.value), true)))
  }

  /** Whatever entry a crash may bring back, the file behind it is whole. */
  ghost predicate Whole<T(!new)>(c: Codec<T>, s: Store<T>) {
    InHand(c, s) && Holds(c, s.path, s.ever) && AllHold(c, s.past, s.ever)
  }

  function Latest<T>(s: Store<T>): seq<T> {
    (if s.acknowledged.Some? then [s.acknowledged.value] else []) + s.begun
  }

  /** Besides, the entry in place is the acknowledged value's or that of a write begun since. */
  ghost predicate Current<T(!new)>(c: Codec<T>, s: Store<T>) {
    InHand(c, s) && Holds(c, s.path, Latest(s)) && (s.path.None? ==> s.acknowledged.None?)
  }

  lemma HoldsMore<T(!new)>(c: Codec<T>, file: Option<File>, values: seq<T>, more: seq<T>)
    requires Holds(c, file, values) && forall v :: v in values ==> v in more
    ensures Holds(c, file, more)
  {
  }

  lemma WholeStep<T(!new)>(c: Codec<T>, s: Store<T>, e: Event<T>)
    requires Whole(c, s)
    ensures Whole(c, Next(c, s, e))
  {
    var t := Next(c, s, e);
    hide Holds;
    HoldsMore(c, s.path, s.ever, t.ever);
    forall i | 0 <= i < |s.past|
      ensures Holds(c, s.past[i], t.ever)
    {
      HoldsMore(c, s.past[i], s.ever, t.ever);
    }
    match e {
      case Create(v) =>
        if s.stage.Idle? {
          assert t.begun[|s.begun|] == v && t.ever[|s.ever|] == v;
        }
      case Rename =>
        if s.stage.Synced? {
          HoldsItself(c, s.stage.value, t.ever);
        }
      case Crash(_, left, back) =>
        var entry := if back.Some? && back.value < |s.past| then s.past[back.value] else s.path;
        HoldsSynced(c, entry, s.ever, left);
      case _ =>
    }
  }

  lemma HoldsItself<T(!new)>(c: Codec<T>, v: T, values: seq<T>)
    requires v in values
    ensures Holds(c, Some(File(c.encode(v), true)), values)
  {
  }

  lemma HoldsSynced<T(!new)>(c: Codec<T>, file: Option<File>, values: seq<T>, left: seq<byte>)
    requires Holds(c, file, values)
    ensures AfterCrash(file, left) == file
  {
  }

  lemma {:induction false} WholeRun<T(!new)>(c: Codec<T>, s: Store<T>, events: seq<Event<T>>)
    requires Whole(c, s)
    ensures Whole(c, Run(c, s, events))
    decreases |events|
  {
    if events != [] {
      hide Next, Whole;
      WholeStep(c, s, events[0]);
      WholeRun(c, Next(c, s, events[0]), events[1..]);
    }
  }

  /** The event brings no earlier directory entry back. */
  predicate EntryKept<T>(e: Event<T>) {
    e.Crash? ==> e.back == None
  }

  lemma CurrentStep<T(!new)>(c: Codec<T>, s: Store<T>, e: Event<T>)
    requires Current(c, s) && EntryKept(e)
    ensures Current(c, Next(c, s, e))
  {
    var t := Next(c, s, e);
    hide Holds;
    match e {
      case Create(v) =>
        if s.stage.Idle? {
          assert t.begun[|s.begun|] == v && t.ever[|s.ever|] == v;
          HoldsMore(c, s.path, Latest(s), Latest(t));
        }
      case Rename =>
        if s.stage.Synced? {
          HoldsItself(c, s.stage.value, Latest(t));
        }
      case Return =>
        if s.stage.Renamed? {
          assert Latest(t)[0] == s.stage.value;
          HoldsItself(c, s.stage.value, Latest(t));
        }
      case Crash(_, left, _) => HoldsSynced(c, s.path, Latest(s), left);
      case _ =>
    }
  }

  lemma {:induction false} CurrentRun<T(!new)>(c: Codec<T>, s: Store<T>, events: seq<Event<T>>)
    requires Current(c, s) && forall i :: 0 <= i < |events| ==> EntryKept(events[i])
    ensures Current(c, Run(c, s, events))
    decreases |events|
  {
    if events != [] {
      hide Next, Current, EntryKept;
      CurrentStep(c, s, events[0]);
      CurrentRun(c, Next(c, s, events[0]), events[1..]);
    }
  }

  lemma ValueOfEncoded<T(!new)>(c: Codec<T>, v: T, synced: bool)
    requires Compact(c)
    ensures Value(c, Some(File(c.encode(v), synced))) == Ok(Some(v))
  {
    assert c.encode(v) != [] && !IsBlank(c.encode(v)[0]) && c.decode(c.encode(v)) == Some(v);
    TrimLine(c.encode(v));
  }

  lemma ValueHeld<T(!new)>(c: Codec<T>, file: Option<File>, values: seq<T>)
    requires Compact(c) && Holds(c, file, values)
    ensures match Value(c, file)
            case Err(_) => false
            case Ok(None) => file == None
            case Ok(Some(v)) => v in values
  {
    if file.Some? {
      var v :| v in values && file.value.bytes == c.encode(v);
      hide Compact;
      ValueOfEncoded(c, v, file.value.synced);
    }
  }

  /** After any sequence of writes, errors and crashes, whatever the directory has lost, a read succeeds: it finds
      nothing, or one of the values a write was begun with, whole. */
  lemma ReadIsNeverTorn<T(!new)>(c: Codec<T>, events: seq<Event<T>>)
    requires Compact(c)
    ensures var s := Run(c, EMPTY(), events);
            match Value(c, s.path)
            case Err(_) => false
            case Ok(None) => true
            case Ok(Some(v)) => v in s.ever
  {
    assert Whole(c, EMPTY<T>());
    WholeRun(c, EMPTY(), events);
    hide Run, Compact, Value;
    ValueHeld(c, Run(c, EMPTY(), events).path, Run(c, EMPTY(), events).ever);
  }

  /** If no crash undoes a rename, the value read is the last acknowledged one or one of the interrupted writes after
      it, and there is none only if no write was ever acknowledged. */
  lemma ReadIsLatest<T(!new)>(c: Codec<T>, events: seq<Event<T>>)
    requires Compact(c) && forall i :: 0 <= i < |events| ==> EntryKept(events[i])
    ensures var s := Run(c, EMPTY(), events);
            match Value(c, s.path)
            case Err(_) => false
            case Ok(None) => s.acknowledged == None
            case Ok(Some(v)) => s.acknowledged == Some(v) || v in s.begun
  {
    assert Current(c, EMPTY<T>());
    CurrentRun(c, EMPTY(), events);
    hide Run, Compact, Value;
    ValueHeld(c, Run(c, EMPTY(), events).path, Latest(Run(c, EMPTY(), events)));
  }

  // ---------- One write ----------

  /** The steps of a write whose first bytes go out in one piece and the others in a second. */
  function Steps<T>(c: Codec<T>, v: T, piece: nat): seq<Event<T>> {
    [Create(v), WriteUpTo(piece), WriteUpTo(|c.encode(v)|), Sync, Rename, Return]
  }

  lemma {:induction false} RunThen<T>(c: Codec<T>, s: Store<T>, events: seq<Event<T>>, e: Event<T>)
    ensures Run(c, s, events + [e]) == Next(c, Run(c, s, events), e)
    decreases |events|
  {
    hide Next;
    if events == [] {
      assert Run(c, s, [e]) == Run(c, Next(c, s, e), [e][1..]);
    } else {
      assert (events + [e])[0] == events[0] && (events + [e])[1..] == events[1..] + [e];
      RunThen(c, Next(c, s, events[0]), events[1..], e);
    }
  }

  /** Where a write stands after so many of its steps. */
  function Midway<T>(c: Codec<T>, s: Store<T>, v: T, piece: nat, steps: nat): Store<T> {
    var json, begun, ever := c.encode(v), s.begun + [v], s.ever + [v];
    match steps
    case 0 => s
    case 1 => Store(s.path, Some(File([], false)), Writing(v), s.acknowledged, begun, ever, s.past)
    case 2 =>
      var first := json[..if piece <= |json| then piece else |json|];
      Store(s.path, Some(File(first, false)), Writing(v), s.acknowledged, begun, ever, s.past)
    case 3 => Store(s.path, Some(File(json, false)), Writing(v), s.acknowledged, begun, ever, s.past)
    case 4 => Store(s.path, Some(File(json, true)), Synced(v), s.acknowledged, begun, ever, s.past)
    case 5 => Store(Some(File(json, true)), None, Renamed(v), s.acknowledged, begun, ever, s.past + [s.path])
    case _ => Store(Some(File(json, true)), None, Idle, Some(v), [], ever, s.past + [s.path])
  }

  lemma {:induction false} MidwayIsRun<T>(c: Codec<T>, s: Store<T>, v: T, piece: nat, steps: nat)
    requires s.stage.Idle? && steps <= 6
    ensures Run(c, s, Steps(c, v, piece)[..steps]) == Midway(c, s, v, piece, steps)
  {
    if steps > 0 {
      var all, json := Steps(c, v, piece), c.encode(v);
      MidwayIsRun(c, s, v, piece, steps - 1);
      assert all[..steps] == all[..steps - 1] + [all[steps - 1]];
      hide Run;
      RunThen(c, s, all[..steps - 1], all[steps - 1]);
      assert json[..|json|] == json;
    }
  }

  /** Left undisturbed, a write is what the next read returns, whatever an earlier crash left behind. */
  lemma ReadAfterWrite<T(!new)>(c: Codec<T>, s: Store<T>, v: T, piece: nat)
    requires Compact(c) && s.stage.Idle?
    ensures Value(c, Run(c, s, Steps(c, v, piece)).path) == Ok(Some(v))
    ensures Run(c, s, Steps(c, v, piece)).acknowledged == Some(v)
  {
    assert Steps(c, v, piece)[..6] == Steps(c, v, piece);
    MidwayIsRun(c, s, v, piece, 6);
    ValueOfEncoded(c, v, true);
  }

  /** The directory not being synced, a value acknowledged to the caller can still be lost to a crash. */
  lemma AcknowledgedCanBeLost<T(!new)>(c: Codec<T>, v: T)
    ensures var s := Run(c, EMPTY(), Steps(c, v, 0) + [Crash(None, [], Some(0))]);
            s.acknowledged == Some(v) && Value(c, s.path) == Ok(None)
  {
    assert Steps(c, v, 0)[..6] == Steps(c, v, 0);
    MidwayIsRun(c, EMPTY(), v, 0, 6);
    hide Run;
    RunThen(c, EMPTY(), Steps(c, v, 0), Crash(None, [], Some(0)));
  }

  /** A crash right after an acknowledged write keeps the value exactly if it brings no earlier entry back, or one
      that holds the same value. */
  lemma CrashKeepsIff<T(!new)>(c: Codec<T>, s: Store<T>, v: T, tmpLeft: Option<File>, pathLeft: seq<byte>,
                               back: Option<nat>)
    requires Compact(c) && Whole(c, s) && s.stage.Idle?
    ensures Value(c, Run(c, s, Steps(c, v, 0) + [Crash(tmpLeft, pathLeft, back)]).path) == Ok(Some(v)) <==>
            back.None? || back.value > |s.past| || Value(c, (s.past + [s.path])[back.value]) == Ok(Some(v))
  {
    assert Steps(c, v, 0)[..6] == Steps(c, v, 0);
    MidwayIsRun(c, s, v, 0, 6);
    ValueOfEncoded(c, v, true);
    var entries := s.past + [s.path];
    if back.Some? && back.value <= |s.past| {
      assert Holds(c, entries[back.value], s.ever);
      HoldsSynced(c, entries[back.value], s.ever, pathLeft);
    }
    hide Run, Compact, Whole, Holds, Value, Midway;
    RunThen(c, s, Steps(c, v, 0), Crash(tmpLeft, pathLeft, back));
  }

  class SnapshotFile<T> {
    const codec: Codec<T>
    var path: Option<File>
    var tmp: Option<File>
    ghost var acknowledged: Option<T>
    ghost var begun: seq<T>
    ghost var ever: seq<T>
    ghost var past: seq<Option<File>>

    constructor (codec: Codec<T>)
      ensures this.codec == codec && View() == EMPTY()
    {
      this.codec := codec;
      path, tmp, acknowledged, begun, ever, past := None, None, None, [], [], [];
    }

    /** Between writes nothing is under way. */
    ghost function View(): Store<T>
      reads this
    {
      Store(path, tmp, Idle, acknowledged, begun, ever, past)
    }

    method Read() returns (r: Result<Option<T>, ParseError>)
      ensures r == Value(codec, path)
    {
      if path == None {
        return Ok(None);
      }
      var text := TrimStart(TrimEnd(path.value.bytes));
      if text == [] {
        return Ok(None);
      }
      var v := codec.decode(text);
      r := if v == None then Err(ParseError) else Ok(Some(v.value));
    }

    /** Step number failAt fails, creation being step 0; from five on none does. */
    method Write(v: T, piece: nat, failAt: nat) returns (ok: bool)
      modifies this
      ensures ok == (failAt >= 5)
      ensures View() == Run(codec, old(View()), if ok then Steps(codec, v, piece)
                                                else Steps(codec, v, piece)[..failAt] + [Fail])
    {
      ghost var start := View();
      ghost var steps := if failAt < 5 then failAt else 6;
      MidwayIsRun(codec, start, v, piece, steps);
      RunThen(codec, start, Steps(codec, v, piece)[..steps], Fail);
      assert Steps(codec, v, piece)[..6] == Steps(codec, v, piece);
      hide Run;
      var json := codec.encode(v);
      if failAt == 0 { return false; }
      tmp, begun, ever := Some(File([], false)), begun + [v], ever + [v];
      if failAt == 1 { return false; }
      tmp := Some(File(json[..if piece <= |json| then piece else |json|], false));
      if failAt == 2 { return false; }
      tmp := Some(File(json, false));
      if failAt == 3 { return false; }
      tmp := Some(File(json, true));
      if failAt == 4 { return false; }
      path, tmp, past := tmp, None, past + [path];
      acknowledged, begun := Some(v), [];
      return true;
    }
  }
}
