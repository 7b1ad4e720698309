/**
 * js/engine.js: how a reply of the story model is applied to the game state.
 *
 * Each step is given twice: as a pure function on a `Snapshot` (what the step
 * does, and what the lemmas below are about) and as a method that updates the
 * one `GameState` object in place, in the order js/engine.js runs it.
 */
module Engine {
  import opened Wrappers
  import opened JsString
  import opened Js
  import opened Store

  /** The input that starts a new game; it is never logged as player text. */
  const StartMarker: string := "__START__"
  /** `memory.summary` keeps only this many trailing characters. */
  const SummaryLimit: int := 400
  /** Per-turn stat deltas are clamped to [-DeltaLimit, DeltaLimit]. */
  const DeltaLimit: int := 3

  // ---------------------------------------------------------------- stats

  /** `clamp(n, min, max)`: `Number(n)`, NaN as 0, then `Math.max(min, Math.min(max, n))`. */
  function Clamp(n: Value, min: int, max: int): (r: int)
    ensures ToNumber(n).NaN? ==> r == 0
    ensures ToNumber(n).Int? && min <= max ==> min <= r <= max
    ensures ToNumber(n).Int? && min <= ToNumber(n).i <= max ==> r == ToNumber(n).i
    ensures ToNumber(n).Int? && ToNumber(n).i > max && min <= max ==> r == max
    ensures ToNumber(n).Int? && ToNumber(n).i < min ==> r == min
  {
    match ToNumber(n)
    case NaN => 0
    case Int(x) =>
      var upper := if x < max then x else max;
      if min > upper then min else upper
  }

  /** `d?.stats || {}` */
  function DeltaStats(ai: Value): (r: Value)
    ensures !Truthy(Get(Get(ai, "delta"), "stats")) ==> r == Obj(map[])
    ensures Truthy(r)
  {
    Or(Get(Get(ai, "delta"), "stats"), Obj(map[]))
  }

  /** `clamp(s[key] ?? 0, -3, 3)` */
  function StatChange(s: Value, key: string): (r: int)
    ensures -DeltaLimit <= r <= DeltaLimit
    ensures IsNullish(Get(s, key)) ==> r == 0
  {
    Clamp(Coalesce(Get(s, key), Num(0)), -DeltaLimit, DeltaLimit)
  }

  /** The three `state.stats.* +=` lines of `applyDelta`. */
  function AddStats(stats: Stats, ai: Value): (r: Stats)
    // no total is clamped: each stat moves by the clamped delta and no more
    ensures r.sanity - stats.sanity == StatChange(DeltaStats(ai), "sanity")
    ensures r.stamina - stats.stamina == StatChange(DeltaStats(ai), "stamina")
    ensures r.luck - stats.luck == StatChange(DeltaStats(ai), "luck")
  {
    var s := DeltaStats(ai);
    Stats(stats.sanity + StatChange(s, "sanity"),
          stats.stamina + StatChange(s, "stamina"),
          stats.luck + StatChange(s, "luck"))
  }

  /** `d` cut to [-DeltaLimit, DeltaLimit]. */
  function CutToLimit(d: int): int {
    if d > DeltaLimit then DeltaLimit else if d < -DeltaLimit then -DeltaLimit else d
  }

  /** A stat whose delta is an integer moves by that integer cut to [-3, 3]; a
      missing delta leaves it as it was; nothing else moves it by more than 3. */
  lemma StatDeltaBounds(stats: Stats, ai: Value, d: int)
    ensures -DeltaLimit <= AddStats(stats, ai).sanity - stats.sanity <= DeltaLimit
    ensures -DeltaLimit <= AddStats(stats, ai).stamina - stats.stamina <= DeltaLimit
    ensures -DeltaLimit <= AddStats(stats, ai).luck - stats.luck <= DeltaLimit
    ensures Get(DeltaStats(ai), "sanity") == Num(d) ==> AddStats(stats, ai).sanity == stats.sanity + CutToLimit(d)
    ensures Get(DeltaStats(ai), "stamina") == Num(d) ==> AddStats(stats, ai).stamina == stats.stamina + CutToLimit(d)
    ensures Get(DeltaStats(ai), "luck") == Num(d) ==> AddStats(stats, ai).luck == stats.luck + CutToLimit(d)
    ensures IsNullish(Get(DeltaStats(ai), "sanity")) ==> AddStats(stats, ai).sanity == stats.sanity
    ensures IsNullish(Get(DeltaStats(ai), "stamina")) ==> AddStats(stats, ai).stamina == stats.stamina
    ensures IsNullish(Get(DeltaStats(ai), "luck")) ==> AddStats(stats, ai).luck == stats.luck
  {
  }

  // ---------------------------------------------------------------- flags

  /** `Array.isArray(v) ? v : []` */
  function FlagList(v: Value): (r: seq<Value>)
    ensures !v.Arr? ==> r == []
  {
    if v.Arr? then v.items else []
  }

  function AddList(ai: Value): seq<Value> {
    FlagList(Get(Get(ai, "delta"), "flags_add"))
  }

  function RemoveList(ai: Value): seq<Value> {
    FlagList(Get(Get(ai, "delta"), "flags_remove"))
  }

  /** `xs.includes(v)`. It compares by SameValueZero: primitives by value,
      objects and arrays by identity. Values that JSON.parse produces never
      share an identity, so an object or array is never found. */
  predicate Includes(xs: seq<Value>, v: Value)
    ensures Includes(xs, v) ==> v in xs
    ensures !IsPrimitive(v) ==> !Includes(xs, v)
  {
    IsPrimitive(v) && v in xs
  }

  /** No flag occurs twice in the sense of `includes`. */
  predicate DistinctFlags(xs: seq<Value>) {
    forall i, j :: 0 <= i < j < |xs| && IsPrimitive(xs[i]) ==> xs[i] != xs[j]
  }

  /** `a` is `b` with some elements left out, in the same order. */
  predicate IsSubsequence<T(==)>(a: seq<T>, b: seq<T>)
    decreases |b|
  {
    a == [] ||
    (b != [] &&
     ((a[|a| - 1] == b[|b| - 1] && IsSubsequence(a[..|a| - 1], b[..|b| - 1]))
      || IsSubsequence(a, b[..|b| - 1])))
  }

  /** `for (const f of add) if (!flags.includes(f)) flags.push(f)` */
  function AddFlags(flags: seq<Value>, add: seq<Value>): (r: seq<Value>)
    // the flags already there keep their places
    ensures |flags| <= |r| && r[..|flags|] == flags
    decreases |add|
  {
    if add == [] then flags
    else
      var g := AddFlags(flags, add[..|add| - 1]);
      var f := add[|add| - 1];
      if Includes(g, f) then g else g + [f]
  }

  /** One more pass of the `for` loop: the next flag is pushed unless already there. */
  lemma AddFlagsStep(flags: seq<Value>, add: seq<Value>, i: int)
    requires 0 <= i < |add|
    ensures AddFlags(flags, add[..i + 1]) ==
      var g := AddFlags(flags, add[..i]);
      if Includes(g, add[i]) then g else g + [add[i]]
  {
    assert add[..i + 1][..i] == add[..i];
  }

  /** A value ends up present exactly when it was present or was added. */
  lemma {:induction false} AddFlagsMembers(flags: seq<Value>, add: seq<Value>)
    ensures forall v :: v in AddFlags(flags, add) <==> v in flags || v in add
    decreases |add|
  {
    if add != [] {
      var init := add[..|add| - 1];
      var f := add[|add| - 1];
      AddFlagsMembers(flags, init);
      assert add == init + [f];
    }
  }

  /** No flag after the first `|flags|` repeats one before it. */
  predicate NoNewDuplicates(flags: seq<Value>, r: seq<Value>) {
    forall i, j :: 0 <= i < j < |r| && |flags| <= j && IsPrimitive(r[j]) ==> r[i] != r[j]
  }

  /** The flags `AddFlags` appends never repeat a flag before them,
      so a list without duplicates stays without duplicates. */
  lemma {:induction false} AddFlagsNoNewDuplicates(flags: seq<Value>, add: seq<Value>)
    ensures NoNewDuplicates(flags, AddFlags(flags, add))
    ensures DistinctFlags(flags) ==> DistinctFlags(AddFlags(flags, add))
    decreases |add|
  {
    if add != [] {
      var init := add[..|add| - 1];
      AddFlagsNoNewDuplicates(flags, init);
      var g := AddFlags(flags, init);
      assert NoNewDuplicates(flags, g);
      var f := add[|add| - 1];
      var r := AddFlags(flags, add);
      if !Includes(g, f) {
        assert r == g + [f];
        forall i, j | 0 <= i < j < |r| && |flags| <= j && IsPrimitive(r[j]) ensures r[i] != r[j] {
          if j == |g| {
            assert r[j] == f && IsPrimitive(f) && f !in g;
            assert r[i] == g[i] && g[i] in g;
          } else {
            assert r[i] == g[i] && r[j] == g[j];
          }
        }
      } else {
        assert r == g;
      }
    }
    var r := AddFlags(flags, add);
    if DistinctFlags(flags) {
      forall i, j | 0 <= i < j < |r| && IsPrimitive(r[i]) ensures r[i] != r[j] {
        if j < |flags| {
          assert r[i] == flags[i] && r[j] == flags[j];
        }
      }
    }
  }

  /** The appended flags come from the add list, in the add list's order. */
  lemma {:induction false} AddFlagsKeepOrder(flags: seq<Value>, add: seq<Value>)
    ensures IsSubsequence(AddFlags(flags, add)[|flags|..], add)
    decreases |add|
  {
    if add != [] {
      var init := add[..|add| - 1];
      AddFlagsKeepOrder(flags, init);
      var g := AddFlags(flags, init);
      var f := add[|add| - 1];
      assert add[..|add| - 1] == init;
      if !Includes(g, f) {
        assert (g + [f])[|flags|..] == g[|flags|..] + [f];
        assert (g[|flags|..] + [f])[..|g[|flags|..] + [f]| - 1] == g[|flags|..];
      }
    }
  }

  /** `flags.filter(f => !rem.includes(f))` */
  function RemoveFlags(flags: seq<Value>, rem: seq<Value>): (r: seq<Value>)
    ensures |r| <= |flags|
    decreases |flags|
  {
    if flags == [] then []
    else
      var g := RemoveFlags(flags[..|flags| - 1], rem);
      var f := flags[|flags| - 1];
      if Includes(rem, f) then g else g + [f]
  }

  /** A flag survives exactly when it was there and is not on the removal list. */
  lemma {:induction false} RemoveFlagsMembers(flags: seq<Value>, rem: seq<Value>)
    ensures forall v :: v in RemoveFlags(flags, rem) <==> v in flags && !Includes(rem, v)
    decreases |flags|
  {
    if flags != [] {
      var init := flags[..|flags| - 1];
      RemoveFlagsMembers(init, rem);
      assert flags == init + [flags[|flags| - 1]];
    }
  }

  /** Filtering keeps the survivors in their order and adds no duplicates. */
  lemma {:induction false} RemoveFlagsKeepOrder(flags: seq<Value>, rem: seq<Value>)
    ensures IsSubsequence(RemoveFlags(flags, rem), flags)
    ensures DistinctFlags(flags) ==> DistinctFlags(RemoveFlags(flags, rem))
    decreases |flags|
  {
    if flags != [] {
      var init := flags[..|flags| - 1];
      RemoveFlagsKeepOrder(init, rem);
      RemoveFlagsMembers(init, rem);
      var g := RemoveFlags(init, rem);
      var f := flags[|flags| - 1];
      if !Includes(rem, f) {
        assert (g + [f])[..|g|] == g;
        if DistinctFlags(flags) {
          assert f in flags;
          forall i | 0 <= i < |g| && IsPrimitive(g[i]) ensures g[i] != f {
            assert g[i] in init;
            var k :| 0 <= k < |init| && init[k] == g[i];
            assert flags[k] == g[i] && flags[|flags| - 1] == f;
          }
        }
      }
    }
  }

  /** The flag update of `applyDelta`: additions first, then removals. */
  function NextFlags(flags: seq<Value>, ai: Value): (r: seq<Value>)
    ensures forall v :: v in r ==> (v in flags || v in AddList(ai)) && !Includes(RemoveList(ai), v)
  {
    AddFlagsMembers(flags, AddList(ai));
    RemoveFlagsMembers(AddFlags(flags, AddList(ai)), RemoveList(ai));
    RemoveFlags(AddFlags(flags, AddList(ai)), RemoveList(ai))
  }

  /** After the update no removed flag is present, even one that was also added;
      every other flag is present exactly when it was before or was added; the
      old flags keep their order, and no duplicate is introduced. */
  lemma FlagUpdate(flags: seq<Value>, ai: Value)
    ensures forall v :: Includes(RemoveList(ai), v) ==> v !in NextFlags(flags, ai)
    ensures forall v :: !Includes(RemoveList(ai), v) ==>
      (v in NextFlags(flags, ai) <==> v in flags || v in AddList(ai))
    ensures DistinctFlags(flags) ==> DistinctFlags(NextFlags(flags, ai))
    ensures IsSubsequence(NextFlags(flags, ai), AddFlags(flags, AddList(ai)))
  {
    AddFlagsMembers(flags, AddList(ai));
    RemoveFlagsMembers(AddFlags(flags, AddList(ai)), RemoveList(ai));
    AddFlagsNoNewDuplicates(flags, AddList(ai));
    RemoveFlagsKeepOrder(AddFlags(flags, AddList(ai)), RemoveList(ai));
  }

  /** `applyDelta(ai)`: stats and flags change together, nothing else does. */
  function WithDelta(s: Snapshot, ai: Value): (r: Snapshot)
    ensures r == s.(stats := r.stats, flags := r.flags)
  {
    s.(stats := AddStats(s.stats, ai), flags := NextFlags(s.flags, ai))
  }

  // -------------------------------------------------------------- endings

  /** The key `state.endings[endingId]` writes: the property key of `endingId`. */
  function EndingKey(end: Value): (k: string)
    ensures Get(end, "endingId").Str? ==> k == Get(end, "endingId").s
  {
    ToStr(Get(end, "endingId"))
  }

  /** Whether `applyEnding` writes anything: `ai?.end` and its `endingId` are truthy. */
  predicate ReachesEnding(ai: Value)
    ensures ReachesEnding(ai) ==> Get(ai, "end").Obj? && "endingId" in Get(ai, "end").fields
  {
    Truthy(Get(ai, "end")) && Truthy(Get(Get(ai, "end"), "endingId"))
  }

  /** Assigning to this key runs the `Object.prototype.__proto__` setter: it
      replaces the prototype of `state.endings` and creates no own property,
      so `Object.keys` and `JSON.stringify` never see it. */
  const ProtoKey: string := "__proto__"

  /** The record `applyEnding` stores. */
  function EndingFor(end: Value, turn: int): (e: EndingRecord)
    ensures e.unlocked && e.atTurn == turn
    ensures Truthy(Get(end, "title")) ==> e.title == Get(end, "title")
    ensures !Truthy(Get(end, "title")) ==> e.title == Get(end, "endingId")
    ensures e.summary == if Truthy(Get(end, "summary")) then Get(end, "summary") else Str("")
  {
    EndingRecord(true, Or(Get(end, "title"), Get(end, "endingId")),
                 Or(Get(end, "summary"), Str("")), turn)
  }

  /** The own properties of `state.endings` after `applyEnding(ai)` at turn
      `turn`. An id whose key is `__proto__` adds no own property. */
  function RecordEnding(endings: map<string, EndingRecord>, ai: Value, turn: int)
    : (r: map<string, EndingRecord>)
    ensures !ReachesEnding(ai) || EndingKey(Get(ai, "end")) == ProtoKey ==> r == endings
    ensures ReachesEnding(ai) && EndingKey(Get(ai, "end")) != ProtoKey ==>
      EndingKey(Get(ai, "end")) in r && r[EndingKey(Get(ai, "end"))] == EndingFor(Get(ai, "end"), turn)
    ensures ProtoKey !in endings ==> ProtoKey !in r
    // append-only: no ending is removed, and only the written key can change
    ensures endings.Keys <= r.Keys
    ensures forall k :: k in r && k != EndingKey(Get(ai, "end")) ==> k in endings && r[k] == endings[k]
  {
    if !ReachesEnding(ai) || EndingKey(Get(ai, "end")) == ProtoKey then endings
    else endings[EndingKey(Get(ai, "end")) := EndingFor(Get(ai, "end"), turn)]
  }

  function WithEnding(s: Snapshot, ai: Value): (r: Snapshot)
    ensures r == s.(endings := r.endings)
  {
    s.(endings := RecordEnding(s.endings, ai, s.turn))
  }

  // --------------------------------------------------------------- memory

  /** The entries `updateMemory` logs, in order: the player line unless it is
      empty or the start marker, then the narration (or "") always. */
  function Logged(userInput: string, ai: Value): (r: seq<Entry>)
    ensures |r| == (if userInput == "" || userInput == StartMarker then 1 else 2)
    ensures r[|r| - 1] == Entry("ai", Or(Get(ai, "narration"), Str("")))
    ensures |r| == 2 ==> r[0] == Entry("user", Str(userInput))
  {
    (if userInput != "" && userInput != StartMarker then [Entry("user", Str(userInput))] else [])
    + [Entry("ai", Or(Get(ai, "narration"), Str("")))]
  }

  /** `pushRecent` applied to each entry in turn, with the default limit. */
  function PushedAll(recent: seq<Entry>, entries: seq<Entry>): (r: seq<Entry>)
    ensures |recent| <= RecentLimit ==> |r| <= RecentLimit
    ensures entries != [] ==> r != [] && r[|r| - 1] == entries[|entries| - 1]
    decreases |entries|
  {
    if entries == [] then recent
    else PushedAll(Pushed(recent, entries[0], RecentLimit), entries[1..])
  }

  /** `merged.slice(-n)`: the last `n` characters. */
  function LastChars(s: string, n: nat): (r: string)
    ensures |r| == if |s| <= n then |s| else n
    ensures r == s[|s| - |r|..]
  {
    if |s| <= n then s else s[|s| - n..]
  }

  /** `(ai?.status?.summary || "").trim()`, or None where `.trim` is not a
      function: a truthy value that is not a string throws a TypeError. */
  function SummaryLine(ai: Value): (r: Option<string>)
    ensures var v := Get(Get(ai, "status"), "summary");
      r.None? <==> Truthy(v) && !v.Str?
    ensures var v := Get(Get(ai, "status"), "summary");
      r.Some? ==> r.value == if v.Str? then Trim(v.s) else ""
    ensures r.Some? ==> Trim(r.value) == r.value
  {
    var v := Or(Get(Get(ai, "status"), "summary"), Str(""));
    TrimIdempotent(if v.Str? then v.s else "");
    if v.Str? then Some(Trim(v.s)) else None
  }

  /** The rolling summary after one more status line. */
  function NextSummary(summary: string, line: string): (r: string)
    ensures line == "" ==> r == summary
    ensures line != "" ==> |r| <= SummaryLimit
  {
    if line == "" then summary
    else
      var merged := (if summary != "" then summary + " / " else "") + line;
      LastChars(merged, SummaryLimit as nat)
  }

  /** The newest text is kept: the summary is the tail of the merged text,
      cut to 400 characters, so a line within the cap survives whole at the end. */
  lemma SummaryKeepsNewest(summary: string, line: string)
    requires line != ""
    ensures var merged := (if summary != "" then summary + " / " else "") + line;
      var r := NextSummary(summary, line);
      |r| == (if |merged| <= SummaryLimit then |merged| else SummaryLimit)
      && r == merged[|merged| - |r|..]
    ensures var r := NextSummary(summary, line);
      |line| <= SummaryLimit ==> r[|r| - |line|..] == line
  {
    var prefix := if summary != "" then summary + " / " else "";
    TailKeepsEnd(prefix + line, prefix, line, SummaryLimit);
  }

  /** The last `n` characters of `prefix + line` end with `line` when it fits. */
  lemma TailKeepsEnd(merged: string, prefix: string, line: string, n: nat)
    requires merged == prefix + line
    ensures |line| <= n ==> var r := LastChars(merged, n); r[|r| - |line|..] == line
  {
    var r := LastChars(merged, n);
    if |line| <= n {
      var k := |r| - |line|;
      forall i | 0 <= i < |line| ensures r[k + i] == line[i] {
        assert r[k + i] == merged[|merged| - |r| + k + i];
        assert merged[|prefix| + i] == line[i];
      }
      assert r[k..] == line;
    }
  }

  /** `updateMemory(userInput, ai)`: the log first, then the summary. The
      boolean is false when the summary line threw, after the log was written. */
  function WithMemory(s: Snapshot, userInput: string, ai: Value): (r: (Snapshot, bool))
    ensures r.0 == s.(memory := r.0.memory)
    ensures r.1 <==> SummaryLine(ai).Some?
  {
    var recent := PushedAll(s.memory.recent, Logged(userInput, ai));
    match SummaryLine(ai)
    case None => (s.(memory := s.memory.(recent := recent)), false)
    case Some(line) => (s.(memory := Memory(NextSummary(s.memory.summary, line), recent)), true)
  }

  // ------------------------------------------------------------ the turn

  /** The turn number the reply reports, when it is a non-zero number. */
  function ReportedTurn(ai: Value): (r: Option<int>)
    ensures r.Some? ==> r.value != 0
    ensures IsNullish(Get(ai, "turn")) ==> r == None
    ensures Get(ai, "turn").Num? && Get(ai, "turn").n != 0 ==> r == Some(Get(ai, "turn").n)
  {
    var v := Get(ai, "turn");
    if IsNullish(v) then None
    else match ToNumber(v)
      case NaN => None
      case Int(k) => if k != 0 then Some(k) else None
  }

  /** `Number(ai?.turn ?? (turn + 1)) || (turn + 1)` */
  function NextTurn(turn: int, ai: Value): (r: int)
    ensures ReportedTurn(ai).Some? ==> r == ReportedTurn(ai).value
    ensures ReportedTurn(ai).None? ==> r == turn + 1
  {
    match ToNumber(Coalesce(Get(ai, "turn"), Num(turn + 1)))
    case NaN => turn + 1
    case Int(k) => if k != 0 then k else turn + 1
  }

  /** `applyAI(ai)` without its rendering and saving: the turn is updated
      before the ending is recorded, so `atTurn` is the new turn. */
  function WithAI(s: Snapshot, ai: Value): (r: Snapshot)
    ensures r.lastAI == ai && r.memory == s.memory
    ensures r.turn == NextTurn(s.turn, ai)
    ensures r.chapter == if Truthy(Get(ai, "chapter")) then Get(ai, "chapter") else s.chapter
    ensures r.stats == AddStats(s.stats, ai) && r.flags == NextFlags(s.flags, ai)
    ensures r.endings == RecordEnding(s.endings, ai, r.turn)
  {
    var s1 := s.(lastAI := ai, turn := NextTurn(s.turn, ai), chapter := Or(Get(ai, "chapter"), s.chapter));
    WithEnding(WithDelta(s1, ai), ai)
  }

  /** What became of a turn. */
  datatype TurnOutcome =
    | Applied(reply: Value)  // runTurn resolved with the reply
    | CallFailed             // the proxy call rejected before anything changed
    | Threw                  // updateMemory threw after logging the exchange

  /** One `runTurn`: `None` as the reply stands for a failed proxy call. */
  function Turn(s: Snapshot, userInput: string, reply: Option<Value>): (r: (Snapshot, TurnOutcome))
    // a failed call changes nothing
    ensures reply.None? ==> r == (s, CallFailed)
    ensures reply.Some? ==> r.1 != CallFailed
  {
    match reply
    case None => (s, CallFailed)
    case Some(ai) =>
      var (m, completed) := WithMemory(s, userInput, ai);
      if !completed then (m, Threw) else (WithAI(m, ai), Applied(ai))
  }

  /** `startNewGame`: the initial state, then the start-marker turn. */
  function NewGame(reply: Option<Value>): (r: (Snapshot, TurnOutcome))
    ensures reply.None? ==> r == (Initial, CallFailed)
    ensures reply.Some? ==> r.1 != CallFailed
  {
    Turn(Initial, StartMarker, reply)
  }

  /** The state bounds the turn pipeline keeps. */
  predicate Consistent(s: Snapshot) {
    |s.memory.recent| <= RecentLimit && |s.memory.summary| <= SummaryLimit && DistinctFlags(s.flags)
  }

  /** Every turn, whatever its outcome, keeps the log within 6 entries, the
      summary within 400 characters and the flags free of duplicates. */
  lemma TurnKeepsBounds(s: Snapshot, userInput: string, reply: Option<Value>)
    requires Consistent(s)
    ensures Consistent(Turn(s, userInput, reply).0)
  {
    if reply.Some? {
      FlagUpdate(s.flags, reply.value);
    }
  }

  /** A completed turn: the exchange is logged, the new turn number is the
      reported one or one more, the ending (if any) is stamped with that new
      turn number, and ending ids are never lost. */
  lemma {:induction false} CompletedTurn(s: Snapshot, userInput: string, ai: Value)
    requires SummaryLine(ai).Some?
    ensures var (r, out) := Turn(s, userInput, Some(ai));
      && out == Applied(ai)
      && r.memory.recent == PushedAll(s.memory.recent, Logged(userInput, ai))
      && r.turn == NextTurn(s.turn, ai)
      && s.endings.Keys <= r.endings.Keys
      && (ReachesEnding(ai) && EndingKey(Get(ai, "end")) != ProtoKey ==>
            r.endings[EndingKey(Get(ai, "end"))].atTurn == r.turn)
      && (EndingKey(Get(ai, "end")) == ProtoKey ==> r.endings == s.endings)
  {
  }

  /** A turn whose summary line throws has logged the exchange and changed nothing else. */
  lemma ThrowingTurn(s: Snapshot, userInput: string, ai: Value)
    requires SummaryLine(ai).None?
    ensures var (r, out) := Turn(s, userInput, Some(ai));
      out == Threw && r == s.(memory := s.memory.(recent := PushedAll(s.memory.recent, Logged(userInput, ai))))
  {
  }

  /** A new game starts from 0, "BOOK1_CH01", 5/5/5 and empty flags, memory and
      endings; its log holds only the narration, since the start marker is not logged. */
  lemma NewGameFirstTurn(ai: Value)
    requires SummaryLine(ai).Some?
    ensures var (r, out) := NewGame(Some(ai));
      && r.memory.recent == [Entry("ai", Or(Get(ai, "narration"), Str("")))]
      && r.turn == (if ReportedTurn(ai).Some? then ReportedTurn(ai).value else 1)
      && 2 <= r.stats.sanity <= 8 && 2 <= r.stats.stamina <= 8 && 2 <= r.stats.luck <= 8
      && |r.endings| <= 1
  {
    CompletedTurn(Initial, StartMarker, ai);
    FirstLog(ai);
    FirstEnding(ai, NewGame(Some(ai)).0.turn);
  }

  lemma FirstLog(ai: Value)
    ensures PushedAll([], Logged(StartMarker, ai)) == [Entry("ai", Or(Get(ai, "narration"), Str("")))]
  {
    var e := Entry("ai", Or(Get(ai, "narration"), Str("")));
    assert Logged(StartMarker, ai) == [e];
    assert Pushed([], e, RecentLimit) == [e];
    assert PushedAll([], [e]) == PushedAll([e], []) == [e];
  }

  lemma FirstEnding(ai: Value, turn: int)
    ensures |RecordEnding(map[], ai, turn)| <= 1
  {
    var r := RecordEnding(map[], ai, turn);
    assert r.Keys <= {EndingKey(Get(ai, "end"))};
    SubsetSize(r.Keys, {EndingKey(Get(ai, "end"))});
  }

  lemma SubsetSize<T>(a: set<T>, b: set<T>)
    requires a <= b
    ensures |a| <= |b|
  {
    assert b == a + (b - a);
  }

  /** The request body `runTurn` sends: the state fields, the ids of the
      unlocked endings (for the model to read), the memory and the input. */
  datatype Payload = Payload(
    turn: int,
    chapter: Value,
    stats: Stats,
    flags: seq<Value>,
    endingIds: set<string>,
    memory: Memory,
    userInput: string)

  function PayloadOf(s: Snapshot, userInput: string): (r: Payload)
    ensures r.endingIds == s.endings.Keys && r.turn == s.turn && r.userInput == userInput
  {
    Payload(s.turn, s.chapter, s.stats, s.flags, s.endings.Keys, s.memory, userInput)
  }

  /** The ending ids a turn sends include every id sent before it: whatever
      the outcome of a turn, no unlocked ending is forgotten. */
  lemma PayloadKeepsEndingIds(s: Snapshot, userInput: string, reply: Option<Value>, next: string)
    ensures PayloadOf(s, userInput).endingIds <= PayloadOf(Turn(s, userInput, reply).0, next).endingIds
  {
  }

  // ------------------------------------------------- the in-place version

  /** `applyDelta(ai)` */
  method ApplyDelta(st: GameState, ai: Value)
    modifies st`stats, st`flags
    ensures st.Current() == WithDelta(old(st.Current()), ai)
  {
    var d := Get(ai, "delta");
    var s := Or(Get(d, "stats"), Obj(map[]));
    st.stats := st.stats.(sanity := st.stats.sanity + Clamp(Coalesce(Get(s, "sanity"), Num(0)), -DeltaLimit, DeltaLimit));
    st.stats := st.stats.(stamina := st.stats.stamina + Clamp(Coalesce(Get(s, "stamina"), Num(0)), -DeltaLimit, DeltaLimit));
    st.stats := st.stats.(luck := st.stats.luck + Clamp(Coalesce(Get(s, "luck"), Num(0)), -DeltaLimit, DeltaLimit));
    assert st.stats == AddStats(old(st.stats), ai);

    var add := if Get(d, "flags_add").Arr? then Get(d, "flags_add").items else [];
    var rem := if Get(d, "flags_remove").Arr? then Get(d, "flags_remove").items else [];
    var i := 0;
    while i < |add|
      invariant 0 <= i <= |add|
      invariant st.flags == AddFlags(old(st.flags), add[..i])
      invariant st.stats == AddStats(old(st.stats), ai)
    {
      AddFlagsStep(old(st.flags), add, i);
      if !Includes(st.flags, add[i]) {
        st.flags := st.flags + [add[i]];
      }
      i := i + 1;
    }
    assert add[..|add|] == add;
    assert add == AddList(ai) && rem == RemoveList(ai);
    st.flags := RemoveFlags(st.flags, rem);
  }

  /** `applyEnding(ai)` */
  method ApplyEnding(st: GameState, ai: Value)
    modifies st`endings
    ensures st.Current() == WithEnding(old(st.Current()), ai)
  {
    var end := Get(ai, "end");
    if !Truthy(end) { return; }
    var endingId, title, summary := Get(end, "endingId"), Get(end, "title"), Get(end, "summary");
    if !Truthy(endingId) { return; }
    var key := ToStr(endingId);
    if key == ProtoKey { return; }  // the prototype setter: no own key
    st.endings := st.endings[key := EndingRecord(true, Or(title, endingId), Or(summary, Str("")), st.turn)];
  }

  /** `updateMemory(userInput, ai)`; `completed` is false where it throws. */
  method UpdateMemory(st: GameState, userInput: string, ai: Value) returns (completed: bool)
    modifies st`memory
    ensures st.Current() == WithMemory(old(st.Current()), userInput, ai).0
    ensures completed == WithMemory(old(st.Current()), userInput, ai).1
  {
    LogExchange(st, userInput, ai);
    ghost var logged := st.memory;
    var v := Or(Get(Get(ai, "status"), "summary"), Str(""));
    if !v.Str? {
      assert SummaryLine(ai) == None;
      return false;
    }
    var line := Trim(v.s);
    assert SummaryLine(ai) == Some(line);
    FoldSummary(st, line);
    assert st.memory == Memory(NextSummary(logged.summary, line), logged.recent);
    completed := true;
  }

  /** The summary half of `updateMemory`: a non-empty line is appended after
      ` / ` and the result cut to its last 400 characters. */
  method FoldSummary(st: GameState, line: string)
    modifies st`memory
    ensures st.memory == old(st.memory).(summary := NextSummary(old(st.memory.summary), line))
  {
    if line != "" {
      var merged := (if st.memory.summary != "" then st.memory.summary + " / " else "") + line;
      st.memory := st.memory.(summary := LastChars(merged, SummaryLimit));
    }
  }

  /** The two `pushRecent` calls that open `updateMemory`. */
  method LogExchange(st: GameState, userInput: string, ai: Value)
    modifies st`memory
    ensures st.memory == old(st.memory).(recent := PushedAll(old(st.memory.recent), Logged(userInput, ai)))
  {
    ghost var entries := Logged(userInput, ai);
    if userInput != "" && userInput != StartMarker {
      st.PushRecent("user", Str(userInput));
      assert PushedAll(old(st.memory.recent), entries) == PushedAll(st.memory.recent, entries[1..]);
      entries := entries[1..];
    }
    ghost var before := st.memory.recent;
    st.PushRecent("ai", Or(Get(ai, "narration"), Str("")));
    assert entries == [Entry("ai", Or(Get(ai, "narration"), Str("")))];
    assert PushedAll(before, entries) == PushedAll(st.memory.recent, []);
  }

  /** `applyAI(ai)` without the render and save calls. */
  method ApplyAI(st: GameState, ai: Value)
    modifies st`lastAI, st`turn, st`chapter, st`stats, st`flags, st`endings
    ensures st.Current() == WithAI(old(st.Current()), ai)
  {
    ghost var s1 := old(st.Current()).(lastAI := ai, turn := NextTurn(st.turn, ai), chapter := Or(Get(ai, "chapter"), st.chapter));
    st.lastAI := ai;
    st.turn := match ToNumber(Coalesce(Get(ai, "turn"), Num(st.turn + 1)))
      case NaN => st.turn + 1
      case Int(k) => if k != 0 then k else st.turn + 1;
    st.chapter := Or(Get(ai, "chapter"), st.chapter);
    assert st.Current() == s1;
    ApplyDelta(st, ai);
    ApplyEnding(st, ai);
    assert st.Current() == WithEnding(WithDelta(s1, ai), ai);
  }

  /** `runTurn(userInput)`: `reply` is what the awaited proxy call produced,
      `None` when it rejected. The payload is built, and the call awaited,
      before anything is changed. */
  method RunTurn(st: GameState, userInput: string, reply: Option<Value>)
    returns (sent: Payload, outcome: TurnOutcome)
    modifies st
    ensures sent == PayloadOf(old(st.Current()), userInput)
    ensures (st.Current(), outcome) == Turn(old(st.Current()), userInput, reply)
  {
    sent := Payload(st.turn, st.chapter, st.stats, st.flags, st.endings.Keys, st.memory, userInput);
    if reply.None? {
      return sent, CallFailed;
    }
    var ai := reply.value;
    var completed := UpdateMemory(st, userInput, ai);
    if !completed {
      return sent, Threw;
    }
    ApplyAI(st, ai);
    outcome := Applied(ai);
  }

  /** `startNewGame()`: reset every field, then run the start-marker turn.
      A failed call leaves the reset state behind. */
  method StartNewGame(st: GameState, reply: Option<Value>) returns (sent: Payload, outcome: TurnOutcome)
    modifies st
    ensures sent == PayloadOf(Initial, StartMarker)
    ensures (st.Current(), outcome) == NewGame(reply)
  {
    st.turn := 0;
    st.chapter := Str(DefaultChapter);
    st.stats := InitialStats;
    st.flags := [];
    st.memory := Memory("", []);
    st.endings := map[];
    st.lastAI := Null;
    assert st.Current() == Initial;
    sent, outcome := RunTurn(st, StartMarker, reply);
  }
}
