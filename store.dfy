/**
 * js/store.js: the one mutable game state of a session and the bounded log
 * of recent exchanges kept in it.
 */
module Store {
  import opened Js

  datatype Stats = Stats(sanity: int, stamina: int, luck: int)

  /** One logged exchange `{role, text}`; `text` is whatever value the caller passed. */
  datatype Entry = Entry(role: string, text: Value)

  /** `state.memory`: the rolling summary and the recent-exchange log. */
  datatype Memory = Memory(summary: string, recent: seq<Entry>)

  /** `state.endings[id]` */
  datatype EndingRecord = EndingRecord(unlocked: bool, title: Value, summary: Value, atTurn: int)

  /** Everything `state` holds: what is sent to storage after a turn. */
  datatype Snapshot = Snapshot(
    turn: int,
    chapter: Value,
    stats: Stats,
    flags: seq<Value>,
    memory: Memory,
    endings: map<string, EndingRecord>,
    lastAI: Value)

  const DefaultChapter: string := "BOOK1_CH01"
  const InitialStats: Stats := Stats(5, 5, 5)
  /** The default `limit` of `pushRecent`. */
  const RecentLimit: int := 6

  /** The state a session starts in (and the one a new game resets to). */
  const Initial: Snapshot :=
    Snapshot(0, Str(DefaultChapter), InitialStats, [], Memory("", []), map[], Null)

  /** The log after `recent.push(e)` followed by one `shift()` when it is longer than `limit`. */
  function Pushed(recent: seq<Entry>, e: Entry, limit: int): (r: seq<Entry>)
    // under the cap, the entry is appended and nothing is lost
    ensures |recent| < limit ==> r == recent + [e]
    // at or over the cap, exactly the oldest entry is dropped
    ensures |recent| >= limit && recent != [] ==> r == recent[1..] + [e]
    // the cap, once respected, stays respected
    ensures |recent| <= limit ==> |r| <= limit
    // only a log at a cap of zero or less can lose the new entry itself
    ensures r != [] ==> r[|r| - 1] == e
    ensures r == [] <==> recent == [] && limit < 1
  {
    var pushed := recent + [e];
    if |pushed| > limit then pushed[1..] else pushed
  }

  class GameState {
    var turn: int
    var chapter: Value
    var stats: Stats
    var flags: seq<Value>
    var memory: Memory
    var endings: map<string, EndingRecord>
    var lastAI: Value

    function Current(): Snapshot
      reads this
    {
      Snapshot(turn, chapter, stats, flags, memory, endings, lastAI)
    }

    /** The object literal `state` at js/store.js:2-13. */
    constructor ()
      ensures Current() == Initial
    {
      turn := 0;
      chapter := Str(DefaultChapter);
      stats := InitialStats;
      flags := [];
      memory := Memory("", []);
      endings := map[];
      lastAI := Null;
    }

    /** `pushRecent(role, text, limit = 6)`: only `memory.recent` changes. */
    method PushRecent(role: string, text: Value, limit: int := RecentLimit)
      modifies this`memory
      ensures memory.summary == old(memory.summary)
      ensures memory.recent == Pushed(old(memory.recent), Entry(role, text), limit)
    {
      var recent := memory.recent + [Entry(role, text)];
      if |recent| > limit {
        recent := recent[1..];
      }
      memory := memory.(recent := recent);
    }
  }
}
