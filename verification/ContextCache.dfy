/** Router tool results, cached per session for a limited time, held against a log of stores and
    clears. */
module ContextCache {
  import opened Prelude

  type Time = real

  /** `value` stands for the tool's result object; None is Python's None. */
  datatype ToolResult = ToolResult(name: string, ok: bool, value: Option<string>, error: Option<string>)

  datatype Key = Key(session: string, tool: string)

  datatype Entry = Entry(storedAt: Time, result: ToolResult)

  // ---------------------------------------------------------------- the cache

  datatype Cache = Cache(ttl: Time, entries: map<Key, Entry>, hits: nat, misses: nat)

  function Get(c: Cache, key: Key, now: Time): (Option<ToolResult>, Cache) {
    if key !in c.entries then (None, c.(misses := c.misses + 1))
    else if now - c.entries[key].storedAt > c.ttl then
      (None, c.(entries := c.entries - {key}, misses := c.misses + 1))
    else (Some(c.entries[key].result), c.(hits := c.hits + 1))
  }

  function Store(c: Cache, key: Key, now: Time, result: ToolResult): Cache {
    if result.ok then c.(entries := c.entries[key := Entry(now, result)]) else c
  }

  predicate Covers(session: Option<string>, key: Key) {
    session.None? || session.value == key.session
  }

  function Clear(c: Cache, session: Option<string>): Cache {
    c.(entries := map key | key in c.entries && !Covers(session, key) :: c.entries[key])
  }

  class RouterContextCache {
    const ttl: Time
    var entries: map<Key, Entry>
    var hits: nat
    var misses: nat

    constructor (ttl: Time)
      ensures Contents() == Cache(ttl, map[], 0, 0)
    {
      this.ttl, entries, hits, misses := ttl, map[], 0, 0;
    }

    function Contents(): Cache
      reads this
    {
      Cache(ttl, entries, hits, misses)
    }

    method GetResult(key: Key, now: Time) returns (result: Option<ToolResult>)
      modifies this
      ensures (result, Contents()) == Get(old(Contents()), key, now)
    {
      if key !in entries {
        misses := misses + 1;
        return None;
      }
      var entry := entries[key];
      if now - entry.storedAt > ttl {
        entries := entries - {key};
        misses := misses + 1;
        return None;
      }
      hits := hits + 1;
      return Some(entry.result);
    }

    method SetResult(key: Key, now: Time, result: ToolResult)
      modifies this
      ensures Contents() == Store(old(Contents()), key, now, result)
    {
      if !result.ok {
        return;
      }
      entries := entries[key := Entry(now, result)];
    }

    method ClearSession(session: Option<string>)
      modifies this
      ensures Contents() == Clear(old(Contents()), session)
    {
      if session.None? {
        entries := map[];
      } else {
        entries := map key | key in entries && key.session != session.value :: entries[key];
      }
    }
  }

  // ---------------------------------------------------------------- the reference: a log

  datatype Op =
    | GetOp(key: Key, now: Time)
    | SetOp(key: Key, now: Time, result: ToolResult)
    | ClearOp(session: Option<string>)

  function Apply(c: Cache, op: Op): Cache {
    match op
    case GetOp(key, now) => Get(c, key, now).1
    case SetOp(key, now, result) => Store(c, key, now, result)
    case ClearOp(session) => Clear(c, session)
  }

  function ApplyAll(c: Cache, ops: seq<Op>): Cache
    decreases |ops|
  {
    if ops == [] then c else Apply(ApplyAll(c, ops[..|ops| - 1]), ops[|ops| - 1])
  }

  function Run(ops: seq<Op>, ttl: Time): Cache {
    ApplyAll(Cache(ttl, map[], 0, 0), ops)
  }

  /** The last successful result stored under the key since the last clear that covers it. */
  function LastStored(ops: seq<Op>, key: Key): Option<Entry>
    decreases |ops|
  {
    if ops == [] then None
    else
      var before, last := ops[..|ops| - 1], ops[|ops| - 1];
      match last
      case GetOp(_, _) => LastStored(before, key)
      case SetOp(k, now, result) => if k == key && result.ok then Some(Entry(now, result)) else LastStored(before, key)
      case ClearOp(session) => if Covers(session, key) then None else LastStored(before, key)
  }

  /** What a reader at `now` is entitled to. */
  function Fresh(ops: seq<Op>, key: Key, now: Time, ttl: Time): Option<ToolResult> {
    var stored := LastStored(ops, key);
    if stored.Some? && now - stored.value.storedAt <= ttl then Some(stored.value.result) else None
  }

  predicate Timely(ops: seq<Op>, now: Time)
    decreases |ops|
  {
    if ops == [] then true
    else
      match ops[|ops| - 1]
      case GetOp(_, t) => t <= now && Timely(ops[..|ops| - 1], t)
      case SetOp(_, t, _) => t <= now && Timely(ops[..|ops| - 1], t)
      case ClearOp(_) => Timely(ops[..|ops| - 1], now)
  }

  /** An entry that is missing although stored has outlived the time limit. */
  predicate Agrees(c: Cache, stored: Option<Entry>, key: Key, now: Time) {
    if key in c.entries then stored == Some(c.entries[key])
    else stored.Some? ==> now - stored.value.storedAt > c.ttl
  }

  lemma {:induction false} CacheAgreesWithLog(ops: seq<Op>, key: Key, now: Time, ttl: Time)
    requires Timely(ops, now)
    ensures Run(ops, ttl).ttl == ttl
    ensures Agrees(Run(ops, ttl), LastStored(ops, key), key, now)
    decreases |ops|
  {
    if ops != [] {
      var before, last := ops[..|ops| - 1], ops[|ops| - 1];
      CacheAgreesWithLog(before, key, if last.ClearOp? then now else last.now, ttl);
    }
  }

  /** The cache's answer for one key after any history is the last successful result stored
      under that key, in that session, with no clear since, at most the time limit ago; and
      none otherwise. Pruning and other keys cannot be seen. */
  lemma GetIsFreshestStore(ops: seq<Op>, key: Key, now: Time, ttl: Time)
    requires Timely(ops, now)
    ensures Get(Run(ops, ttl), key, now).0 == Fresh(ops, key, now, ttl)
  {
    CacheAgreesWithLog(ops, key, now, ttl);
  }

  /** How many reads of a history were entitled to a result. */
  function EntitledReads(ops: seq<Op>, ttl: Time): nat
    decreases |ops|
  {
    if ops == [] then 0
    else
      var before, last := ops[..|ops| - 1], ops[|ops| - 1];
      EntitledReads(before, ttl) + if last.GetOp? && Fresh(before, last.key, last.now, ttl).Some? then 1 else 0
  }

  function Reads(ops: seq<Op>): nat
    decreases |ops|
  {
    if ops == [] then 0 else Reads(ops[..|ops| - 1]) + if ops[|ops| - 1].GetOp? then 1 else 0
  }

  /** The counters: hits are the reads that were entitled to a result, misses all the others. */
  lemma {:induction false} CountersCountReads(ops: seq<Op>, now: Time, ttl: Time)
    requires Timely(ops, now)
    ensures Run(ops, ttl).hits == EntitledReads(ops, ttl)
    ensures Run(ops, ttl).hits + Run(ops, ttl).misses == Reads(ops)
    decreases |ops|
  {
    if ops != [] {
      var before, last := ops[..|ops| - 1], ops[|ops| - 1];
      CountersCountReads(before, if last.ClearOp? then now else last.now, ttl);
      if last.GetOp? {
        GetIsFreshestStore(before, last.key, last.now, ttl);
      }
    }
  }
}
