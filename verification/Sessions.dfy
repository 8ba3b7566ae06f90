/** The registry of browser sessions. Expired records are swept lazily, whenever a session is
    created or resolved; a log of the operations says what that must not change. */
module Sessions {
  import opened Prelude

  type Token = string

  type Time = real

  datatype Record = Record(role: string, scopes: set<string>, expiresAt: Time)

  type Sessions = map<Token, Record>

  /** One operation with its clock readings: `start` is the first, `end` the last it takes. */
  datatype Op =
    | Create(token: Token, role: string, scopes: set<string>, expiresAt: Option<Time>, start: Time, end: Time)
    | Resolve(token: Token, start: Time, end: Time)
    | Revoke(token: Token)

  function Ttl(seconds: int): int {
    if seconds > 60 then seconds else 60
  }

  function NewRecord(op: Op, ttl: int): Record
    requires op.Create?
  {
    Record(op.role, op.scopes, if op.expiresAt.Some? then op.expiresAt.value else op.start + ttl as real)
  }

  function Sweep(s: Sessions, now: Time): Sessions {
    map token | token in s && s[token].expiresAt > now :: s[token]
  }

  /** What an operation answers: a record, or whether a revoked session was found. */
  datatype Answer = Found(record: Option<Record>) | Revoked(found: bool)

  function Apply(s: Sessions, op: Op, ttl: int): (Sessions, Answer) {
    match op
    case Create(token, _, _, _, _, now) =>
      (Sweep(s, now)[token := NewRecord(op, ttl)], Found(Some(NewRecord(op, ttl))))
    case Resolve(token, sweep, now) =>
      var s' := Sweep(s, sweep);
      if token !in s' || s'[token].expiresAt <= now then (s' - {token}, Found(None)) else (s', Found(Some(s'[token])))
    case Revoke(token) => (s - {token}, Revoked(token in s))
  }

  function Run(ops: seq<Op>, ttl: int): Sessions
    decreases |ops|
  {
    if ops == [] then map[] else Apply(Run(ops[..|ops| - 1], ttl), ops[|ops| - 1], ttl).0
  }

  // ---------------------------------------------------------------- the store, in place

  class SessionStore {
    const ttl: int
    var sessions: Sessions

    constructor (seconds: int)
      ensures ttl == Ttl(seconds) && sessions == map[]
      ensures ttl >= 60 && ttl >= seconds && ttl in {60, seconds}
    {
      ttl, sessions := Ttl(seconds), map[];
    }

    method SweepLocked(now: Time)
      modifies this
      ensures sessions == Sweep(old(sessions), now)
    {
      var expired := set token | token in sessions && sessions[token].expiresAt <= now;
      var todo := expired;
      while todo != {}
        invariant todo <= expired
        invariant forall token :: token in sessions <==> token in old(sessions) && token !in expired - todo
        invariant forall token :: token in sessions ==> sessions[token] == old(sessions)[token]
        decreases todo
      {
        var token :| token in todo;
        sessions := sessions - {token};
        todo := todo - {token};
      }
    }

    method CreateSession(token: Token, role: string, scopes: set<string>, expiresAt: Option<Time>, start: Time, end: Time)
      returns (record: Record)
      modifies this
      ensures (sessions, Found(Some(record))) == Apply(old(sessions), Create(token, role, scopes, expiresAt, start, end), ttl)
    {
      var expiry := if expiresAt.Some? then expiresAt.value else start + ttl as real;
      record := Record(role, scopes, expiry);
      SweepLocked(end);
      sessions := sessions[token := record];
    }

    method ResolveToken(token: Token, start: Time, end: Time) returns (record: Option<Record>)
      modifies this
      ensures (sessions, Found(record)) == Apply(old(sessions), Resolve(token, start, end), ttl)
    {
      SweepLocked(start);
      if token !in sessions || sessions[token].expiresAt <= end {
        sessions := sessions - {token};
        return None;
      }
      return Some(sessions[token]);
    }

    method RevokeToken(token: Token) returns (found: bool)
      modifies this
      ensures (sessions, Revoked(found)) == Apply(old(sessions), Revoke(token), ttl)
    {
      found := token in sessions;
      sessions := sessions - {token};
    }
  }

  // ---------------------------------------------------------------- the reference

  /** The record of the last creation of the token, unless it was revoked since. */
  function Granted(ops: seq<Op>, token: Token, ttl: int): Option<Record>
    decreases |ops|
  {
    if ops == [] then None
    else
      var before, last := ops[..|ops| - 1], ops[|ops| - 1];
      if last.Create? && last.token == token then Some(NewRecord(last, ttl))
      else if last.Revoke? && last.token == token then None
      else Granted(before, token, ttl)
  }

  /** The last moment since the token's creation at which the store looked for expired records
      that could include this one. */
  function LastLook(ops: seq<Op>, token: Token): Option<Time>
    decreases |ops|
  {
    if ops == [] then None
    else
      var before, last := ops[..|ops| - 1], ops[|ops| - 1];
      match last
      case Create(t, _, _, _, _, now) => if t == token then None else Some(now)
      case Resolve(t, sweep, now) => Some(if t == token then now else sweep)
      case Revoke(_) => LastLook(before, token)
  }

  /** The clock never runs backwards: `now` is not before any reading in the log. */
  predicate Timely(ops: seq<Op>, now: Time)
    decreases |ops|
  {
    if ops == [] then true
    else
      match ops[|ops| - 1]
      case Create(_, _, _, _, start, end) => start <= end <= now && Timely(ops[..|ops| - 1], start)
      case Resolve(_, start, end) => start <= end <= now && Timely(ops[..|ops| - 1], start)
      case Revoke(_) => Timely(ops[..|ops| - 1], now)
  }

  lemma {:induction false} TimelyLater(ops: seq<Op>, now: Time, later: Time)
    requires Timely(ops, now) && now <= later
    ensures Timely(ops, later)
    decreases |ops|
  {
    if ops != [] && ops[|ops| - 1].Revoke? {
      TimelyLater(ops[..|ops| - 1], now, later);
    }
  }

  lemma {:induction false} LookIsPast(ops: seq<Op>, token: Token, now: Time)
    requires Timely(ops, now)
    ensures LastLook(ops, token).Some? ==> LastLook(ops, token).value <= now
    decreases |ops|
  {
    if ops != [] && ops[|ops| - 1].Revoke? {
      LookIsPast(ops[..|ops| - 1], token, now);
    }
  }

  /** A token is kept exactly when it is granted and was not yet expired at the last look. */
  lemma {:induction false} KeptIffUnexpiredAtLastLook(ops: seq<Op>, token: Token, ttl: int, now: Time)
    requires Timely(ops, now)
    ensures var granted, look := Granted(ops, token, ttl), LastLook(ops, token);
      && (token in Run(ops, ttl) <==> granted.Some? && (look.Some? ==> look.value < granted.value.expiresAt))
      && (token in Run(ops, ttl) ==> granted == Some(Run(ops, ttl)[token]))
    decreases |ops|
  {
    if ops != [] {
      var before, last := ops[..|ops| - 1], ops[|ops| - 1];
      var earlier := if last.Revoke? then now else last.start;
      KeptIffUnexpiredAtLastLook(before, token, ttl, earlier);
      LookIsPast(before, token, earlier);
    }
  }

  /** Lazy sweeping cannot be seen through `resolve`: over every sequence of operations under a
      clock that does not run backwards it answers with a record exactly when the token was
      created with that record, not revoked since, and has not expired at this moment. */
  lemma ResolveSeesOnlyExpiry(ops: seq<Op>, token: Token, ttl: int, start: Time, end: Time)
    requires Timely(ops, start) && start <= end
    ensures var granted := Granted(ops, token, ttl);
      Apply(Run(ops, ttl), Resolve(token, start, end), ttl).1
      == Found(if granted.Some? && granted.value.expiresAt > end then granted else None)
  {
    KeptIffUnexpiredAtLastLook(ops, token, ttl, start);
    LookIsPast(ops, token, start);
  }

  /** It can be seen through the answer of `revoke`: that is true exactly when the token is
      granted and no look has come at or after its expiry. */
  lemma RevokeTellsWhetherSwept(ops: seq<Op>, token: Token, ttl: int, now: Time)
    requires Timely(ops, now)
    ensures var granted, look := Granted(ops, token, ttl), LastLook(ops, token);
      Apply(Run(ops, ttl), Revoke(token), ttl).1
      == Revoked(granted.Some? && (look.Some? ==> look.value < granted.value.expiresAt))
  {
    KeptIffUnexpiredAtLastLook(ops, token, ttl, now);
  }

  /** Two logs that grant the same, asked at the same moment after expiry, for any two tokens:
      resolving finds nothing either way, revoking tells them apart. */
  lemma RevokeIsNotAFunctionOfTheGrant(token: Token, other: Token, expiry: Time)
    requires token != other
    ensures var create := Create(token, "admin", {}, Some(expiry), expiry - 1.0, expiry - 1.0);
      var quiet, busy := [create], [create, Resolve(other, expiry, expiry)];
      && Granted(quiet, token, 60) == Granted(busy, token, 60)
      && Apply(Run(quiet, 60), Resolve(token, expiry, expiry), 60).1 == Found(None)
      && Apply(Run(busy, 60), Resolve(token, expiry, expiry), 60).1 == Found(None)
      && Apply(Run(quiet, 60), Revoke(token), 60).1 == Revoked(true)
      && Apply(Run(busy, 60), Revoke(token), 60).1 == Revoked(false)
  {
    var create := Create(token, "admin", {}, Some(expiry), expiry - 1.0, expiry - 1.0);
    var quiet, busy := [create], [create, Resolve(other, expiry, expiry)];
    assert quiet[..0] == [] && busy[..1] == quiet;
    assert Granted(quiet, token, 60) == Some(NewRecord(create, 60));
    assert Granted(busy, token, 60) == Granted(quiet, token, 60);
    assert LastLook(quiet, token) == None && LastLook(busy, token) == Some(expiry);
    assert Timely(quiet, expiry) && Timely(busy, expiry);
    RevokeTellsWhetherSwept(quiet, token, 60, expiry);
    RevokeTellsWhetherSwept(busy, token, 60, expiry);
    ResolveSeesOnlyExpiry(quiet, token, 60, expiry, expiry);
    ResolveSeesOnlyExpiry(busy, token, 60, expiry, expiry);
  }
}
