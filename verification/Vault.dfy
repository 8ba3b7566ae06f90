/** The credential vault: key resolution with an exclusive-create race between concurrent
    boots, and encryption of stored credentials in place.

    The cipher is any pair of functions obeying one law: decrypting with the key that
    encrypted gives the plaintext back. `Step` interleaves the file operations of any number
    of booting processes; creating the key file and writing the key into it are separate. */
module Vault {
  import opened Prelude
  import opened Text

  type Key = string

  /** `nonce` stands for the random part of a token. */
  datatype Cipher = Cipher(encrypt: (Key, nat, string) -> string, decrypt: (Key, string) -> Option<string>)

  ghost predicate Lawful(c: Cipher) {
    forall k, n, p :: c.decrypt(k, c.encrypt(k, n, p)) == Some(p)
  }

  datatype VaultError = BadExplicitKey | BadKeyFile | KeyFileExists | KeyLost | BadToken | NoCodec

  const ENC_PREFIX: string := "encv1:"

  predicate IsCiphertext(stored: string) {
    ENC_PREFIX <= stored
  }

  function Encrypt(c: Cipher, k: Key, nonce: nat, plaintext: string): string {
    ENC_PREFIX + c.encrypt(k, nonce, plaintext)
  }

  function Decrypt(c: Cipher, k: Key, stored: string): Result<string, VaultError> {
    if !IsCiphertext(stored) then Ok(stored)
    else match c.decrypt(k, stored[|ENC_PREFIX|..])
      case Some(text) => Ok(text)
      case None => Err(BadToken)
  }

  // ---------------------------------------------------------------- stored credentials

  datatype Row = Row(password: Option<string>, privateKey: Option<string>)

  function MigrateField(c: Cipher, k: Key, nonce: nat, raw: Option<string>): Option<string> {
    if raw.Some? && !IsCiphertext(raw.value) then Some(Encrypt(c, k, nonce, raw.value)) else raw
  }

  function MigrateRow(c: Cipher, k: Key, nonce: nat, row: Row): Row {
    Row(MigrateField(c, k, nonce, row.password), MigrateField(c, k, nonce + 1, row.privateKey))
  }

  /** Every field draws its own nonce. */
  function Migrated(c: Cipher, k: Key, nonce: nat, rows: seq<Row>): seq<Row> {
    seq(|rows|, i requires 0 <= i < |rows| => MigrateRow(c, k, nonce + 2 * i, rows[i]))
  }

  function PlainFields(row: Row): nat {
    (if row.password.Some? && !IsCiphertext(row.password.value) then 1 else 0)
    + (if row.privateKey.Some? && !IsCiphertext(row.privateKey.value) then 1 else 0)
  }

  function CountPlain(rows: seq<Row>): nat {
    if rows == [] then 0 else CountPlain(rows[..|rows| - 1]) + PlainFields(rows[|rows| - 1])
  }

  function DecodeField(c: Cipher, k: Key, stored: Option<string>): Result<Option<string>, VaultError> {
    if stored.None? then Ok(None)
    else match Decrypt(c, k, stored.value)
      case Ok(text) => Ok(Some(text))
      case Err(e) => Err(e)
  }

  /** Migration changes no decrypted value, legacy plaintext included, leaves nothing in
      plaintext, and has nothing left to do when it is run again with any nonces. */
  lemma MigrationPreservesValues(c: Cipher, k: Key, nonce: nat, rows: seq<Row>)
    requires Lawful(c)
    ensures var after := Migrated(c, k, nonce, rows);
      && |after| == |rows|
      && (forall i :: 0 <= i < |rows| ==>
            && DecodeField(c, k, after[i].password) == DecodeField(c, k, rows[i].password)
            && DecodeField(c, k, after[i].privateKey) == DecodeField(c, k, rows[i].privateKey)
            && (after[i].password.Some? ==> IsCiphertext(after[i].password.value))
            && (after[i].privateKey.Some? ==> IsCiphertext(after[i].privateKey.value)))
      && (forall again :: Migrated(c, k, again, after) == after)
      && CountPlain(after) == 0
  {
    var after := Migrated(c, k, nonce, rows);
    forall i | 0 <= i < |rows|
      ensures
        && DecodeField(c, k, after[i].password) == DecodeField(c, k, rows[i].password)
        && DecodeField(c, k, after[i].privateKey) == DecodeField(c, k, rows[i].privateKey)
        && (after[i].password.Some? ==> IsCiphertext(after[i].password.value))
        && (after[i].privateKey.Some? ==> IsCiphertext(after[i].privateKey.value))
    {
      MigratedFieldReadsBack(c, k, nonce + 2 * i, rows[i].password);
      MigratedFieldReadsBack(c, k, nonce + 2 * i + 1, rows[i].privateKey);
    }
    NothingPlainCountsZero(after);
  }

  lemma {:induction false} NothingPlainCountsZero(rows: seq<Row>)
    requires forall i :: 0 <= i < |rows| ==> PlainFields(rows[i]) == 0
    ensures CountPlain(rows) == 0
  {
    if rows != [] {
      NothingPlainCountsZero(rows[..|rows| - 1]);
    }
  }

  lemma MigratedFieldReadsBack(c: Cipher, k: Key, nonce: nat, raw: Option<string>)
    requires Lawful(c)
    ensures var after := MigrateField(c, k, nonce, raw);
      && DecodeField(c, k, after) == DecodeField(c, k, raw)
      && (after.Some? ==> IsCiphertext(after.value))
      && (after.Some? <==> raw.Some?)
  {
    if raw.Some? && !IsCiphertext(raw.value) {
      EncryptReadsBack(c, k, nonce, raw.value);
    }
  }

  lemma EncryptReadsBack(c: Cipher, k: Key, nonce: nat, p: string)
    requires Lawful(c)
    ensures IsCiphertext(Encrypt(c, k, nonce, p))
    ensures Decrypt(c, k, Encrypt(c, k, nonce, p)) == Ok(p)
  {
    var stored := Encrypt(c, k, nonce, p);
    assert stored[|ENC_PREFIX|..] == c.encrypt(k, nonce, p);
  }

  /** A legacy value that happens to start with the marker is taken for ciphertext and not
      rewritten. It still reads as itself exactly when it has no marker, or the cipher happens
      to decrypt what follows the marker to the whole value. */
  lemma LegacyValueWithMarkerIsNotMigrated(c: Cipher, k: Key, nonce: nat, raw: string)
    requires Lawful(c)
    ensures MigrateField(c, k, nonce, Some(raw)) != Some(raw) <==> !IsCiphertext(raw)
    ensures DecodeField(c, k, MigrateField(c, k, nonce, Some(raw))) == Ok(Some(raw)) <==>
              !IsCiphertext(raw) || c.decrypt(k, raw[|ENC_PREFIX|..]) == Some(raw)
  {
    EncryptReadsBack(c, k, nonce, raw);
  }

  // ---------------------------------------------------------------- one boot

  /** The key file: absent, created but never written, holding a key, or holding something
      that is no key. */
  datatype KeyFile = Absent | Blank | Holds(key: Key) | Corrupt

  datatype Explicit = NotSet | Malformed | Given(key: Key)

  /** What one call brings along: the key derived from SECRET_KEY, if any, and the random
      key it would generate. `routers` tells `ensure_credential_vault` (true), which consults
      and migrates the router rows, from `ensure_vault_key` (false). */
  datatype Settings = Settings(explicit: Explicit, derived: Option<Key>, generated: Key, routers: bool)

  function ReadKeyFile(file: KeyFile): Result<Option<Key>, VaultError> {
    match file
    case Absent => Ok(None)
    case Blank => Ok(None)
    case Holds(k) => Ok(Some(k))
    case Corrupt => Err(BadKeyFile)
  }

  /** SQL's LIKE with the marker as its fixed part ignores the case of ASCII letters. */
  predicate LikeCiphertext(stored: string) {
    && |stored| >= |ENC_PREFIX|
    && forall i :: 0 <= i < |ENC_PREFIX| ==> LowerAscii(stored[i]) == ENC_PREFIX[i]
  }

  predicate HasEncrypted(rows: seq<Row>) {
    exists i :: 0 <= i < |rows| &&
      ((rows[i].password.Some? && LikeCiphertext(rows[i].password.value)) ||
       (rows[i].privateKey.Some? && LikeCiphertext(rows[i].privateKey.value)))
  }

  /** Which key this call would try to put into a new key file. */
  function Candidate(settings: Settings, rows: seq<Row>): Result<Key, VaultError> {
    if settings.derived.Some? then Ok(settings.derived.value)
    else if settings.routers && HasEncrypted(rows) then Err(KeyLost)
    else Ok(settings.generated)
  }

  function PersistKey(file: KeyFile, key: Key): (Result<Key, VaultError>, KeyFile) {
    if file.Absent? then (Ok(key), Holds(key))
    else match ReadKeyFile(file)
      case Ok(Some(existing)) => (Ok(existing), file)
      case Ok(None) => (Err(KeyFileExists), file)
      case Err(e) => (Err(e), file)
  }

  /** Key resolution when nobody interferes. */
  function Resolve(file: KeyFile, rows: seq<Row>, settings: Settings): (Result<Key, VaultError>, KeyFile) {
    match settings.explicit
    case Malformed => (Err(BadExplicitKey), file)
    case Given(k) => (Ok(k), file)
    case NotSet =>
      match ReadKeyFile(file)
      case Err(e) => (Err(e), file)
      case Ok(Some(k)) => (Ok(k), file)
      case Ok(None) =>
        match Candidate(settings, rows)
        case Err(e) => (Err(e), file)
        case Ok(key) => PersistKey(file, key)
  }

  /** Explicit before persisted before derived before generated. */
  function Preferred(file: KeyFile, settings: Settings): Key {
    if settings.explicit.Given? then settings.explicit.key
    else if file.Holds? then file.key
    else if settings.derived.Some? then settings.derived.value
    else settings.generated
  }

  /** Exactly when an undisturbed boot refuses to start and why, that it uses the preferred key
      otherwise, and that a refused boot leaves the key file alone while a successful one
      without AUTH_VAULT_KEY ends with its key in it. */
  lemma WhenABootFails(file: KeyFile, rows: seq<Row>, settings: Settings)
    ensures var (key, after) := Resolve(file, rows, settings);
      && (key.Err? <==>
            || settings.explicit.Malformed?
            || (settings.explicit.NotSet? &&
                (file.Corrupt? || file.Blank?
                 || (file.Absent? && settings.derived.None? && settings.routers && HasEncrypted(rows)))))
      && (key.Err? ==>
            if settings.explicit.Malformed? then key.error.BadExplicitKey?
            else if file.Corrupt? then key.error.BadKeyFile?
            else if settings.derived.None? && settings.routers && HasEncrypted(rows) then key.error.KeyLost?
            else key.error.KeyFileExists?)
      && (key.Err? || settings.explicit.Given? ==> after == file)
      && (key.Ok? && settings.explicit.NotSet? ==> after == Holds(key.value))
      && (key.Ok? ==> key.value == Preferred(file, settings))
  {}

  predicate SameLetter(a: char, b: char) {
    || a == b
    || ('A' <= a <= 'Z' && b == a + 32 as char)
    || ('A' <= b <= 'Z' && a == b + 32 as char)
  }

  /** The text begins with the marker, in letters of any case. */
  predicate MarkedInAnyCase(stored: Option<string>) {
    && stored.Some?
    && |stored.value| >= |ENC_PREFIX|
    && forall i :: 0 <= i < |ENC_PREFIX| ==> SameLetter(stored.value[i], ENC_PREFIX[i])
  }

  lemma LikeIsMarkedInAnyCase(stored: string)
    ensures LikeCiphertext(stored) <==> MarkedInAnyCase(Some(stored))
  {
    assert forall i :: 0 <= i < |ENC_PREFIX| ==> !('A' <= ENC_PREFIX[i] <= 'Z');
  }

  /** Nothing says what the key is, and no key file does. */
  predicate Keyless(settings: Settings) {
    settings.explicit.NotSet? && settings.derived.None?
  }

  /** Without a key from anywhere a boot that consults the router rows refuses, leaving the key file
      absent, if and only if some stored password or some stored private key begins with the marker
      in any case, as every ciphertext does; otherwise, and if it does not consult the rows at
      all, it makes a key of its own. */
  lemma EncryptedFieldRefusesNewKey(rows: seq<Row>, settings: Settings)
    requires Keyless(settings)
    ensures Resolve(Absent, rows, settings) ==
            if settings.routers && exists i :: 0 <= i < |rows| && (MarkedInAnyCase(rows[i].password) || MarkedInAnyCase(rows[i].privateKey))
            then (Err(KeyLost), Absent)
            else (Ok(settings.generated), Holds(settings.generated))
    ensures forall stored: string :: IsCiphertext(stored) ==> MarkedInAnyCase(Some(stored))
  {
    forall stored: string
      ensures LikeCiphertext(stored) <==> MarkedInAnyCase(Some(stored))
    {
      LikeIsMarkedInAnyCase(stored);
    }
    forall stored: string | IsCiphertext(stored)
      ensures MarkedInAnyCase(Some(stored))
    {
      assert stored[..|ENC_PREFIX|] == ENC_PREFIX;
    }
  }

  // ---------------------------------------------------------------- concurrent boots

  type Pid = nat

  datatype Process =
    | Starting(settings: Settings)
    | Unkeyed(settings: Settings)
    | Creating(candidate: Key, routers: bool)
    | Writing(candidate: Key, routers: bool)
    | Rereading(routers: bool)
    | Keyed(key: Key, routers: bool)
    | Serving(key: Key)
    | Refused(error: VaultError)
    | Crashed

  /** `saved` holds, row by row, the plaintext that was last saved. */
  datatype World = World(file: KeyFile, rows: seq<Row>, saved: seq<Row>, processes: map<Pid, Process>)

  datatype Event =
    | Boot(pid: Pid, settings: Settings)
    | Advance(pid: Pid, nonce: nat)
    | Crash(pid: Pid)
    | Save(pid: Pid, index: nat, plain: Row, nonce: nat)

  predicate HasKey(p: Process) {
    p.Keyed? || p.Serving?
  }

  function AfterRead(settings: Settings, found: Result<Option<Key>, VaultError>): Process {
    match found
    case Err(e) => Refused(e)
    case Ok(Some(k)) => Keyed(k, settings.routers)
    case Ok(None) => Unkeyed(settings)
  }

  /** One atomic operation of one process. */
  function Move(c: Cipher, w: World, pid: Pid, nonce: nat): World
    requires pid in w.processes
  {
    var file, next := w.file, p => w.(processes := w.processes[pid := p]);
    match w.processes[pid]
    case Starting(settings) =>
      (match settings.explicit
       case Malformed => next(Refused(BadExplicitKey))
       case Given(k) => next(Keyed(k, settings.routers))
       case NotSet => next(AfterRead(settings, ReadKeyFile(file))))
    case Unkeyed(settings) =>
      (match Candidate(settings, w.rows)
       case Err(e) => next(Refused(e))
       case Ok(k) => next(Creating(k, settings.routers)))
    case Creating(k, routers) =>
      if file.Absent? then next(Writing(k, routers)).(file := Blank) else next(Rereading(routers))
    case Writing(k, routers) => next(Keyed(k, routers)).(file := Holds(k))
    case Rereading(routers) =>
      (match ReadKeyFile(file)
       case Err(e) => next(Refused(e))
       case Ok(Some(k)) => next(Keyed(k, routers))
       case Ok(None) => next(Refused(KeyFileExists)))
    case Keyed(k, routers) =>
      if routers then next(Serving(k)).(rows := Migrated(c, k, nonce, w.rows)) else next(Serving(k))
    case _ => w
  }

  function EncodeField(c: Cipher, k: Key, nonce: nat, plain: Option<string>): Option<string> {
    if plain.None? then None else Some(Encrypt(c, k, nonce, plain.value))
  }

  function EncodeRow(c: Cipher, k: Key, nonce: nat, plain: Row): Row {
    Row(EncodeField(c, k, nonce, plain.password), EncodeField(c, k, nonce + 1, plain.privateKey))
  }

  function Put<T>(s: seq<T>, i: nat, x: T): seq<T> {
    if i < |s| then s[i := x] else s + [x]
  }

  function Step(c: Cipher, w: World, e: Event): World {
    match e
    case Boot(pid, settings) =>
      if pid in w.processes then w else w.(processes := w.processes[pid := Starting(settings)])
    case Advance(pid, nonce) => if pid in w.processes then Move(c, w, pid, nonce) else w
    case Crash(pid) => if pid in w.processes then w.(processes := w.processes[pid := Crashed]) else w
    case Save(pid, i, plain, nonce) =>
      if pid in w.processes && w.processes[pid].Serving? then
        w.(rows := Put(w.rows, i, EncodeRow(c, w.processes[pid].key, nonce, plain)), saved := Put(w.saved, i, plain))
      else w
  }

  function Run(c: Cipher, w: World, es: seq<Event>): World
    decreases |es|
  {
    if es == [] then w else Step(c, Run(c, w, es[..|es| - 1]), es[|es| - 1])
  }

  /** Every boot of the run sees the same AUTH_VAULT_KEY; SECRET_KEY may differ each time. */
  predicate SameExplicit(es: seq<Event>, explicit: Explicit) {
    forall i :: 0 <= i < |es| && es[i].Boot? ==> es[i].settings.explicit == explicit
  }

  /** The key in force: the explicit one, else the one in the key file. */
  function KeyInForce(w: World, explicit: Explicit): Option<Key> {
    match explicit
    case Given(k) => Some(k)
    case Malformed => None
    case NotSet => if w.file.Holds? then Some(w.file.key) else None
  }

  predicate FieldReads(c: Cipher, key: Option<Key>, stored: Option<string>, plain: Option<string>) {
    match stored
    case None => plain.None?
    case Some(raw) =>
      if IsCiphertext(raw) then key.Some? && plain.Some? && Decrypt(c, key.value, raw) == Ok(plain.value)
      else plain == Some(raw)
  }

  predicate RowReads(c: Cipher, key: Option<Key>, stored: Row, plain: Row) {
    FieldReads(c, key, stored.password, plain.password) && FieldReads(c, key, stored.privateKey, plain.privateKey)
  }

  predicate StoreReads(c: Cipher, key: Option<Key>, rows: seq<Row>, saved: seq<Row>) {
    |rows| == |saved| && forall i :: 0 <= i < |rows| ==> RowReads(c, key, rows[i], saved[i])
  }

  predicate ProcessSound(w: World, explicit: Explicit, p: Process) {
    match p
    case Starting(settings) => settings.explicit == explicit
    case Unkeyed(_) => explicit.NotSet?
    case Creating(_, _) => explicit.NotSet?
    case Rereading(_) => explicit.NotSet?
    case Writing(_, _) => explicit.NotSet? && w.file.Blank?
    case Keyed(k, _) => KeyInForce(w, explicit) == Some(k)
    case Serving(k) => KeyInForce(w, explicit) == Some(k)
    case _ => true
  }

  predicate OneWriter(w: World) {
    forall p, q :: p in w.processes && q in w.processes && w.processes[p].Writing? && w.processes[q].Writing? ==> p == q
  }

  /** Keys alone: whatever the database holds. */
  predicate KeysSound(w: World, explicit: Explicit) {
    OneWriter(w) && forall p :: p in w.processes ==> ProcessSound(w, explicit, w.processes[p])
  }

  predicate Invariant(c: Cipher, w: World, explicit: Explicit) {
    KeysSound(w, explicit) && StoreReads(c, KeyInForce(w, explicit), w.rows, w.saved)
  }

  lemma MigrationKeepsReads(c: Cipher, k: Key, nonce: nat, rows: seq<Row>, saved: seq<Row>)
    requires Lawful(c) && StoreReads(c, Some(k), rows, saved)
    ensures StoreReads(c, Some(k), Migrated(c, k, nonce, rows), saved)
  {
    forall i | 0 <= i < |rows|
      ensures RowReads(c, Some(k), Migrated(c, k, nonce, rows)[i], saved[i])
    {
      assert RowReads(c, Some(k), rows[i], saved[i]);
      MigratedFieldReadsBack(c, k, nonce + 2 * i, rows[i].password);
      MigratedFieldReadsBack(c, k, nonce + 2 * i + 1, rows[i].privateKey);
    }
  }

  lemma SaveKeepsReads(c: Cipher, k: Key, nonce: nat, i: nat, plain: Row, rows: seq<Row>, saved: seq<Row>)
    requires Lawful(c) && StoreReads(c, Some(k), rows, saved)
    ensures StoreReads(c, Some(k), Put(rows, i, EncodeRow(c, k, nonce, plain)), Put(saved, i, plain))
  {
    if plain.password.Some? {
      EncryptReadsBack(c, k, nonce, plain.password.value);
    }
    if plain.privateKey.Some? {
      EncryptReadsBack(c, k, nonce + 1, plain.privateKey.value);
    }
    assert RowReads(c, Some(k), EncodeRow(c, k, nonce, plain), plain);
  }

  lemma StepKeepsKeys(c: Cipher, w: World, explicit: Explicit, e: Event)
    requires KeysSound(w, explicit)
    requires e.Boot? ==> e.settings.explicit == explicit
    ensures KeysSound(Step(c, w, e), explicit)
    ensures KeyInForce(w, explicit).Some? ==> KeyInForce(Step(c, w, e), explicit) == KeyInForce(w, explicit)
  {
    var w' := Step(c, w, e);
    assert !e.Save? && e.pid in w.processes ==> ProcessSound(w, explicit, w.processes[e.pid]);
    forall q | q in w'.processes
      ensures ProcessSound(w', explicit, w'.processes[q])
    {
      if q in w.processes {
        assert ProcessSound(w, explicit, w.processes[q]);
      }
    }
  }

  lemma {:induction false} RunKeepsKeys(c: Cipher, w: World, explicit: Explicit, es: seq<Event>)
    requires KeysSound(w, explicit) && SameExplicit(es, explicit)
    ensures KeysSound(Run(c, w, es), explicit)
    ensures KeyInForce(w, explicit).Some? ==> KeyInForce(Run(c, w, es), explicit) == KeyInForce(w, explicit)
    decreases |es|
  {
    if es != [] {
      RunKeepsKeys(c, w, explicit, es[..|es| - 1]);
      StepKeepsKeys(c, Run(c, w, es[..|es| - 1]), explicit, es[|es| - 1]);
    }
  }

  /** Any number of processes booting at once without AUTH_VAULT_KEY, stopped and resumed
      anywhere and crashing anywhere, over any database, whatever its rows hold and whatever
      the cipher does: all that come away with a key have the same one, the key file holds
      it, and a key that was in the file at the outset is that key. */
  lemma ConcurrentBootsAgree(c: Cipher, start: World, es: seq<Event>)
    requires start.processes == map[] && SameExplicit(es, NotSet)
    ensures var w := Run(c, start, es);
      && (forall p :: p in w.processes && HasKey(w.processes[p]) ==> w.file == Holds(w.processes[p].key))
      && (start.file.Holds? ==> w.file == start.file)
  {
    var w := Run(c, start, es);
    RunKeepsKeys(c, start, NotSet, es);
    forall p | p in w.processes && HasKey(w.processes[p])
      ensures w.file == Holds(w.processes[p].key)
    {
      assert ProcessSound(w, NotSet, w.processes[p]);
    }
  }

  /** Rows that read under `k` still do after any operation, if whoever has a key has `k`. */
  lemma StepKeepsReads(c: Cipher, w: World, k: Key, e: Event)
    requires Lawful(c) && StoreReads(c, Some(k), w.rows, w.saved)
    requires forall p :: p in w.processes && HasKey(w.processes[p]) ==> w.processes[p].key == k
    ensures StoreReads(c, Some(k), Step(c, w, e).rows, Step(c, w, e).saved)
  {
    match e
    case Advance(pid, nonce) =>
      MigrationKeepsReads(c, k, nonce, w.rows, w.saved);
    case Save(pid, i, plain, nonce) =>
      SaveKeepsReads(c, k, nonce, i, plain, w.rows, w.saved);
    case _ =>
  }

  /** A key once in force stays in force, and no operation spoils what reads under it. */
  lemma StepKeepsInvariant(c: Cipher, w: World, explicit: Explicit, e: Event)
    requires Lawful(c) && Invariant(c, w, explicit)
    requires e.Boot? ==> e.settings.explicit == explicit
    ensures Invariant(c, Step(c, w, e), explicit)
    ensures KeyInForce(w, explicit).Some? ==> KeyInForce(Step(c, w, e), explicit) == KeyInForce(w, explicit)
  {
    hide StoreReads, OneWriter;
    StepKeepsKeys(c, w, explicit, e);
    forall p | p in w.processes && HasKey(w.processes[p])
      ensures KeyInForce(w, explicit) == Some(w.processes[p].key)
    {
      assert ProcessSound(w, explicit, w.processes[p]);
    }
    if KeyInForce(w, explicit).Some? {
      StepKeepsReads(c, w, KeyInForce(w, explicit).value, e);
    } else {
      assert Step(c, w, e).rows == w.rows && Step(c, w, e).saved == w.saved;
      NoKeyReadsAnyKey(c, KeyInForce(Step(c, w, e), explicit), w.rows, w.saved);
    }
  }

  /** What reads without a key is plaintext and reads under every key. */
  lemma NoKeyReadsAnyKey(c: Cipher, key: Option<Key>, rows: seq<Row>, saved: seq<Row>)
    requires StoreReads(c, None, rows, saved)
    ensures StoreReads(c, key, rows, saved)
  {
    forall i | 0 <= i < |rows|
      ensures RowReads(c, key, rows[i], saved[i])
    {
      assert RowReads(c, None, rows[i], saved[i]);
    }
  }

  lemma {:induction false} RunKeepsInvariant(c: Cipher, w: World, explicit: Explicit, es: seq<Event>)
    requires Lawful(c) && Invariant(c, w, explicit) && SameExplicit(es, explicit)
    ensures Invariant(c, Run(c, w, es), explicit)
    ensures KeyInForce(w, explicit).Some? ==> KeyInForce(Run(c, w, es), explicit) == KeyInForce(w, explicit)
    decreases |es|
  {
    if es != [] {
      RunKeepsInvariant(c, w, explicit, es[..|es| - 1]);
      StepKeepsInvariant(c, Run(c, w, es[..|es| - 1]), explicit, es[|es| - 1]);
    }
  }

  /** The long run: boots, saves, migrations and crashes in any interleaving, SECRET_KEY free to
      change, AUTH_VAULT_KEY fixed, key file never removed. If what is stored at the outset
      reads under the key in force (plaintext rows always do), then at every moment every
      process with a key has the key in force, that key never changes once there is one,
      and every credential decrypts to the plaintext last saved. */
  lemma CredentialsSurviveEveryRun(c: Cipher, start: World, explicit: Explicit, past: seq<Event>, es: seq<Event>)
    requires Lawful(c) && SameExplicit(past + es, explicit)
    requires start.processes == map[] && StoreReads(c, KeyInForce(start, explicit), start.rows, start.saved)
    ensures var earlier := Run(c, start, past);
      var w := Run(c, earlier, es);
      && (forall p :: p in w.processes && HasKey(w.processes[p]) ==>
            KeyInForce(w, explicit) == Some(w.processes[p].key))
      && (forall p :: p in earlier.processes && HasKey(earlier.processes[p]) ==>
            KeyInForce(w, explicit) == Some(earlier.processes[p].key))
      && |w.rows| == |w.saved|
      && (forall i, p :: 0 <= i < |w.rows| && p in w.processes && HasKey(w.processes[p]) ==>
            && DecodeField(c, w.processes[p].key, w.rows[i].password) == Ok(w.saved[i].password)
            && DecodeField(c, w.processes[p].key, w.rows[i].privateKey) == Ok(w.saved[i].privateKey))
  {
    var earlier := Run(c, start, past);
    assert forall i :: 0 <= i < |past| ==> (past + es)[i] == past[i];
    assert forall i :: 0 <= i < |es| ==> (past + es)[|past| + i] == es[i];
    RunKeepsInvariant(c, start, explicit, past);
    RunKeepsInvariant(c, earlier, explicit, es);
    var w := Run(c, earlier, es);
    forall p | p in w.processes && HasKey(w.processes[p])
      ensures KeyInForce(w, explicit) == Some(w.processes[p].key)
    {
      assert ProcessSound(w, explicit, w.processes[p]);
    }
    forall p | p in earlier.processes && HasKey(earlier.processes[p])
      ensures KeyInForce(w, explicit) == Some(earlier.processes[p].key)
    {
      assert ProcessSound(earlier, explicit, earlier.processes[p]);
    }
    forall i, p | 0 <= i < |w.rows| && p in w.processes && HasKey(w.processes[p])
      ensures DecodeField(c, w.processes[p].key, w.rows[i].password) == Ok(w.saved[i].password)
      ensures DecodeField(c, w.processes[p].key, w.rows[i].privateKey) == Ok(w.saved[i].privateKey)
    {
      assert RowReads(c, KeyInForce(w, explicit), w.rows[i], w.saved[i]);
    }
  }

  // ---------------------------------------------------------------- the key file is lost

  predicate DerivesOnly(k: Key, settings: Settings) {
    settings.explicit.NotSet? && settings.derived == Some(k)
  }

  /** Nobody holds, or is about to write, any other key than `k`. */
  predicate OnlyKey(k: Key, w: World) {
    && (w.file.Holds? ==> w.file.key == k)
    && forall p :: p in w.processes ==>
         match w.processes[p]
         case Starting(settings) => DerivesOnly(k, settings)
         case Unkeyed(settings) => DerivesOnly(k, settings)
         case Creating(candidate, _) => candidate == k
         case Writing(candidate, _) => candidate == k
         case Keyed(key, _) => key == k
         case Serving(key) => key == k
         case _ => true
  }

  lemma StepKeepsOnlyKey(c: Cipher, k: Key, w: World, e: Event)
    requires OnlyKey(k, w) && (e.Boot? ==> DerivesOnly(k, e.settings))
    ensures OnlyKey(k, Step(c, w, e))
    ensures forall p :: p in w.processes && HasKey(w.processes[p]) ==> w.processes[p].key == k
  {}

  lemma {:induction false} RunKeepsOnlyKey(c: Cipher, k: Key, w: World, es: seq<Event>)
    requires Lawful(c) && OnlyKey(k, w) && StoreReads(c, Some(k), w.rows, w.saved)
    requires forall i :: 0 <= i < |es| && es[i].Boot? ==> DerivesOnly(k, es[i].settings)
    ensures OnlyKey(k, Run(c, w, es)) && StoreReads(c, Some(k), Run(c, w, es).rows, Run(c, w, es).saved)
    decreases |es|
  {
    hide StoreReads, OnlyKey;
    if es != [] {
      var w' := Run(c, w, es[..|es| - 1]);
      RunKeepsOnlyKey(c, k, w, es[..|es| - 1]);
      StepKeepsOnlyKey(c, k, w', es[|es| - 1]);
      StepKeepsReads(c, w', k, es[|es| - 1]);
    }
  }

  /** An encrypted database whose key file is gone: as long as every boot derives the key the
      rows were encrypted under, any number of boots at once bring exactly that key back,
      and every credential decrypts to the plaintext last saved. */
  lemma DerivedKeyRecoversCredentials(c: Cipher, k: Key, start: World, es: seq<Event>)
    requires Lawful(c) && start.processes == map[] && start.file.Absent?
    requires StoreReads(c, Some(k), start.rows, start.saved)
    requires forall i :: 0 <= i < |es| && es[i].Boot? ==> DerivesOnly(k, es[i].settings)
    ensures var w := Run(c, start, es);
      && (forall p :: p in w.processes && HasKey(w.processes[p]) ==> w.processes[p].key == k)
      && (w.file.Holds? ==> w.file.key == k)
      && |w.rows| == |w.saved|
      && (forall i :: 0 <= i < |w.rows| ==>
            && DecodeField(c, k, w.rows[i].password) == Ok(w.saved[i].password)
            && DecodeField(c, k, w.rows[i].privateKey) == Ok(w.saved[i].privateKey))
  {
    var w := Run(c, start, es);
    RunKeepsOnlyKey(c, k, start, es);
    forall i | 0 <= i < |w.rows|
      ensures DecodeField(c, k, w.rows[i].password) == Ok(w.saved[i].password)
      ensures DecodeField(c, k, w.rows[i].privateKey) == Ok(w.saved[i].privateKey)
    {
      assert RowReads(c, Some(k), w.rows[i], w.saved[i]);
    }
  }

  /** Some password or private key is ciphertext. */
  predicate HoldsCiphertext(rows: seq<Row>) {
    exists i :: 0 <= i < |rows| &&
      ((rows[i].password.Some? && IsCiphertext(rows[i].password.value)) ||
       (rows[i].privateKey.Some? && IsCiphertext(rows[i].privateKey.value)))
  }

  /** Nobody has a key or is about to write one. */
  predicate KeylessWorld(w: World) {
    && w.file.Absent?
    && forall p :: p in w.processes ==>
         match w.processes[p]
         case Starting(settings) => Keyless(settings) && settings.routers
         case Unkeyed(settings) => Keyless(settings) && settings.routers
         case Refused(_) => true
         case Crashed => true
         case _ => false
  }

  lemma StepStaysKeyless(c: Cipher, w: World, e: Event)
    requires KeylessWorld(w) && HoldsCiphertext(w.rows)
    requires e.Boot? ==> Keyless(e.settings) && e.settings.routers
    ensures KeylessWorld(Step(c, w, e)) && Step(c, w, e).rows == w.rows && Step(c, w, e).saved == w.saved
  {
    hide HasEncrypted, HoldsCiphertext;
    if e.Advance? && e.pid in w.processes && w.processes[e.pid].Unkeyed? {
      CiphertextIsSeen(w.rows);
      assert Candidate(w.processes[e.pid].settings, w.rows).Err?;
    }
  }

  lemma CiphertextIsSeen(rows: seq<Row>)
    requires HoldsCiphertext(rows)
    ensures HasEncrypted(rows)
  {
    forall stored: string | IsCiphertext(stored)
      ensures LikeCiphertext(stored)
    {
      assert stored[..|ENC_PREFIX|] == ENC_PREFIX;
    }
  }

  /** An encrypted database whose key file is gone, and boots that bring no key: none of them, however
      many and however interleaved, ever writes a key file, gets a key or changes a row. */
  lemma {:induction false} LostKeyIsNeverReplaced(c: Cipher, start: World, es: seq<Event>)
    requires KeylessWorld(start) && HoldsCiphertext(start.rows)
    requires forall i :: 0 <= i < |es| && es[i].Boot? ==> Keyless(es[i].settings) && es[i].settings.routers
    ensures var w := Run(c, start, es);
      && KeylessWorld(w)
      && w.file.Absent? && w.rows == start.rows && w.saved == start.saved
      && (forall p :: p in w.processes ==> !HasKey(w.processes[p]))
    decreases |es|
  {
    if es != [] {
      hide HoldsCiphertext, Step, KeylessWorld;
      LostKeyIsNeverReplaced(c, start, es[..|es| - 1]);
      StepStaysKeyless(c, Run(c, start, es[..|es| - 1]), es[|es| - 1]);
      KeylessHasNoKey(Run(c, start, es));
    } else {
      KeylessHasNoKey(start);
    }
  }

  lemma KeylessHasNoKey(w: World)
    requires KeylessWorld(w)
    ensures w.file.Absent? && forall p :: p in w.processes ==> !HasKey(w.processes[p])
  {}

  /** A token of one key is none of another's, as authenticated encryption has it. */
  ghost predicate Authenticated(c: Cipher) {
    forall k, other, n, p :: k != other ==> c.decrypt(other, c.encrypt(k, n, p)).None?
  }

  /** As long as no other key than `k` has been written, the rows read under `k`. */
  predicate OldKeyReads(c: Cipher, k: Key, w: World) {
    (w.file.Holds? && w.file.key != k) || StoreReads(c, Some(k), w.rows, w.saved)
  }

  lemma {:induction false} RunKeepsOldKeyReads(c: Cipher, k: Key, w: World, es: seq<Event>)
    requires Lawful(c) && KeysSound(w, NotSet) && SameExplicit(es, NotSet) && OldKeyReads(c, k, w)
    ensures KeysSound(Run(c, w, es), NotSet) && OldKeyReads(c, k, Run(c, w, es))
    decreases |es|
  {
    if es != [] {
      hide KeysSound, StoreReads;
      var before, e := Run(c, w, es[..|es| - 1]), es[|es| - 1];
      RunKeepsOldKeyReads(c, k, w, es[..|es| - 1]);
      StepKeepsKeys(c, before, NotSet, e);
      if before.file.Holds? && before.file.key != k {
        assert KeyInForce(Step(c, before, e), NotSet) == KeyInForce(before, NotSet);
      } else {
        KeyedHaveTheFileKey(before);
        StepKeepsReads(c, before, k, e);
      }
    }
  }

  lemma KeyedHaveTheFileKey(w: World)
    requires KeysSound(w, NotSet)
    ensures forall p :: p in w.processes && HasKey(w.processes[p]) ==> w.file == Holds(w.processes[p].key)
  {
    forall p | p in w.processes && HasKey(w.processes[p])
      ensures w.file == Holds(w.processes[p].key)
    {
      assert ProcessSound(w, NotSet, w.processes[p]);
    }
  }

  predicate NeverSaved(es: seq<Event>, i: nat) {
    forall n :: 0 <= n < |es| && es[n].Save? ==> es[n].index != i
  }

  predicate Keeps(w: World, i: nat, password: string, plain: Option<string>) {
    i < |w.rows| == |w.saved| && w.rows[i].password == Some(password) && w.saved[i].password == plain
  }

  lemma CiphertextStep(c: Cipher, w: World, e: Event, i: nat, password: string, plain: Option<string>)
    requires Keeps(w, i, password, plain) && IsCiphertext(password) && (e.Save? ==> e.index != i)
    ensures Keeps(Step(c, w, e), i, password, plain)
  {
    hide Candidate, ReadKeyFile;
  }

  /** A row of ciphertext that is not saved again stays as it is. */
  lemma {:induction false} CiphertextStays(c: Cipher, w: World, es: seq<Event>, i: nat, password: string, plain: Option<string>)
    requires Keeps(w, i, password, plain) && IsCiphertext(password) && NeverSaved(es, i)
    ensures Keeps(Run(c, w, es), i, password, plain)
    decreases |es|
  {
    if es != [] {
      hide Keeps, IsCiphertext, Step;
      CiphertextStays(c, w, es[..|es| - 1], i, password, plain);
      CiphertextStep(c, Run(c, w, es[..|es| - 1]), es[|es| - 1], i, password, plain);
    }
  }

  /** An encrypted database whose key file is gone, and boots with any SECRET_KEYs: once a key file
      is written again, the stored credentials read if and only if the key written is the old
      one. One password that was encrypted under the old key and not saved since is enough. */
  lemma LostKeyFileReadsIffOldKey(c: Cipher, k: Key, start: World, es: seq<Event>, i: nat, nonce: nat, plain: string)
    requires Lawful(c) && Authenticated(c)
    requires start.processes == map[] && start.file.Absent? && SameExplicit(es, NotSet)
    requires StoreReads(c, Some(k), start.rows, start.saved)
    requires i < |start.rows| && start.rows[i].password == Some(Encrypt(c, k, nonce, plain)) && NeverSaved(es, i)
    ensures var w := Run(c, start, es);
      w.file.Holds? ==> (StoreReads(c, Some(w.file.key), w.rows, w.saved) <==> w.file.key == k)
  {
    var w := Run(c, start, es);
    EncryptReadsBack(c, k, nonce, plain);
    RunKeepsOldKeyReads(c, k, start, es);
    CiphertextStays(c, start, es, i, Encrypt(c, k, nonce, plain), start.saved[i].password);
    if w.file.Holds? && w.file.key != k {
      TokenOfAnotherKey(c, k, w.file.key, nonce, plain);
      assert !RowReads(c, Some(w.file.key), w.rows[i], w.saved[i]);
    }
  }

  lemma TokenOfAnotherKey(c: Cipher, k: Key, other: Key, nonce: nat, plain: string)
    requires Authenticated(c) && k != other
    ensures Decrypt(c, other, Encrypt(c, k, nonce, plain)) == Err(BadToken)
  {
    assert Encrypt(c, k, nonce, plain)[|ENC_PREFIX|..] == c.encrypt(k, nonce, plain);
  }

  // ---------------------------------------------------------------- a blank key file

  /** A crash between create and write leaves a blank file behind. Nothing ever overwrites it:
      from then on no process gets a key without AUTH_VAULT_KEY. */
  predicate Stuck(w: World) {
    && w.file.Blank?
    && forall p :: p in w.processes ==>
         && !w.processes[p].Writing?
         && !HasKey(w.processes[p])
         && (w.processes[p].Starting? ==> w.processes[p].settings.explicit.NotSet?)
  }

  lemma {:induction false} BlankKeyFileStaysBlank(c: Cipher, w: World, es: seq<Event>)
    requires Stuck(w) && SameExplicit(es, NotSet)
    ensures Stuck(Run(c, w, es)) && Run(c, w, es).rows == w.rows
    decreases |es|
  {
    if es != [] {
      BlankKeyFileStaysBlank(c, w, es[..|es| - 1]);
    }
  }

  /** And it happens: over any database that does not refuse the boot at once, a process that
      finds no key file and dies right after creating it leaves everybody stuck. */
  lemma CrashAfterCreateSticks(c: Cipher, start: World, pid: Pid, settings: Settings, nonce: nat)
    requires start.processes == map[] && start.file.Absent?
    requires settings.explicit.NotSet? && Candidate(settings, start.rows).Ok?
    ensures var es := [Boot(pid, settings), Advance(pid, nonce), Advance(pid, nonce), Advance(pid, nonce), Crash(pid)];
      Stuck(Run(c, start, es)) && SameExplicit(es, NotSet)
  {
    var boot, step, crash := Boot(pid, settings), Advance(pid, nonce), Crash(pid);
    var w1 := Step(c, start, boot);
    var w2 := Step(c, w1, step);
    var w3 := Step(c, w2, step);
    var w4 := Step(c, w3, step);
    assert w2.processes == map[pid := Unkeyed(settings)];
    assert w3.processes[pid].Creating? && w4.file.Blank?;
    RunSnoc(c, start, [], boot);
    RunSnoc(c, start, [boot], step);
    RunSnoc(c, start, [boot, step], step);
    RunSnoc(c, start, [boot, step, step], step);
    RunSnoc(c, start, [boot, step, step, step], crash);
    assert [] + [boot] == [boot];
    assert [boot] + [step] == [boot, step];
    assert [boot, step] + [step] == [boot, step, step];
    assert [boot, step, step] + [step] == [boot, step, step, step];
    assert [boot, step, step, step] + [crash] == [boot, step, step, step, crash];
  }

  lemma RunSnoc(c: Cipher, w: World, es: seq<Event>, e: Event)
    ensures Run(c, w, es + [e]) == Step(c, Run(c, w, es), e)
  {
    assert (es + [e])[..|es|] == es;
  }

  /** The operations of one process, nobody else moving. */
  function Alone(c: Cipher, w: World, pid: Pid, nonce: nat, moves: nat): (r: World)
    requires pid in w.processes
    ensures pid in r.processes
    decreases moves
  {
    if moves == 0 then w else Alone(c, Move(c, w, pid, nonce), pid, nonce, moves - 1)
  }

  lemma {:induction false} SettledAloneStays(c: Cipher, w: World, pid: Pid, nonce: nat, moves: nat)
    requires pid in w.processes && (w.processes[pid].Serving? || w.processes[pid].Refused?)
    ensures Alone(c, w, pid, nonce, moves) == w
  {
    if moves > 0 {
      SettledAloneStays(c, w, pid, nonce, moves - 1);
    }
  }

  lemma KeyedAloneServes(c: Cipher, w: World, pid: Pid, nonce: nat, moves: nat)
    requires moves >= 1 && pid in w.processes && w.processes[pid].Keyed?
    ensures var p, w' := w.processes[pid], Alone(c, w, pid, nonce, moves);
      && w'.processes[pid] == Serving(p.key)
      && w'.file == w.file
      && w'.rows == (if p.routers then Migrated(c, p.key, nonce, w.rows) else w.rows)
  {
    SettledAloneStays(c, Move(c, w, pid, nonce), pid, nonce, moves - 1);
  }

  lemma CreatingAlonePersists(c: Cipher, w: World, pid: Pid, nonce: nat, moves: nat)
    requires moves >= 3 && pid in w.processes && w.processes[pid].Creating?
    ensures var p, w' := w.processes[pid], Alone(c, w, pid, nonce, moves);
      var (key, file) := PersistKey(w.file, p.candidate);
      && w'.processes[pid] == (match key case Ok(k) => Serving(k) case Err(e) => Refused(e))
      && w'.file == file
      && w'.rows == (if key.Ok? && p.routers then Migrated(c, key.value, nonce, w.rows) else w.rows)
  {
    var w1 := Move(c, w, pid, nonce);
    var w2 := Move(c, w1, pid, nonce);
    assert Alone(c, w, pid, nonce, moves) == Alone(c, w1, pid, nonce, moves - 1) == Alone(c, w2, pid, nonce, moves - 2);
    if w2.processes[pid].Keyed? {
      KeyedAloneServes(c, w2, pid, nonce, moves - 2);
    } else {
      SettledAloneStays(c, w2, pid, nonce, moves - 2);
    }
  }

  /** A boot that nobody interrupts does in five atomic steps what `Resolve` says in one, and
      then nothing more. */
  lemma UninterruptedBootResolves(c: Cipher, w: World, pid: Pid, settings: Settings, nonce: nat, moves: nat)
    requires pid !in w.processes && moves >= 5
    ensures var (key, file) := Resolve(w.file, w.rows, settings);
      var w' := Alone(c, Step(c, w, Boot(pid, settings)), pid, nonce, moves);
      && w'.processes[pid] == (match key case Ok(k) => Serving(k) case Err(e) => Refused(e))
      && w'.file == file
      && w'.rows == (if key.Ok? && settings.routers then Migrated(c, key.value, nonce, w.rows) else w.rows)
  {
    var w0 := Step(c, w, Boot(pid, settings));
    var w1 := Move(c, w0, pid, nonce);
    assert Alone(c, w0, pid, nonce, moves) == Alone(c, w1, pid, nonce, moves - 1);
    match w1.processes[pid]
    case Keyed(_, _) => KeyedAloneServes(c, w1, pid, nonce, moves - 1);
    case Refused(_) => SettledAloneStays(c, w1, pid, nonce, moves - 1);
    case Unkeyed(_) =>
      var w2 := Move(c, w1, pid, nonce);
      assert Alone(c, w1, pid, nonce, moves - 1) == Alone(c, w2, pid, nonce, moves - 2);
      if w2.processes[pid].Creating? {
        CreatingAlonePersists(c, w2, pid, nonce, moves - 2);
      } else {
        SettledAloneStays(c, w2, pid, nonce, moves - 2);
      }
  }

  // ---------------------------------------------------------------- in place

  /** The key file, the router rows and the configured codec as the calls update them. */
  class Host {
    var file: KeyFile
    var rows: seq<Row>
    var codec: Option<Key>

    method PersistVaultKey(key: Key) returns (result: Result<Key, VaultError>)
      modifies this`file
      ensures (result, file) == PersistKey(old(file), key)
    {
      if file.Absent? {
        file := Blank;
        file := Holds(key);
        return Ok(key);
      }
      var existing := ReadKeyFile(file);
      match existing
      case Err(e) => result := Err(e);
      case Ok(Some(k)) => result := Ok(k);
      case Ok(None) => result := Err(KeyFileExists);
    }

    /** Rewrites the plaintext fields row by row and returns how many it rewrote. */
    method MigrateVault(c: Cipher, k: Key, nonce: nat) returns (migrated: nat)
      modifies this`rows
      ensures rows == Migrated(c, k, nonce, old(rows))
      ensures migrated == CountPlain(old(rows))
    {
      hide Encrypt, IsCiphertext;
      migrated := 0;
      var i := 0;
      while i < |rows|
        invariant 0 <= i <= |rows| == |old(rows)|
        invariant forall j :: 0 <= j < i ==> rows[j] == MigrateRow(c, k, nonce + 2 * j, old(rows)[j])
        invariant forall j :: i <= j < |rows| ==> rows[j] == old(rows)[j]
        invariant migrated == CountPlain(old(rows)[..i])
      {
        var row := rows[i];
        assert row == old(rows)[i];
        if row.password.Some? && !IsCiphertext(row.password.value) {
          rows := rows[i := rows[i].(password := Some(Encrypt(c, k, nonce + 2 * i, row.password.value)))];
          migrated := migrated + 1;
        }
        if row.privateKey.Some? && !IsCiphertext(row.privateKey.value) {
          rows := rows[i := rows[i].(privateKey := Some(Encrypt(c, k, nonce + 2 * i + 1, row.privateKey.value)))];
          migrated := migrated + 1;
        }
        assert old(rows)[..i + 1][..i] == old(rows)[..i];
        i := i + 1;
      }
      assert old(rows)[..i] == old(rows);
    }

    method EnsureCredentialVault(c: Cipher, settings: Settings, nonce: nat) returns (result: Result<Key, VaultError>)
      requires settings.routers
      modifies this
      ensures (result, file) == Resolve(old(file), old(rows), settings)
      ensures result.Ok? ==> codec == Some(result.value) && rows == Migrated(c, result.value, nonce, old(rows))
      ensures result.Err? ==> codec == old(codec) && rows == old(rows)
    {
      match settings.explicit {
      case Malformed => return Err(BadExplicitKey);
      case Given(k) => result := Ok(k);
      case NotSet =>
        var persisted := ReadKeyFile(file);
        if persisted.Err? {
          return Err(persisted.error);
        }
        if persisted.value.Some? {
          result := Ok(persisted.value.value);
        } else {
          var candidate := Candidate(settings, rows);
          if candidate.Err? {
            return candidate;
          }
          result := PersistVaultKey(candidate.value);
          if result.Err? {
            return;
          }
        }
      }
      codec := Some(result.value);
      var _ := MigrateVault(c, result.value, nonce);
    }

    /** `save`: credentials are refused while no codec is configured; otherwise only ciphertext
        is stored. */
    method SaveRow(c: Cipher, plain: Row, nonce: nat) returns (result: Result<nat, VaultError>)
      modifies this`rows
      ensures codec.None? && (NonEmpty(plain.password) || NonEmpty(plain.privateKey)) <==> result.Err?
      ensures result.Err? ==> rows == old(rows)
      ensures result.Ok? ==> result.value == |old(rows)| && |rows| == |old(rows)| + 1 && rows[..|old(rows)|] == old(rows)
      ensures result.Ok? && codec.Some? ==> rows[|old(rows)|] == EncodeRow(c, codec.value, nonce, plain)
      ensures result.Ok? && codec.None? ==> rows[|old(rows)|] == plain
    {
      if (NonEmpty(plain.password) || NonEmpty(plain.privateKey)) && codec.None? {
        return Err(NoCodec);
      }
      var stored := plain;
      if codec.Some? {
        stored := Row(EncodeField(c, codec.value, nonce, plain.password),
                      EncodeField(c, codec.value, nonce + 1, plain.privateKey));
      }
      rows := rows + [stored];
      return Ok(|rows| - 1);
    }
  }

  /** Python's truth value of an optional text. */
  predicate NonEmpty(text: Option<string>) {
    text.Some? && text.value != ""
  }
}
