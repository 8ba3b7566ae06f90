/** What becomes of every single stored field when the key file of an encrypted database is lost
    and a key file is written anew. */
module VaultFields {
  import opened Prelude
  import opened Vault

  function Field(row: Row, password: bool): Option<string> {
    if password then row.password else row.privateKey
  }

  predicate IsCoded(rows: seq<Row>, i: nat, password: bool) {
    i < |rows| && Field(rows[i], password).Some? && IsCiphertext(Field(rows[i], password).value)
  }

  /** A token decrypts under no more than one key, as authenticated encryption has it. */
  ghost predicate OneKeyPerToken(c: Cipher) {
    forall k, other, token :: c.decrypt(k, token).Some? && c.decrypt(other, token).Some? ==> k == other
  }

  /** The row that an operation saves, if any: a new row comes last. */
  function SavedBy(w: World, e: Event): set<nat> {
    if e.Save? && e.pid in w.processes && w.processes[e.pid].Serving?
    then {if e.index < |w.rows| then e.index else |w.rows|}
    else {}
  }

  function SavedSince(c: Cipher, start: World, es: seq<Event>): set<nat>
    decreases |es|
  {
    if es == [] then {}
    else
      var before := es[..|es| - 1];
      SavedSince(c, start, before) + SavedBy(Run(c, start, before), es[|es| - 1])
  }

  /** A field that was ciphertext at the outset and whose row was not saved since is as it was; any
      other reads under the key in force. */
  predicate Fate(c: Cipher, start: World, w: World, resaved: set<nat>, i: nat, password: bool)
    requires i < |w.rows| == |w.saved| && |start.rows| == |start.saved|
  {
    if i !in resaved && IsCoded(start.rows, i, password) then
      && Field(w.rows[i], password) == Field(start.rows[i], password)
      && Field(w.saved[i], password) == Field(start.saved[i], password)
    else FieldReads(c, KeyInForce(w, NotSet), Field(w.rows[i], password), Field(w.saved[i], password))
  }

  predicate Fates(c: Cipher, start: World, w: World, resaved: set<nat>) {
    && |start.saved| == |start.rows| <= |w.rows| == |w.saved|
    && forall i: nat, password: bool :: i < |w.rows| ==> Fate(c, start, w, resaved, i, password)
  }

  /** Nothing stored changes. */
  lemma QuietKeepsFates(c: Cipher, start: World, w: World, w': World, resaved: set<nat>)
    requires Fates(c, start, w, resaved) && w'.rows == w.rows && w'.saved == w.saved
    requires KeyInForce(w, NotSet).Some? ==> KeyInForce(w', NotSet) == KeyInForce(w, NotSet)
    ensures Fates(c, start, w', resaved)
  {
    forall i: nat, password: bool | i < |w.rows|
      ensures Fate(c, start, w', resaved, i, password)
    {
      assert Fate(c, start, w, resaved, i, password);
    }
  }

  lemma MigrationKeepsFates(c: Cipher, start: World, w: World, w': World, resaved: set<nat>, k: Key, nonce: nat)
    requires Lawful(c) && Fates(c, start, w, resaved) && w.file == w'.file == Holds(k)
    requires w'.rows == Migrated(c, k, nonce, w.rows) && w'.saved == w.saved
    ensures Fates(c, start, w', resaved)
  {
    forall i: nat, password: bool | i < |w.rows|
      ensures Fate(c, start, w', resaved, i, password)
    {
      assert Fate(c, start, w, resaved, i, password);
      MigratedFieldReadsBack(c, k, nonce + 2 * i + if password then 0 else 1, Field(w.rows[i], password));
    }
  }

  lemma SaveKeepsFates(c: Cipher, start: World, w: World, e: Event, resaved: set<nat>)
    requires Lawful(c) && Fates(c, start, w, resaved)
    requires e.Save? && e.pid in w.processes && w.processes[e.pid].Serving? && w.file == Holds(w.processes[e.pid].key)
    ensures Fates(c, start, Step(c, w, e), resaved + SavedBy(w, e))
  {
    var k, w' := w.processes[e.pid].key, Step(c, w, e);
    var at := if e.index < |w.rows| then e.index else |w.rows|;
    forall i: nat, password: bool | i < |w'.rows|
      ensures Fate(c, start, w', resaved + SavedBy(w, e), i, password)
    {
      if i == at {
        EncodedFieldReads(c, k, e.nonce + if password then 0 else 1, Field(e.plain, password));
      } else {
        assert Fate(c, start, w, resaved, i, password);
      }
    }
  }

  lemma EncodedFieldReads(c: Cipher, k: Key, nonce: nat, plain: Option<string>)
    requires Lawful(c)
    ensures FieldReads(c, Some(k), EncodeField(c, k, nonce, plain), plain)
  {
    if plain.Some? {
      EncryptReadsBack(c, k, nonce, plain.value);
    }
  }

  lemma StepKeepsFates(c: Cipher, start: World, w: World, e: Event, resaved: set<nat>)
    requires Lawful(c) && KeysSound(w, NotSet) && Fates(c, start, w, resaved)
    requires e.Boot? ==> e.settings.explicit == NotSet
    ensures Fates(c, start, Step(c, w, e), resaved + SavedBy(w, e))
  {
    hide Fates, KeysSound;
    var w' := Step(c, w, e);
    StepKeepsKeys(c, w, NotSet, e);
    KeyedHaveTheFileKey(w);
    if SavedBy(w, e) != {} {
      SaveKeepsFates(c, start, w, e, resaved);
    } else {
      assert resaved + SavedBy(w, e) == resaved;
      if e.Advance? && e.pid in w.processes && w.processes[e.pid].Keyed? && w.processes[e.pid].routers {
        MigrationKeepsFates(c, start, w, w', resaved, w.processes[e.pid].key, e.nonce);
      } else {
        QuietKeepsFates(c, start, w, w', resaved);
      }
    }
  }

  lemma {:induction false} RunKeepsFates(c: Cipher, start: World, es: seq<Event>)
    requires Lawful(c) && KeysSound(start, NotSet) && SameExplicit(es, NotSet) && Fates(c, start, start, {})
    ensures KeysSound(Run(c, start, es), NotSet) && Fates(c, start, Run(c, start, es), SavedSince(c, start, es))
    decreases |es|
  {
    if es != [] {
      hide Fates, KeysSound, Step;
      var before, e := es[..|es| - 1], es[|es| - 1];
      RunKeepsFates(c, start, before);
      StepKeepsKeys(c, Run(c, start, before), NotSet, e);
      StepKeepsFates(c, start, Run(c, start, before), e, SavedSince(c, start, before));
    }
  }

  lemma FatesAtTheOutset(c: Cipher, k: Key, start: World)
    requires StoreReads(c, Some(k), start.rows, start.saved)
    ensures Fates(c, start, start, {})
  {
    forall i: nat, password: bool | i < |start.rows|
      ensures Fate(c, start, start, {}, i, password)
    {
      assert RowReads(c, Some(k), start.rows[i], start.saved[i]);
    }
  }

  /** The key file of a database that reads under `k` is gone, and boots bring any SECRET_KEYs: once
      a key file is written again, a stored field reads if and only if the key written is the old
      one, or the row was saved since, or the field was not ciphertext at the outset. */
  lemma LostKeyFieldReadsIff(c: Cipher, k: Key, start: World, es: seq<Event>)
    requires Lawful(c) && OneKeyPerToken(c)
    requires start.processes == map[] && start.file.Absent? && SameExplicit(es, NotSet)
    requires StoreReads(c, Some(k), start.rows, start.saved)
    ensures var w := Run(c, start, es);
      w.file.Holds? ==>
        && |start.rows| <= |w.rows| == |w.saved|
        && forall i: nat, password: bool :: i < |w.rows| ==>
             (FieldReads(c, Some(w.file.key), Field(w.rows[i], password), Field(w.saved[i], password)) <==>
              w.file.key == k || i in SavedSince(c, start, es) || !IsCoded(start.rows, i, password))
  {
    hide Run, SavedSince;
    var w, resaved := Run(c, start, es), SavedSince(c, start, es);
    FatesAtTheOutset(c, k, start);
    RunKeepsFates(c, start, es);
    if w.file.Holds? {
      forall i: nat, password: bool | i < |w.rows|
        ensures FieldReads(c, Some(w.file.key), Field(w.rows[i], password), Field(w.saved[i], password)) <==>
                w.file.key == k || i in resaved || !IsCoded(start.rows, i, password)
      {
        assert Fate(c, start, w, resaved, i, password);
        if IsCoded(start.rows, i, password) {
          assert RowReads(c, Some(k), start.rows[i], start.saved[i]);
        }
      }
    }
  }
}
