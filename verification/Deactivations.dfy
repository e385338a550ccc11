/** What deactivating a workflow takes out of the registry. */
module Deactivations {
  import opened Collections
  import opened Text
  import opened Paths
  import opened WebhookRegistries
  import opened Triggers

  /** Unregisters the rows in order, stopping at the first whose key does not parse. */
  ghost function Dropped(index: Index, rows: seq<WebhookEntry>): (Index, Option<RegistryError>)
    decreases |rows|
  {
    if rows == [] then (index, None)
    else
      match KeyOf(rows[0])
      case Failure(fault) => (index, Some(fault))
      case Success(key) => Dropped(Unregistered(index, key), rows[1..])
  }

  lemma FirstKey(rows: seq<WebhookEntry>)
    requires rows != [] && KeyOf(rows[0]).Success?
    ensures KeysOf(Elems(rows)) == {KeyOf(rows[0]).value} + KeysOf(Elems(rows[1..]))
  {
    assert rows == [rows[0]] + rows[1..];
    ElemsAppend([rows[0]], rows[1..]);
  }

  lemma MinusBoth<K, V>(m: map<K, V>, a: set<K>, b: set<K>)
    ensures m - a - b == m - (a + b)
  {
  }

  lemma {:induction false} DroppedIs(index: Index, rows: seq<WebhookEntry>)
    requires Agree(index) && forall r | r in rows :: KeyOf(r).Success?
    ensures Dropped(index, rows) == (IndexOf(index.byKey - KeysOf(Elems(rows))), None)
    decreases |rows|
  {
    if rows == [] {
      assert index.byKey - KeysOf(Elems(rows)) == index.byKey;
    } else {
      var key := KeyOf(rows[0]).value;
      UnregisterAgrees(index, key);
      DroppedIs(Unregistered(index, key), rows[1..]);
      FirstKey(rows);
      MinusBoth(index.byKey, {key}, KeysOf(Elems(rows[1..])));
    }
  }

  /** In a mirrored state, dropping the rows of a workflow leaves exactly the other entries. */
  lemma DroppedMirror(w: World, workflowId: string, rows: seq<WebhookEntry>)
    requires Mirror(w) && IsListing(rows, w.tables.webhooks - OtherWebhooks(w.tables.webhooks, workflowId))
    ensures Dropped(w.memory.index, rows) == (Deactivated(w, workflowId).memory.index, None)
  {
    forall r | r in rows
      ensures KeyOf(r).Success?
    {
      assert r in Elems(rows) && Holds(w.memory.index.byKey, r);
    }
    DroppedIs(w.memory.index, rows);
  }

  lemma {:induction false} DroppedFault(index: Index, rows: seq<WebhookEntry>)
    ensures Dropped(index, rows).1 == None <==> forall r | r in rows :: KeyOf(r).Success?
    decreases |rows|
  {
    if rows != [] {
      assert rows == [rows[0]] + rows[1..];
      if KeyOf(rows[0]).Success? { DroppedFault(Unregistered(index, KeyOf(rows[0]).value), rows[1..]); }
    }
  }

  /** The entries of a table that belong to other workflows. */
  ghost function OthersEntries(byKey: map<Key, WebhookEntry>, workflowId: string): map<Key, WebhookEntry> {
    map k | k in byKey && byKey[k].workflowId != workflowId :: byKey[k]
  }

  /** A refused row of the workflow has the key of another workflow's entry. */
  ghost predicate Encroaches(w: World, refused: set<WebhookEntry>, workflowId: string) {
    exists r :: r in refused && r.workflowId == workflowId && KeyOf(r).Success? &&
      KeyOf(r).value in w.memory.index.byKey && w.memory.index.byKey[KeyOf(r).value].workflowId != workflowId
  }

  /**
   Wherever memory mirrors all but some refused rows: a deactivation fails exactly when a row of
   the workflow has no key, and otherwise removes exactly the entries of that workflow if and only
   if none of its refused rows has the key of another workflow's entry.
   */
  lemma DeactivateRemovesOwnIff(w: World, refused: set<WebhookEntry>, workflowId: string, rows: seq<WebhookEntry>)
    requires MirrorsBut(w, refused) && IsListing(rows, w.tables.webhooks - OtherWebhooks(w.tables.webhooks, workflowId))
    ensures
      var (index, fault) := Dropped(w.memory.index, rows);
      && (fault == None <==> forall r | r in rows :: KeyOf(r).Success?)
      && (fault == None ==>
            (index.byKey == OthersEntries(w.memory.index.byKey, workflowId) <==> !Encroaches(w, refused, workflowId)))
  {
    DroppedFault(w.memory.index, rows);
    if forall r | r in rows :: KeyOf(r).Success? {
      DroppedIs(w.memory.index, rows);
      EncroachesIff(w, refused, workflowId, rows);
      MinusIsOthers(w.memory.index.byKey, KeysOf(Elems(rows)), workflowId);
    }
  }

  lemma MinusIsOthers(byKey: map<Key, WebhookEntry>, keys: set<Key>, workflowId: string)
    requires forall k | k in byKey && byKey[k].workflowId == workflowId :: k in keys
    ensures byKey - keys == OthersEntries(byKey, workflowId) <==>
            forall k | k in byKey && byKey[k].workflowId != workflowId :: k !in keys
  {
    if k :| k in byKey && byKey[k].workflowId != workflowId && k in keys {
      assert k in OthersEntries(byKey, workflowId) && k !in byKey - keys;
    }
  }

  lemma EncroachesIff(w: World, refused: set<WebhookEntry>, workflowId: string, rows: seq<WebhookEntry>)
    requires MirrorsBut(w, refused) && Elems(rows) == w.tables.webhooks - OtherWebhooks(w.tables.webhooks, workflowId)
    ensures forall k | k in w.memory.index.byKey && w.memory.index.byKey[k].workflowId == workflowId :: k in KeysOf(Elems(rows))
    ensures !Encroaches(w, refused, workflowId) <==>
            forall k | k in w.memory.index.byKey && w.memory.index.byKey[k].workflowId != workflowId :: k !in KeysOf(Elems(rows))
  {
    var byKey := w.memory.index.byKey;
    forall k | k in byKey
      ensures byKey[k].workflowId == workflowId ==> k in KeysOf(Elems(rows))
      ensures byKey[k].workflowId != workflowId && k in KeysOf(Elems(rows)) ==> Encroaches(w, refused, workflowId)
    {
      OwnKeysDropped(w, refused, workflowId, rows, k);
    }
    if Encroaches(w, refused, workflowId) {
      var r :| r in refused && r.workflowId == workflowId && KeyOf(r).Success? &&
        KeyOf(r).value in byKey && byKey[KeyOf(r).value].workflowId != workflowId;
      assert r in Elems(rows);
    }
  }

  lemma OwnKeysDropped(w: World, refused: set<WebhookEntry>, workflowId: string, rows: seq<WebhookEntry>, k: Key)
    requires MirrorsBut(w, refused) && Elems(rows) == w.tables.webhooks - OtherWebhooks(w.tables.webhooks, workflowId)
    requires k in w.memory.index.byKey
    ensures w.memory.index.byKey[k].workflowId == workflowId ==> k in KeysOf(Elems(rows))
    ensures w.memory.index.byKey[k].workflowId != workflowId && k in KeysOf(Elems(rows)) ==> Encroaches(w, refused, workflowId)
  {
    assert HasRow(w.tables.webhooks - refused, k);
    var holder :| holder in w.tables.webhooks - refused && KeyOf(holder) == Success(k);
    assert Holds(w.memory.index.byKey, holder);
    if k in KeysOf(Elems(rows)) {
      var r :| r in Elems(rows) && KeyOf(r) == Success(k);
      assert r !in refused ==> r == holder;
    }
  }

  lemma AloneMirrors(e: WebhookEntry) returns (index: Index)
    requires KeyOf(e).Success?
    ensures Registered(EMPTY, e) == Success(index) && MirrorsWebhooks({e}, index) && KeyOf(e).value in index.byKey
    ensures index.byKey[KeyOf(e).value].id == e.id
  {
    index := Registered(EMPTY, e).value;
    assert Agree(EMPTY);
    AddWebhook({}, EMPTY, e);
    assert {} + {e} == {e};
  }

  /** Two rows of different ids under one key: memory mirrors the first, and dropping the second takes it away. */
  lemma SharedKeyTaken(e1: WebhookEntry, e2: WebhookEntry)
    requires KeyOf(e1).Success? && KeyOf(e2) == KeyOf(e1) && e1.id != e2.id
    ensures Registered(EMPTY, e1).Success?
    ensures
      var index := Registered(EMPTY, e1).value;
      && MirrorsBut(World(Tables({e1, e2}, {}), Memory(index, map[])), {e2})
      && KeyOf(e1).value in index.byKey && Dropped(index, [e2]) == (Unregistered(index, KeyOf(e1).value), None)
  {
    var index := AloneMirrors(e1);
    assert {e1, e2} - {e2} == {e1};
    assert [e2][1..] == [];
    assert Dropped(index, [e2]) == Dropped(Unregistered(index, KeyOf(e2).value), []);
  }

  /**
   The failing input, for every canonical path r without slashes at its ends: a webhook at r, and one
   of another workflow spelled "-/" + r. Deactivating the second takes the entry of the first away.
   */
  lemma DeactivateTakesAnother(r: string, e1: WebhookEntry, e2: WebhookEntry)
    requires Canonical(r) && Trimmed(r, IsSlash) && NormaliseMethod(e1.httpMethod).Some?
    requires e1.path == r && NormalisePath("-/" + r) == Some(e2.path) && e2.httpMethod == e1.httpMethod
    requires e1.id != e2.id && e1.workflowId != e2.workflowId
    ensures KeyOf(e1).Success? && Registered(EMPTY, e1).Success?
    ensures
      var w := World(Tables({e1, e2}, {}), Memory(Registered(EMPTY, e1).value, map[]));
      && MirrorsBut(w, {e2}) && Encroaches(w, {e2}, e2.workflowId)
      && Dropped(w.memory.index, [e2]).1 == None
      && KeyOf(e1).value in w.memory.index.byKey && KeyOf(e1).value !in Dropped(w.memory.index, [e2]).0.byKey
  {
    ShieldedBeside(r);
    SharedKeyTaken(e1, e2);
  }
}
