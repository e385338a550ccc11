/** The in-process webhook route table with its two indexes. */
module WebhookRegistries {
  import opened Collections
  import opened Text
  import opened Paths

  datatype WebhookEntry = WebhookEntry(
    id: string,
    workflowId: string,
    nodeId: string,
    projectId: string,
    path: string,
    httpMethod: string,
    isDynamic: bool,
    responseMode: string)

  type Key = (string, string)

  datatype RegistryError = InvalidPath | UnsupportedMethod | Conflict(workflowId: string, nodeId: string)

  /** Entries by (path, method), and the keys each workflow owns. */
  datatype Index = Index(byKey: map<Key, WebhookEntry>, byWorkflow: map<string, set<Key>>)

  const SUPPORTED_METHODS: set<string> := {"GET", "POST", "PUT", "PATCH", "DELETE", "HEAD", "OPTIONS"}

  const EMPTY := Index(map[], map[])

  function NormaliseMethod(m: string): Option<string> {
    var upper := Upper(Strip(m, IsSpace));
    if upper in SUPPORTED_METHODS then Some(upper) else None
  }

  /** The key a path and method are filed and looked up under. */
  function KeyFor(path: string, m: string): Result<Key, RegistryError> {
    match NormalisePath(path)
    case None => Failure(InvalidPath)
    case Some(p) =>
      match NormaliseMethod(m)
      case None => Failure(UnsupportedMethod)
      case Some(u) => Success((p, u))
  }

  // ---- The operations on values -----------------------------------------------------------------

  function OwnedKeys(index: Index, workflowId: string): set<Key> {
    if workflowId in index.byWorkflow then index.byWorkflow[workflowId] else {}
  }

  function Registered(index: Index, e: WebhookEntry): Result<Index, RegistryError> {
    match KeyFor(e.path, e.httpMethod)
    case Failure(fault) => Failure(fault)
    case Success(key) =>
      if key in index.byKey && index.byKey[key].id != e.id then
        Failure(Conflict(index.byKey[key].workflowId, index.byKey[key].nodeId))
      else
        Success(Index(index.byKey[key := e.(path := key.0, httpMethod := key.1)],
                      index.byWorkflow[e.workflowId := OwnedKeys(index, e.workflowId) + {key}]))
  }

  function Unregistered(index: Index, key: Key): Index {
    if key !in index.byKey then index
    else
      var owner := index.byKey[key].workflowId;
      var left := OwnedKeys(index, owner) - {key};
      Index(index.byKey - {key},
            if owner !in index.byWorkflow then index.byWorkflow
            else if left == {} then index.byWorkflow - {owner}
            else index.byWorkflow[owner := left])
  }

  function WorkflowUnregistered(index: Index, workflowId: string): Index {
    Index(index.byKey - OwnedKeys(index, workflowId), index.byWorkflow - {workflowId})
  }

  /** Registers entries in order, stopping at the first that is refused. */
  function RegisteredAll(index: Index, entries: seq<WebhookEntry>): (Index, Option<RegistryError>)
    decreases |entries|
  {
    if entries == [] then (index, None)
    else
      match Registered(index, entries[0])
      case Failure(fault) => (index, Some(fault))
      case Success(next) => RegisteredAll(next, entries[1..])
  }

  // ---- The registry object ------------------------------------------------------------------------

  class WebhookRegistry {
    var byKey: map<Key, WebhookEntry>
    var byWorkflow: map<string, set<Key>>

    constructor ()
      ensures State() == EMPTY
    {
      byKey, byWorkflow := map[], map[];
    }

    ghost function State(): Index
      reads this
    {
      Index(byKey, byWorkflow)
    }

    method Register(e: WebhookEntry) returns (fault: Option<RegistryError>)
      modifies this
      ensures fault == if Registered(old(State()), e).Failure? then Some(Registered(old(State()), e).error) else None
      ensures State() == if fault.None? then Registered(old(State()), e).value else old(State())
    {
      var key := KeyFor(e.path, e.httpMethod);
      if key.Failure? {
        return Some(key.error);
      }
      var k := key.value;
      if k in byKey && byKey[k].id != e.id {
        return Some(Conflict(byKey[k].workflowId, byKey[k].nodeId));
      }
      byKey := byKey[k := e.(path := k.0, httpMethod := k.1)];
      var owned := if e.workflowId in byWorkflow then byWorkflow[e.workflowId] else {};
      byWorkflow := byWorkflow[e.workflowId := owned + {k}];
      fault := None;
    }

    method Unregister(path: string, m: string) returns (r: Result<Option<WebhookEntry>, RegistryError>)
      modifies this
      ensures match KeyFor(path, m)
              case Failure(fault) => r == Failure(fault) && State() == old(State())
              case Success(key) =>
                && State() == Unregistered(old(State()), key)
                && r == Success(if key in old(byKey) then Some(old(byKey)[key]) else None)
    {
      var key := KeyFor(path, m);
      if key.Failure? {
        return Failure(key.error);
      }
      if key.value !in byKey {
        return Success(None);
      }
      var e := byKey[key.value];
      byKey := byKey - {key.value};
      if e.workflowId in byWorkflow {
        var left := byWorkflow[e.workflowId] - {key.value};
        if left == {} {
          byWorkflow := byWorkflow - {e.workflowId};
        } else {
          byWorkflow := byWorkflow[e.workflowId := left];
        }
      }
      r := Success(Some(e));
    }

    /** Returns the removed entries; keys names the key each was held under, in the same order. */
    method UnregisterWorkflow(workflowId: string) returns (removed: seq<WebhookEntry>, ghost keys: seq<Key>)
      modifies this
      ensures State() == WorkflowUnregistered(old(State()), workflowId)
      ensures IsListing(keys, OwnedKeys(old(State()), workflowId) * old(byKey).Keys)
      ensures |removed| == |keys| && forall i | 0 <= i < |keys| :: keys[i] in old(byKey) && removed[i] == old(byKey)[keys[i]]
    {
      var todo := if workflowId in byWorkflow then byWorkflow[workflowId] else {};
      ghost var owned := todo;
      byWorkflow := byWorkflow - {workflowId};
      removed, keys := [], [];
      while todo != {}
        invariant todo <= owned && IsListing(keys, (owned - todo) * old(byKey).Keys)
        invariant byKey == old(byKey) - (owned - todo)
        invariant byWorkflow == old(byWorkflow) - {workflowId}
        invariant |removed| == |keys| && forall i | 0 <= i < |keys| :: keys[i] in old(byKey) && removed[i] == old(byKey)[keys[i]]
        decreases todo
      {
        var k :| k in todo;
        if k in byKey {
          assert k !in Elems(keys);
          DistinctPush(keys, k);
          ElemsPush(keys, k);
          removed, keys := removed + [byKey[k]], keys + [k];
          byKey := byKey - {k};
        }
        assert owned - (todo - {k}) == (owned - todo) + {k};
        todo := todo - {k};
      }
      assert owned - todo == owned;
    }

    /** An empty path finds nothing; an unsupported method is a fault, which no handler here absorbs. */
    method Match(path: string, m: string) returns (r: Result<Option<WebhookEntry>, RegistryError>)
      ensures match KeyFor(path, m)
              case Failure(fault) => r == if fault.InvalidPath? then Success(None) else Failure(fault)
              case Success(key) => r == Success(if key in byKey then Some(byKey[key]) else None)
    {
      var key := KeyFor(path, m);
      if key.Failure? {
        return if key.error.InvalidPath? then Success(None) else Failure(key.error);
      }
      r := Success(if key.value in byKey then Some(byKey[key.value]) else None);
    }

    /** Replaces the whole table; a refused entry leaves the ones before it registered. */
    method Load(entries: seq<WebhookEntry>) returns (count: nat, fault: Option<RegistryError>)
      modifies this
      ensures (State(), fault) == RegisteredAll(EMPTY, entries)
      ensures fault.None? ==> count == |entries|
    {
      byKey, byWorkflow := map[], map[];
      count, fault := 0, None;
      while count < |entries|
        invariant 0 <= count <= |entries|
        invariant RegisteredAll(EMPTY, entries) == RegisteredAll(State(), entries[count..])
      {
        fault := Register(entries[count]);
        if fault.Some? {
          return;
        }
        assert entries[count..][1..] == entries[count + 1..];
        count := count + 1;
      }
      fault := None;
    }
  }

  // ---- Two-index agreement ---------------------------------------------------------------------------

  ghost function Owners(byKey: map<Key, WebhookEntry>): set<string> {
    set k | k in byKey :: byKey[k].workflowId
  }

  /** The keys of every workflow that owns one. */
  ghost function Grouping(byKey: map<Key, WebhookEntry>): map<string, set<Key>> {
    map w | w in Owners(byKey) :: set k | k in byKey && byKey[k].workflowId == w
  }

  /** The workflow index is exactly the grouping of the key index, without empty groups. */
  ghost predicate Agree(index: Index) {
    index.byWorkflow == Grouping(index.byKey)
  }

  lemma GroupingAt(byKey: map<Key, WebhookEntry>, w: string)
    ensures w in Grouping(byKey) <==> exists k :: k in byKey && byKey[k].workflowId == w
    ensures w in Grouping(byKey) ==> Grouping(byKey)[w] == set k | k in byKey && byKey[k].workflowId == w
  {
  }

  lemma OwnedIs(index: Index, w: string)
    requires Agree(index)
    ensures OwnedKeys(index, w) == set k | k in index.byKey && index.byKey[k].workflowId == w
  {
    GroupingAt(index.byKey, w);
  }

  /** Two indexes by workflow are equal when every workflow owns the same keys and no group is empty. */
  lemma SameGroups(a: map<string, set<Key>>, b: map<string, set<Key>>)
    requires forall w | w in a :: a[w] != {}
    requires forall w | w in b :: b[w] != {}
    requires forall w :: (if w in a then a[w] else {}) == (if w in b then b[w] else {})
    ensures a == b
  {
    forall w
      ensures w in a <==> w in b
      ensures w in a && w in b ==> a[w] == b[w]
    {
      assert (if w in a then a[w] else {}) == (if w in b then b[w] else {});
    }
  }

  lemma GroupsNonempty(byKey: map<Key, WebhookEntry>)
    ensures forall w | w in Grouping(byKey) :: Grouping(byKey)[w] != {}
  {
    forall w | w in Grouping(byKey)
      ensures Grouping(byKey)[w] != {}
    {
      GroupingAt(byKey, w);
      var k :| k in byKey && byKey[k].workflowId == w;
      assert k in Grouping(byKey)[w];
    }
  }

  lemma AgreeFromOwned(index: Index)
    requires forall w | w in index.byWorkflow :: index.byWorkflow[w] != {}
    requires forall w :: OwnedKeys(index, w) == set k | k in index.byKey && index.byKey[k].workflowId == w
    ensures Agree(index)
  {
    GroupsNonempty(index.byKey);
    forall w
      ensures (if w in index.byWorkflow then index.byWorkflow[w] else {}) ==
              (if w in Grouping(index.byKey) then Grouping(index.byKey)[w] else {})
    {
      GroupingAt(index.byKey, w);
      assert OwnedKeys(index, w) == set k | k in index.byKey && index.byKey[k].workflowId == w;
      if w !in Grouping(index.byKey) {
        assert forall k | k in index.byKey :: index.byKey[k].workflowId != w;
      }
    }
    SameGroups(index.byWorkflow, Grouping(index.byKey));
  }

  /**
   Registering keeps the indexes in agreement exactly when the key is new or already
   belongs to the same workflow.
   */
  lemma RegisterAgreesIff(index: Index, e: WebhookEntry)
    requires Agree(index) && Registered(index, e).Success?
    ensures
      var key := KeyFor(e.path, e.httpMethod).value;
      Agree(Registered(index, e).value) <==>
      (key in index.byKey ==> index.byKey[key].workflowId == e.workflowId)
  {
    var key := KeyFor(e.path, e.httpMethod).value;
    var next := Registered(index, e).value;
    if key in index.byKey && index.byKey[key].workflowId != e.workflowId {
      var stale := index.byKey[key].workflowId;
      OwnedIs(index, stale);
      assert key in OwnedKeys(next, stale);
      if Agree(next) { OwnedIs(next, stale); }
    } else {
      RegisterAgrees(index, e, key);
    }
  }

  lemma LoadTwo(e1: WebhookEntry, e2: WebhookEntry)
    requires Registered(EMPTY, e1).Success? && Registered(Registered(EMPTY, e1).value, e2).Success?
    ensures RegisteredAll(EMPTY, [e1, e2]) == (Registered(Registered(EMPTY, e1).value, e2).value, None)
  {
    var first := Registered(EMPTY, e1).value;
    assert [e1, e2][1..] == [e2] && [e2][1..] == [];
    assert RegisteredAll(first, [e2]) == (Registered(first, e2).value, None);
  }

  /** An entry id reused under another workflow leaves its key with the first one as well. */
  lemma ReusedIdLeavesStaleKey(e: WebhookEntry, other: string)
    requires KeyFor(e.path, e.httpMethod).Success? && other != e.workflowId
    ensures
      var (index, fault) := RegisteredAll(EMPTY, [e, e.(workflowId := other)]);
      && fault == None && !Agree(index)
      && KeyFor(e.path, e.httpMethod).value in OwnedKeys(index, e.workflowId) * OwnedKeys(index, other)
  {
    var first, again := Registered(EMPTY, e).value, e.(workflowId := other);
    assert Agree(EMPTY);
    RegisterAgreesIff(EMPTY, e);
    RegisterAgreesIff(first, again);
    LoadTwo(e, again);
  }

  lemma RegisterAgrees(index: Index, e: WebhookEntry, key: Key)
    requires Agree(index) && Registered(index, e).Success? && KeyFor(e.path, e.httpMethod) == Success(key)
    requires key in index.byKey ==> index.byKey[key].workflowId == e.workflowId
    ensures Agree(Registered(index, e).value)
  {
    var next := Registered(index, e).value;
    GroupsNonempty(index.byKey);
    forall w
      ensures OwnedKeys(next, w) == set k | k in next.byKey && next.byKey[k].workflowId == w
    {
      OwnedIs(index, w);
    }
    AgreeFromOwned(next);
  }

  lemma UnregisterAgrees(index: Index, key: Key)
    requires Agree(index)
    ensures Agree(Unregistered(index, key)) && Unregistered(index, key).byKey == index.byKey - {key}
  {
    if key in index.byKey {
      var next := Unregistered(index, key);
      GroupsNonempty(index.byKey);
      GroupingAt(index.byKey, index.byKey[key].workflowId);
      forall w
        ensures OwnedKeys(next, w) == set k | k in next.byKey && next.byKey[k].workflowId == w
      {
        OwnedIs(index, w);
      }
      AgreeFromOwned(next);
    } else {
      assert index.byKey - {key} == index.byKey;
    }
  }

  lemma UnregisterWorkflowAgrees(index: Index, workflowId: string)
    requires Agree(index)
    ensures
      var next := WorkflowUnregistered(index, workflowId);
      && Agree(next)
      && next.byKey == map k | k in index.byKey && index.byKey[k].workflowId != workflowId :: index.byKey[k]
  {
    var next := WorkflowUnregistered(index, workflowId);
    OwnedIs(index, workflowId);
    GroupsNonempty(index.byKey);
    forall w
      ensures OwnedKeys(next, w) == set k | k in next.byKey && next.byKey[k].workflowId == w
    {
      OwnedIs(index, w);
    }
    AgreeFromOwned(next);
  }

  // ---- Any history ---------------------------------------------------------------------------------------

  datatype Operation =
    | DoRegister(entry: WebhookEntry)
    | DoUnregister(path: string, httpMethod: string)
    | DoUnregisterWorkflow(workflowId: string)
    | DoLoad(entries: seq<WebhookEntry>)

  function Apply(index: Index, op: Operation): Index {
    match op
    case DoRegister(e) => (match Registered(index, e) case Success(next) => next case Failure(_) => index)
    case DoUnregister(path, m) =>
      (match KeyFor(path, m) case Success(key) => Unregistered(index, key) case Failure(_) => index)
    case DoUnregisterWorkflow(w) => WorkflowUnregistered(index, w)
    case DoLoad(entries) => RegisteredAll(EMPTY, entries).0
  }

  function History(ops: seq<Operation>): Index {
    if ops == [] then EMPTY else Apply(History(Init(ops)), Last(ops))
  }

  /** An entry id always names the same workflow. */
  ghost predicate Owned(e: WebhookEntry, owner: string -> string) {
    e.workflowId == owner(e.id)
  }

  ghost predicate OperationOwned(op: Operation, owner: string -> string) {
    match op
    case DoRegister(e) => Owned(e, owner)
    case DoLoad(entries) => forall e | e in entries :: Owned(e, owner)
    case _ => true
  }

  ghost predicate Sound(index: Index, owner: string -> string) {
    Agree(index) && forall k | k in index.byKey :: Owned(index.byKey[k], owner)
  }

  lemma RegisterSound(index: Index, e: WebhookEntry, owner: string -> string)
    requires Sound(index, owner) && Owned(e, owner) && Registered(index, e).Success?
    ensures Sound(Registered(index, e).value, owner)
  {
    RegisterAgreesIff(index, e);
  }

  lemma {:induction false} RegisterAllSound(index: Index, entries: seq<WebhookEntry>, owner: string -> string)
    requires Sound(index, owner) && forall e | e in entries :: Owned(e, owner)
    ensures Sound(RegisteredAll(index, entries).0, owner)
    decreases |entries|
  {
    if entries != [] && Registered(index, entries[0]).Success? {
      assert entries[0] in entries;
      RegisterSound(index, entries[0], owner);
      RegisterAllSound(Registered(index, entries[0]).value, entries[1..], owner);
    }
  }

  /** After any sequence of operations, including loads refused part way, the two indexes agree. */
  lemma {:induction false} HistoryAgrees(ops: seq<Operation>, owner: string -> string)
    requires forall i | 0 <= i < |ops| :: OperationOwned(ops[i], owner)
    ensures Sound(History(ops), owner)
  {
    assert Sound(EMPTY, owner);
    if ops != [] {
      HistoryAgrees(Init(ops), owner);
      var before, op := History(Init(ops)), Last(ops);
      assert OperationOwned(op, owner);
      match op
      case DoRegister(e) => if Registered(before, e).Success? { RegisterSound(before, e, owner); }
      case DoUnregister(path, m) => if KeyFor(path, m).Success? { UnregisterAgrees(before, KeyFor(path, m).value); }
      case DoUnregisterWorkflow(w) => UnregisterWorkflowAgrees(before, w);
      case DoLoad(entries) => RegisterAllSound(EMPTY, entries, owner);
    }
  }

  // ---- What a load yields ------------------------------------------------------------------------------------

  /** The entry as it is filed. */
  function Filed(e: WebhookEntry): Result<WebhookEntry, RegistryError> {
    match KeyFor(e.path, e.httpMethod)
    case Failure(fault) => Failure(fault)
    case Success(key) => Success(e.(path := key.0, httpMethod := key.1))
  }

  ghost predicate Holds(byKey: map<Key, WebhookEntry>, e: WebhookEntry) {
    var key := KeyFor(e.path, e.httpMethod);
    key.Success? && key.value in byKey && Filed(e) == Success(byKey[key.value])
  }

  /** loaded adds one key for each entry, filed as registered, and changes nothing else. */
  ghost predicate LoadedOver(before: map<Key, WebhookEntry>, entries: seq<WebhookEntry>, loaded: map<Key, WebhookEntry>) {
    && |loaded| == |before| + |entries|
    && (forall k | k in before :: k in loaded && loaded[k] == before[k])
    && (forall e | e in entries :: Holds(loaded, e))
  }

  /** No id is listed twice or already in the table. */
  ghost predicate FreshIds(byKey: map<Key, WebhookEntry>, entries: seq<WebhookEntry>) {
    && (forall i, j | 0 <= i < j < |entries| :: entries[i].id != entries[j].id)
    && (forall k, i | k in byKey && 0 <= i < |entries| :: byKey[k].id != entries[i].id)
  }

  /** A load of distinct ids that is not refused holds exactly those entries, one key each. */
  lemma {:induction false} LoadExact(index: Index, entries: seq<WebhookEntry>)
    requires FreshIds(index.byKey, entries) && RegisteredAll(index, entries).1 == None
    ensures LoadedOver(index.byKey, entries, RegisteredAll(index, entries).0.byKey)
    decreases |entries|
  {
    if entries != [] {
      var next := FreshStep(index, entries);
      LoadExact(next, entries[1..]);
      LoadedStep(index.byKey, next.byKey, entries, RegisteredAll(next, entries[1..]).0.byKey);
    }
  }

  lemma FreshStep(index: Index, entries: seq<WebhookEntry>) returns (next: Index)
    requires entries != [] && FreshIds(index.byKey, entries) && Registered(index, entries[0]).Success?
    ensures Registered(index, entries[0]) == Success(next) && FreshIds(next.byKey, entries[1..])
    ensures |next.byKey| == |index.byKey| + 1 && Holds(next.byKey, entries[0])
    ensures forall k | k in index.byKey :: k in next.byKey && next.byKey[k] == index.byKey[k]
  {
    var e := entries[0];
    FreshRegister(index, e);
    next := Registered(index, e).value;
    assert forall i | 0 <= i < |entries[1..]| :: entries[1..][i] == entries[i + 1];
  }

  lemma LoadedStep(before: map<Key, WebhookEntry>, mid: map<Key, WebhookEntry>, entries: seq<WebhookEntry>,
                   loaded: map<Key, WebhookEntry>)
    requires entries != [] && LoadedOver(mid, entries[1..], loaded)
    requires |mid| == |before| + 1 && Holds(mid, entries[0])
    requires forall k | k in before :: k in mid && mid[k] == before[k]
    ensures LoadedOver(before, entries, loaded)
  {
    forall x | x in entries
      ensures Holds(loaded, x)
    {
      assert x == entries[0] || x in entries[1..];
    }
  }

  lemma NewKeySize<K, V>(m: map<K, V>, k: K, v: V)
    requires k !in m
    ensures m[k := v].Keys == m.Keys + {k} && |m[k := v]| == |m| + 1
  {
    assert m[k := v].Keys == m.Keys + {k};
    assert |m[k := v]| == |m[k := v].Keys| && |m| == |m.Keys|;
  }

  /** An id the table does not hold can only be accepted under a new key. */
  lemma FreshRegister(index: Index, e: WebhookEntry)
    requires Registered(index, e).Success? && forall k | k in index.byKey :: index.byKey[k].id != e.id
    ensures
      var next, key := Registered(index, e).value, KeyFor(e.path, e.httpMethod).value;
      && key !in index.byKey
      && next.byKey.Keys == index.byKey.Keys + {key} && |next.byKey| == |index.byKey| + 1
      && (forall k | k in index.byKey :: next.byKey[k] == index.byKey[k])
      && next.byKey[key].id == e.id && Holds(next.byKey, e)
  {
    var key := KeyFor(e.path, e.httpMethod).value;
    NewKeySize(index.byKey, key, e.(path := key.0, httpMethod := key.1));
  }

  // ---- Stored paths and the user's spelling -------------------------------------------------------------------

  /** Every entry is filed under its own path and method. */
  ghost predicate FiledByKey(byKey: map<Key, WebhookEntry>) {
    forall k | k in byKey :: byKey[k].path == k.0 && byKey[k].httpMethod == k.1
  }

  lemma {:induction false} RegisterAllFiles(index: Index, entries: seq<WebhookEntry>)
    requires FiledByKey(index.byKey)
    ensures FiledByKey(RegisteredAll(index, entries).0.byKey)
    decreases |entries|
  {
    if entries != [] && Registered(index, entries[0]).Success? {
      RegisterAllFiles(Registered(index, entries[0]).value, entries[1..]);
    }
  }

  /** Every reachable table files its entries by their own path and method. */
  lemma {:induction false} HistoryFiles(ops: seq<Operation>)
    ensures FiledByKey(History(ops).byKey)
  {
    if ops != [] {
      HistoryFiles(Init(ops));
      if Last(ops).DoLoad? { RegisterAllFiles(EMPTY, Last(ops).entries); }
    }
  }

  /**
   A webhook stored under its normalised path and registered over any history is what a
   request in the user's own spelling finds, exactly when the stored path is a fixed point.
   */
  lemma UserSpellingMatchesIff(ops: seq<Operation>, e: WebhookEntry, userPath: string, stored: string)
    requires NormalisePath(userPath) == Some(stored) && e.path == stored
    requires Registered(History(ops), e).Success?
    ensures
      var looked, byKey := KeyFor(userPath, e.httpMethod), Registered(History(ops), e).value.byKey;
      && looked.Success?
      && (looked.value in byKey && Filed(e) == Success(byKey[looked.value]) <==> Fixed(stored))
  {
    HistoryFiles(ops);
  }

  /**
   The failing family: for every path that starts with a slash, a webhook spelled with one more
   shielded slash is filed under the key that requests for the shorter spelling look up.
   */
  lemma AnotherWebhookAnswers(r: string, e1: WebhookEntry, e2: WebhookEntry, m: string)
    requires Canonical(r) && r[0] == '/' && Last(r) != '/' && NormalisePath(r).Some? && NormaliseMethod(m).Some?
    requires e1.path == "/-" + r && e2.path == r && e1.httpMethod == e2.httpMethod == m && e1.id != e2.id
    ensures NormalisePath("-/-" + r) == Some(e1.path) && NormalisePath("-" + r) == Some(e2.path)
    ensures
      var (index, fault) := RegisteredAll(EMPTY, [e1, e2]);
      var looked := KeyFor("-" + r, m);
      && fault == None && looked.Success? && looked.value in index.byKey
      && Success(index.byKey[looked.value]) == Filed(e1) && index.byKey[looked.value].id != e2.id
  {
    ShieldedTwice(r);
    RegisterTwo(e1, e2);
  }

  lemma RegisterTwo(e1: WebhookEntry, e2: WebhookEntry)
    requires KeyFor(e1.path, e1.httpMethod).Success? && KeyFor(e2.path, e2.httpMethod).Success?
    requires KeyFor(e1.path, e1.httpMethod) != KeyFor(e2.path, e2.httpMethod)
    ensures
      var (index, fault) := RegisteredAll(EMPTY, [e1, e2]);
      && fault == None
      && index.byKey == map[KeyFor(e1.path, e1.httpMethod).value := Filed(e1).value,
                            KeyFor(e2.path, e2.httpMethod).value := Filed(e2).value]
  {
    LoadTwo(e1, e2);
  }

  // ---- Methods and conflicts -----------------------------------------------------------------------------------

  /** The names a webhook method may have. */
  ghost predicate IsMethodName(u: string) {
    u == "GET" || u == "POST" || u == "PUT" || u == "PATCH" || u == "DELETE" || u == "HEAD" || u == "OPTIONS"
  }

  /** s spells u but for the case of ASCII letters. */
  ghost predicate SpellsUpper(s: string, u: string) {
    |s| == |u| && forall i | 0 <= i < |s| ::
      if 'a' <= s[i] <= 'z' then 'A' <= u[i] <= 'Z' && s[i] as int == u[i] as int + 32 else s[i] == u[i]
  }

  lemma UpperSpells(s: string, u: string)
    ensures SpellsUpper(s, u) <==> Upper(s) == u
  {
    if SpellsUpper(s, u) {
      assert forall i | 0 <= i < |s| :: Upper(s)[i] == u[i];
    }
  }

  /** A method is accepted exactly when it spells one of the seven names in any case, with blanks around it. */
  lemma MethodIff(blank1: string, s: string, blank2: string, u: string)
    requires AllIn(IsSpace, blank1) && AllIn(IsSpace, blank2) && s != [] && Trimmed(s, IsSpace)
    ensures NormaliseMethod(blank1 + s + blank2) == Some(u) <==> IsMethodName(u) && SpellsUpper(s, u)
  {
    StripRuns(IsSpace, blank1, s, blank2);
    UpperSpells(s, u);
  }

  /** A registration is refused for its path first, then its method, then for a key that another id holds, and names the holder. */
  lemma RefusedFor(index: Index, e: WebhookEntry)
    ensures NormalisePath(e.path) == None ==> Registered(index, e) == Failure(InvalidPath)
    ensures NormalisePath(e.path).Some? && NormaliseMethod(e.httpMethod) == None ==> Registered(index, e) == Failure(UnsupportedMethod)
    ensures NormalisePath(e.path).Some? && NormaliseMethod(e.httpMethod).Some? ==>
              var key := (NormalisePath(e.path).value, NormaliseMethod(e.httpMethod).value);
              if key in index.byKey && index.byKey[key].id != e.id
              then Registered(index, e) == Failure(Conflict(index.byKey[key].workflowId, index.byKey[key].nodeId))
              else Registered(index, e).Success? && key in Registered(index, e).value.byKey &&
                   Registered(index, e).value.byKey[key] ==
                   WebhookEntry(e.id, e.workflowId, e.nodeId, e.projectId, key.0, key.1, e.isDynamic, e.responseMode)
  {
  }
}
