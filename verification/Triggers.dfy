/** Trigger activation: persisted rows mirrored by the webhook registry and the job table. */
module Triggers {
  import opened Collections
  import opened WebhookRegistries

  // ---- Rows, jobs and their memory image ------------------------------------------------------

  datatype ScheduleSpec = ScheduleSpec(kind: string, cron: Option<string>, interval: Option<int>, timezone: string)

  predicate ValidSpec(s: ScheduleSpec) {
    || (s.kind == "cron" && s.cron.Some? && s.cron.value != "")
    || (s.kind == "interval" && s.interval.Some? && s.interval.value != 0)
  }

  datatype ScheduleRow = ScheduleRow(
    id: string,
    workflowId: string,
    projectId: string,
    nodeId: string,
    kind: string,
    cron: Option<string>,
    interval: Option<int>,
    timezone: string)

  function SpecOfRow(r: ScheduleRow): ScheduleSpec {
    ScheduleSpec(r.kind, r.cron, r.interval, r.timezone)
  }

  /** A scheduled job: its schedule and the request its callback enqueues. */
  datatype Job = Job(spec: ScheduleSpec, workflowId: string, projectId: string, nodeId: string)

  function JobOf(r: ScheduleRow): Job {
    Job(SpecOfRow(r), r.workflowId, r.projectId, r.nodeId)
  }

  function JobId(workflowId: string, nodeId: string): string {
    "schedule:" + workflowId + ":" + nodeId
  }

  function JobIdOf(r: ScheduleRow): string {
    JobId(r.workflowId, r.nodeId)
  }

  /** Neither id continues the other after a colon. */
  predicate Apart(w1: string, w2: string) {
    !(w1 + ":" <= w2) && !(w2 + ":" <= w1)
  }

  /** Two different workflows can share a job id exactly when one id continues the other after a colon. */
  lemma JobIdsMeetIff(w1: string, w2: string)
    requires w1 != w2
    ensures (exists n1, n2 :: JobId(w1, n1) == JobId(w2, n2)) <==> !Apart(w1, w2)
  {
    forall n1, n2 | JobId(w1, n1) == JobId(w2, n2)
      ensures !Apart(w1, w2)
    {
      if |w1| <= |w2| {
        SharedJobId(w1, n1, w2, n2);
      } else {
        SharedJobId(w2, n2, w1, n1);
      }
    }
    if w1 + ":" <= w2 {
      ContinuedIdMeets(w1, w2);
    } else if w2 + ":" <= w1 {
      ContinuedIdMeets(w2, w1);
    }
  }

  lemma SharedJobId(w1: string, n1: string, w2: string, n2: string)
    requires JobId(w1, n1) == JobId(w2, n2) && |w1| <= |w2|
    ensures w1 + ":" <= w2 || (w1 == w2 && n1 == n2)
  {
    var p := |"schedule:"|;
    var s, t := w1 + ":" + n1, w2 + ":" + n2;
    assert s == JobId(w1, n1)[p..] && t == JobId(w2, n2)[p..];
    assert w1 + ":" == s[..|w1| + 1] && w2 + ":" == t[..|w2| + 1];
    if |w1| == |w2| {
      assert w1 == s[..|w1|] && w2 == t[..|w2|] && n1 == s[|w1| + 1..] && n2 == t[|w2| + 1..];
    } else {
      assert w2[..|w1| + 1] == t[..|w1| + 1];
    }
  }

  lemma ContinuedIdMeets(w1: string, w2: string)
    requires w1 + ":" <= w2
    ensures exists n1, n2 :: JobId(w1, n1) == JobId(w2, n2)
  {
    var rest := w2[|w1| + 1..];
    assert w2 == w1 + ":" + rest;
    assert JobId(w1, rest + ":") == JobId(w2, "");
  }

  /** Ids that are apart keep their job ids apart. */
  lemma JobIdInjective(w1: string, n1: string, w2: string, n2: string)
    requires w1 == w2 || Apart(w1, w2)
    ensures JobId(w1, n1) == JobId(w2, n2) <==> w1 == w2 && n1 == n2
  {
    if JobId(w1, n1) == JobId(w2, n2) {
      if |w1| <= |w2| {
        SharedJobId(w1, n1, w2, n2);
      } else {
        SharedJobId(w2, n2, w1, n1);
      }
    }
  }

  datatype Tables = Tables(webhooks: set<WebhookEntry>, schedules: set<ScheduleRow>)

  datatype Memory = Memory(index: Index, jobs: map<string, Job>)

  datatype World = World(tables: Tables, memory: Memory)

  function KeyOf(r: WebhookEntry): Result<Key, RegistryError> {
    KeyFor(r.path, r.httpMethod)
  }

  // ---- The mirror invariant -----------------------------------------------------------------------

  ghost predicate HasRow(rows: set<WebhookEntry>, key: Key) {
    exists r :: r in rows && KeyOf(r) == Success(key)
  }

  /** The registry holds one entry for every webhook row and nothing else. */
  ghost predicate MirrorsWebhooks(rows: set<WebhookEntry>, index: Index) {
    && Agree(index)
    && (forall r | r in rows :: Holds(index.byKey, r))
    && (forall k | k in index.byKey :: HasRow(rows, k))
    && OneRowPerKey(rows)
  }

  ghost predicate OneRowPerKey(rows: set<WebhookEntry>) {
    forall r, r' | r in rows && r' in rows && KeyOf(r) == KeyOf(r') :: r == r'
  }

  ghost predicate HasSchedule(rows: set<ScheduleRow>, job: string) {
    exists r :: r in rows && JobIdOf(r) == job
  }

  /** The job table holds one job for every schedule row and nothing else. */
  ghost predicate MirrorsJobs(rows: set<ScheduleRow>, jobs: map<string, Job>) {
    && (forall r | r in rows :: ValidSpec(SpecOfRow(r)) && JobIdOf(r) in jobs && jobs[JobIdOf(r)] == JobOf(r))
    && (forall j | j in jobs :: HasSchedule(rows, j))
    && (forall r, r' | r in rows && r' in rows && JobIdOf(r) == JobIdOf(r') :: r == r')
  }

  ghost predicate Mirror(w: World) {
    MirrorsWebhooks(w.tables.webhooks, w.memory.index) && MirrorsJobs(w.tables.schedules, w.memory.jobs)
  }

  lemma SameByKey(rows: set<WebhookEntry>, a: Index, b: Index)
    requires MirrorsWebhooks(rows, a) && MirrorsWebhooks(rows, b)
    ensures a.byKey == b.byKey
  {
    forall k | k in a.byKey
      ensures k in b.byKey && a.byKey[k] == b.byKey[k]
    {
      assert HasRow(rows, k);
      var r :| r in rows && KeyOf(r) == Success(k);
      assert Holds(a.byKey, r) && Holds(b.byKey, r);
    }
    forall k | k in b.byKey
      ensures k in a.byKey
    {
      assert HasRow(rows, k);
      var r :| r in rows && KeyOf(r) == Success(k);
      assert Holds(a.byKey, r);
    }
  }

  lemma SameJobs(rows: set<ScheduleRow>, a: map<string, Job>, b: map<string, Job>)
    requires MirrorsJobs(rows, a) && MirrorsJobs(rows, b)
    ensures a == b
  {
    forall j | j in a
      ensures j in b && a[j] == b[j]
    {
      assert HasSchedule(rows, j);
    }
    forall j | j in b
      ensures j in a
    {
      assert HasSchedule(rows, j);
    }
  }

  /** The tables determine the memory that mirrors them. */
  lemma MirrorUnique(t: Tables, a: Memory, b: Memory)
    requires Mirror(World(t, a)) && Mirror(World(t, b))
    ensures a == b
  {
    SameByKey(t.webhooks, a.index, b.index);
    SameJobs(t.schedules, a.jobs, b.jobs);
  }

  // ---- Adding rows -------------------------------------------------------------------------------------

  lemma MirroredIds(rows: set<WebhookEntry>, index: Index, id: string)
    requires MirrorsWebhooks(rows, index) && forall r | r in rows :: r.id != id
    ensures forall k | k in index.byKey :: index.byKey[k].id != id
  {
    forall k | k in index.byKey
      ensures index.byKey[k].id != id
    {
      assert HasRow(rows, k);
      var r :| r in rows && KeyOf(r) == Success(k);
      assert Holds(index.byKey, r);
    }
  }

  /** A row with a new id that the registry accepts extends the mirror. */
  lemma AddWebhook(rows: set<WebhookEntry>, index: Index, row: WebhookEntry)
    requires MirrorsWebhooks(rows, index) && (forall r | r in rows :: r.id != row.id)
    requires Registered(index, row).Success?
    ensures MirrorsWebhooks(rows + {row}, Registered(index, row).value)
  {
    MirroredIds(rows, index, row.id);
    FreshRegister(index, row);
    AddNewKey(rows, index, row, KeyOf(row).value);
  }

  lemma RowsFound(rows: set<WebhookEntry>, index: Index, row: WebhookEntry, key: Key, byKey: map<Key, WebhookEntry>)
    requires forall k | k in index.byKey :: HasRow(rows, k)
    requires KeyOf(row) == Success(key) && byKey.Keys == index.byKey.Keys + {key}
    ensures forall k | k in byKey :: HasRow(rows + {row}, k)
  {
    forall k | k in byKey
      ensures HasRow(rows + {row}, k)
    {
      if k in index.byKey {
        assert HasRow(rows, k);
        var r :| r in rows && KeyOf(r) == Success(k);
        assert r in rows + {row};
      } else {
        assert row in rows + {row};
      }
    }
  }

  lemma RowsHeld(rows: set<WebhookEntry>, index: Index, row: WebhookEntry, key: Key)
    requires forall r | r in rows :: Holds(index.byKey, r)
    requires KeyOf(row) == Success(key) && key !in index.byKey && Registered(index, row).Success?
    ensures forall r | r in rows + {row} :: Holds(Registered(index, row).value.byKey, r)
  {
    forall r | r in rows + {row}
      ensures Holds(Registered(index, row).value.byKey, r)
    {
      if r in rows { assert Holds(index.byKey, r); }
    }
  }

  lemma OneMoreRow(rows: set<WebhookEntry>, index: Index, row: WebhookEntry, key: Key)
    requires OneRowPerKey(rows) && forall r | r in rows :: Holds(index.byKey, r)
    requires KeyOf(row) == Success(key) && key !in index.byKey
    ensures OneRowPerKey(rows + {row})
  {
    forall r | r in rows
      ensures KeyOf(r) != KeyOf(row)
    {
      assert Holds(index.byKey, r);
    }
  }

  lemma RegisteredNew(index: Index, row: WebhookEntry, key: Key)
    requires Agree(index) && KeyOf(row) == Success(key) && key !in index.byKey
    ensures Registered(index, row).Success? && Agree(Registered(index, row).value)
    ensures Registered(index, row).value.byKey.Keys == index.byKey.Keys + {key}
  {
    RegisterAgreesIff(index, row);
  }

  /** A row under a new key extends the mirror. */
  lemma AddNewKey(rows: set<WebhookEntry>, index: Index, row: WebhookEntry, key: Key)
    requires MirrorsWebhooks(rows, index) && KeyOf(row) == Success(key) && key !in index.byKey
    ensures Registered(index, row).Success? && MirrorsWebhooks(rows + {row}, Registered(index, row).value)
  {
    RegisteredNew(index, row, key);
    OneMoreRow(rows, index, row, key);
    RowsFound(rows, index, row, key, Registered(index, row).value.byKey);
    RowsHeld(rows, index, row, key);
  }

  lemma AddSchedule(rows: set<ScheduleRow>, jobs: map<string, Job>, row: ScheduleRow)
    requires MirrorsJobs(rows, jobs) && JobIdOf(row) !in jobs && ValidSpec(SpecOfRow(row))
    ensures MirrorsJobs(rows + {row}, jobs[JobIdOf(row) := JobOf(row)])
  {
    var jobs' := jobs[JobIdOf(row) := JobOf(row)];
    forall j | j in jobs'
      ensures HasSchedule(rows + {row}, j)
    {
      if j in jobs {
        assert HasSchedule(rows, j);
        var r :| r in rows && JobIdOf(r) == j;
        assert r in rows + {row};
      } else {
        assert row in rows + {row};
      }
    }
  }

  /** A valid schedule extends the mirror exactly when its job id is new. */
  lemma AddScheduleIff(rows: set<ScheduleRow>, jobs: map<string, Job>, row: ScheduleRow)
    requires MirrorsJobs(rows, jobs) && ValidSpec(SpecOfRow(row)) && row !in rows
    ensures MirrorsJobs(rows + {row}, jobs[JobIdOf(row) := JobOf(row)]) <==> JobIdOf(row) !in jobs
  {
    if JobIdOf(row) in jobs {
      assert HasSchedule(rows, JobIdOf(row));
      var r :| r in rows && JobIdOf(r) == JobIdOf(row);
      assert r in rows + {row} && row in rows + {row} && r != row;
    } else {
      AddSchedule(rows, jobs, row);
    }
  }

  // ---- Removing a workflow's rows -------------------------------------------------------------------------

  function OtherWebhooks(rows: set<WebhookEntry>, workflowId: string): set<WebhookEntry> {
    set r | r in rows && r.workflowId != workflowId
  }

  function OtherSchedules(rows: set<ScheduleRow>, workflowId: string): set<ScheduleRow> {
    set r | r in rows && r.workflowId != workflowId
  }

  /** The keys the given rows are filed under. */
  ghost function KeysOf(rows: set<WebhookEntry>): set<Key> {
    set r | r in rows && KeyOf(r).Success? :: KeyOf(r).value
  }

  ghost function JobIdsOf(rows: set<ScheduleRow>): set<string> {
    set r | r in rows :: JobIdOf(r)
  }

  /** The index that files the given entries. */
  ghost function IndexOf(byKey: map<Key, WebhookEntry>): Index {
    Index(byKey, Grouping(byKey))
  }

  lemma RemoveWebhooks(rows: set<WebhookEntry>, index: Index, gone: set<WebhookEntry>)
    requires MirrorsWebhooks(rows, index) && gone <= rows
    ensures MirrorsWebhooks(rows - gone, IndexOf(index.byKey - KeysOf(gone)))
  {
    var byKey := index.byKey - KeysOf(gone);
    forall r | r in rows - gone
      ensures Holds(byKey, r)
    {
      assert Holds(index.byKey, r);
      assert forall g | g in gone :: KeyOf(g) != KeyOf(r);
    }
    forall k | k in byKey
      ensures HasRow(rows - gone, k)
    {
      assert HasRow(rows, k);
      var r :| r in rows && KeyOf(r) == Success(k);
      assert r !in gone;
    }
  }

  lemma RemoveSchedules(rows: set<ScheduleRow>, jobs: map<string, Job>, gone: set<ScheduleRow>)
    requires MirrorsJobs(rows, jobs) && gone <= rows
    ensures MirrorsJobs(rows - gone, jobs - JobIdsOf(gone))
  {
    var left := jobs - JobIdsOf(gone);
    forall r | r in rows - gone
      ensures ValidSpec(SpecOfRow(r)) && JobIdOf(r) in left && left[JobIdOf(r)] == JobOf(r)
    {
      assert forall g | g in gone :: JobIdOf(g) != JobIdOf(r);
    }
    forall j | j in left
      ensures HasSchedule(rows - gone, j)
    {
      assert HasSchedule(rows, j);
      var r :| r in rows && JobIdOf(r) == j;
      assert r !in gone;
    }
  }

  /** The world after a workflow's rows, entries and jobs are gone. */
  ghost function Deactivated(w: World, workflowId: string): World {
    var gone := w.tables.webhooks - OtherWebhooks(w.tables.webhooks, workflowId);
    var stopped := w.tables.schedules - OtherSchedules(w.tables.schedules, workflowId);
    World(Tables(OtherWebhooks(w.tables.webhooks, workflowId), OtherSchedules(w.tables.schedules, workflowId)),
          Memory(IndexOf(w.memory.index.byKey - KeysOf(gone)), w.memory.jobs - JobIdsOf(stopped)))
  }

  lemma DeactivateKeepsMirror(w: World, workflowId: string)
    requires Mirror(w)
    ensures Mirror(Deactivated(w, workflowId))
  {
    var t := w.tables;
    var gone := t.webhooks - OtherWebhooks(t.webhooks, workflowId);
    var stopped := t.schedules - OtherSchedules(t.schedules, workflowId);
    assert t.webhooks - gone == OtherWebhooks(t.webhooks, workflowId);
    assert t.schedules - stopped == OtherSchedules(t.schedules, workflowId);
    RemoveWebhooks(t.webhooks, w.memory.index, gone);
    RemoveSchedules(t.schedules, w.memory.jobs, stopped);
  }

  /** Deactivation removes exactly the entries and jobs of that workflow. */
  lemma DeactivateRemovesExactly(w: World, workflowId: string)
    requires Mirror(w)
    ensures
      var after, before := Deactivated(w, workflowId).memory, w.memory;
      && (forall k :: k in after.index.byKey <==> k in before.index.byKey && before.index.byKey[k].workflowId != workflowId)
      && (forall k | k in after.index.byKey :: after.index.byKey[k] == before.index.byKey[k])
      && (forall j :: j in after.jobs <==> j in before.jobs && before.jobs[j].workflowId != workflowId)
      && (forall j | j in after.jobs :: after.jobs[j] == before.jobs[j])
  {
    forall k | k in w.memory.index.byKey
      ensures k in Deactivated(w, workflowId).memory.index.byKey <==> w.memory.index.byKey[k].workflowId != workflowId
    {
      WebhookStays(w, workflowId, k);
    }
    forall j | j in w.memory.jobs
      ensures j in Deactivated(w, workflowId).memory.jobs <==> w.memory.jobs[j].workflowId != workflowId
    {
      JobStays(w, workflowId, j);
    }
  }

  lemma WebhookStays(w: World, workflowId: string, k: Key)
    requires MirrorsWebhooks(w.tables.webhooks, w.memory.index) && k in w.memory.index.byKey
    ensures
      var rows := w.tables.webhooks;
      k in KeysOf(rows - OtherWebhooks(rows, workflowId)) <==> w.memory.index.byKey[k].workflowId == workflowId
  {
    var rows := w.tables.webhooks;
    assert HasRow(rows, k);
    var r :| r in rows && KeyOf(r) == Success(k);
    assert Holds(w.memory.index.byKey, r);
    assert r.workflowId == workflowId ==> r in rows - OtherWebhooks(rows, workflowId);
  }

  lemma JobStays(w: World, workflowId: string, j: string)
    requires MirrorsJobs(w.tables.schedules, w.memory.jobs) && j in w.memory.jobs
    ensures
      var rows := w.tables.schedules;
      j in JobIdsOf(rows - OtherSchedules(rows, workflowId)) <==> w.memory.jobs[j].workflowId == workflowId
  {
    var rows := w.tables.schedules;
    assert HasSchedule(rows, j);
    var r :| r in rows && JobIdOf(r) == j;
    assert r.workflowId == workflowId ==> r in rows - OtherSchedules(rows, workflowId);
  }

  // ---- Rebuilding from the tables ------------------------------------------------------------------------------

  /** Loading any part of a mirrored table succeeds and mirrors that part. */
  lemma {:induction false} LoadPart(table: set<WebhookEntry>, full: Index, done: set<WebhookEntry>, index: Index, rows: seq<WebhookEntry>)
    requires MirrorsWebhooks(table, full) && MirrorsWebhooks(done, index)
    requires Distinct(rows) && Elems(rows) !! done && Elems(rows) <= table && done <= table
    ensures RegisteredAll(index, rows).1 == None
    ensures MirrorsWebhooks(done + Elems(rows), RegisteredAll(index, rows).0)
    decreases |rows|
  {
    if rows == [] {
      assert done + Elems(rows) == done;
    } else {
      var row := rows[0];
      assert row in Elems(rows);
      NextRowAccepted(table, full, done, index, row);
      RestOfRows(rows, done);
      LoadPart(table, full, done + {row}, Registered(index, row).value, rows[1..]);
    }
  }

  lemma RestOfRows<T>(rows: seq<T>, done: set<T>)
    requires rows != [] && Distinct(rows) && Elems(rows) !! done
    ensures Distinct(rows[1..]) && Elems(rows[1..]) !! done + {rows[0]}
    ensures done + {rows[0]} + Elems(rows[1..]) == done + Elems(rows) && Elems(rows[1..]) <= Elems(rows)
  {
    assert rows == [rows[0]] + rows[1..];
    ElemsAppend([rows[0]], rows[1..]);
  }

  lemma NextRowAccepted(table: set<WebhookEntry>, full: Index, done: set<WebhookEntry>, index: Index, row: WebhookEntry)
    requires MirrorsWebhooks(table, full) && MirrorsWebhooks(done, index)
    requires row in table && row !in done && done <= table
    ensures Registered(index, row).Success? && MirrorsWebhooks(done + {row}, Registered(index, row).value)
  {
    assert Holds(full.byKey, row);
    var key := KeyOf(row).value;
    assert key in index.byKey ==> HasRow(done, key);
    AddNewKey(done, index, row, key);
  }

  /** Adds the jobs of the rows in order, stopping at the first invalid schedule. */
  function JobsLoaded(jobs: map<string, Job>, rows: seq<ScheduleRow>): (map<string, Job>, bool) {
    if rows == [] then (jobs, true)
    else
      var (before, ok) := JobsLoaded(jobs, Init(rows));
      if ok && ValidSpec(SpecOfRow(Last(rows))) then (before[JobIdOf(Last(rows)) := JobOf(Last(rows))], true)
      else (before, false)
  }

  lemma {:induction false} JobsRebuilt(table: set<ScheduleRow>, full: map<string, Job>, rows: seq<ScheduleRow>)
    requires MirrorsJobs(table, full) && Elems(rows) <= table && Distinct(rows)
    ensures JobsLoaded(map[], rows).1 && MirrorsJobs(Elems(rows), JobsLoaded(map[], rows).0)
  {
    if rows != [] {
      var row, before := Last(rows), Init(rows);
      InitLast(rows);
      ElemsInit(rows);
      JobsRebuilt(table, full, before);
      var jobs := JobsLoaded(map[], before).0;
      assert row in Elems(rows) && row !in Elems(before);
      assert JobIdOf(row) in jobs ==> HasSchedule(Elems(before), JobIdOf(row));
      AddSchedule(Elems(before), jobs, row);
    }
  }

  /**
   Restart: whatever order the rows come back in, loading them into empty memory
   rebuilds exactly the memory that mirrored the tables.
   */
  lemma RestartRebuilds(w: World, webhooks: seq<WebhookEntry>, schedules: seq<ScheduleRow>)
    requires Mirror(w) && IsListing(webhooks, w.tables.webhooks) && IsListing(schedules, w.tables.schedules)
    ensures RegisteredAll(EMPTY, webhooks) == (w.memory.index, None)
    ensures JobsLoaded(map[], schedules) == (w.memory.jobs, true)
  {
    var t := w.tables;
    LoadPart(t.webhooks, w.memory.index, {}, EMPTY, webhooks);
    assert {} + Elems(webhooks) == t.webhooks;
    JobsRebuilt(t.schedules, w.memory.jobs, schedules);
    var rebuilt := Memory(RegisteredAll(EMPTY, webhooks).0, JobsLoaded(map[], schedules).0);
    MirrorUnique(t, w.memory, rebuilt);
  }

  // ---- Rows the registry refused ---------------------------------------------------------------------------------

  /** The row has no key, or its key is held by another id: the registry does not hold it and never will while it stands. */
  ghost predicate LockedOut(index: Index, r: WebhookEntry) {
    KeyOf(r).Failure? || (KeyOf(r).value in index.byKey && index.byKey[KeyOf(r).value].id != r.id)
  }

  /** Memory mirrors all stored rows but the refused ones, which are locked out. */
  ghost predicate MirrorsBut(w: World, refused: set<WebhookEntry>) {
    && refused <= w.tables.webhooks
    && MirrorsWebhooks(w.tables.webhooks - refused, w.memory.index)
    && (forall r | r in refused :: LockedOut(w.memory.index, r))
    && MirrorsJobs(w.tables.schedules, w.memory.jobs)
  }

  /** The mirror holds exactly when nothing was refused. */
  lemma MirrorIffNoneRefused(w: World, refused: set<WebhookEntry>)
    requires MirrorsBut(w, refused)
    ensures Mirror(w) <==> refused == {}
  {
    if refused == {} {
      assert w.tables.webhooks - refused == w.tables.webhooks;
    } else {
      var r :| r in refused;
      assert LockedOut(w.memory.index, r) && !Holds(w.memory.index.byKey, r);
    }
  }

  ghost predicate HasId(byKey: map<Key, WebhookEntry>, key: Key, id: string) {
    key in byKey && byKey[key].id == id
  }

  lemma {:induction false} LoadKeepsId(index: Index, rows: seq<WebhookEntry>, key: Key, id: string)
    requires HasId(index.byKey, key, id) && RegisteredAll(index, rows).1 == None
    ensures HasId(RegisteredAll(index, rows).0.byKey, key, id)
    decreases |rows|
  {
    if rows != [] { LoadKeepsId(Registered(index, rows[0]).value, rows[1..], key, id); }
  }

  /** A load that is not refused leaves every loaded row's id under its key. */
  lemma {:induction false} LoadedIds(index: Index, rows: seq<WebhookEntry>, r: WebhookEntry)
    requires RegisteredAll(index, rows).1 == None && r in rows
    ensures KeyOf(r).Success? && HasId(RegisteredAll(index, rows).0.byKey, KeyOf(r).value, r.id)
    decreases |rows|
  {
    var next := Registered(index, rows[0]).value;
    if r == rows[0] {
      LoadKeepsId(next, rows[1..], KeyOf(r).value, r.id);
    } else {
      LoadedIds(next, rows[1..], r);
    }
  }

  /** With a refused row among the stored ones, loading them fails in whatever order they come. */
  lemma RefusedBlocksLoad(w: World, refused: set<WebhookEntry>, rows: seq<WebhookEntry>)
    requires MirrorsBut(w, refused) && refused != {} && Elems(rows) == w.tables.webhooks
    ensures RegisteredAll(EMPTY, rows).1.Some?
  {
    var r :| r in refused;
    assert r in Elems(rows) && LockedOut(w.memory.index, r);
    if RegisteredAll(EMPTY, rows).1 == None {
      LoadedIds(EMPTY, rows, r);
      var holder := KeyHolder(w, refused, KeyOf(r).value);
      assert holder in Elems(rows);
      LoadedIds(EMPTY, rows, holder);
    }
  }

  lemma KeyHolder(w: World, refused: set<WebhookEntry>, key: Key) returns (r: WebhookEntry)
    requires MirrorsBut(w, refused) && key in w.memory.index.byKey
    ensures r in w.tables.webhooks && KeyOf(r) == Success(key) && r.id == w.memory.index.byKey[key].id
  {
    assert HasRow(w.tables.webhooks - refused, key);
    r :| r in w.tables.webhooks - refused && KeyOf(r) == Success(key);
    assert Holds(w.memory.index.byKey, r);
  }
}
