/** Workflow activation, node by node: what it writes, registers and reports. */
module Activations {
  import opened Collections
  import opened Text
  import opened Paths
  import opened Digraphs
  import opened Workflows
  import opened WebhookRegistries
  import opened Triggers

  const WEBHOOK_TRIGGER_TYPES: set<string> := {"weftlyflow.webhook_trigger", "weftlyflow.trigger_chat"}
  const SCHEDULE_TRIGGER_TYPE := "weftlyflow.schedule_trigger"

  /** How a node's parameters spell a schedule; nothing when they do not parse. */
  type SpecReader = map<string, string> -> Option<ScheduleSpec>

  // ---- One node -------------------------------------------------------------------------------

  function Param(node: Node, name: string): Option<string> {
    if name in node.parameters then Some(node.parameters[name]) else None
  }

  function Or(value: Option<string>, default: string): string {
    if value.Some? then value.value else default
  }

  function WebhookRow(wf: Workflow, node: Node, id: string): Option<WebhookEntry> {
    match StaticPath(wf.id, node.id, Param(node, "path"))
    case None => None
    case Some(path) =>
      Some(WebhookEntry(id, wf.id, node.id, wf.projectId, path, Upper(Or(Param(node, "method"), "POST")), false,
                        Or(Param(node, "response_mode"), "immediately")))
  }

  function ScheduleRowFor(wf: Workflow, node: Node, id: string, spec: ScheduleSpec): ScheduleRow {
    ScheduleRow(id, wf.id, wf.projectId, node.id, spec.kind, spec.cron, spec.interval, spec.timezone)
  }

  /** The table refuses a second row with the same path and method. */
  predicate Taken(rows: set<WebhookEntry>, row: WebhookEntry) {
    exists r | r in rows :: r.path == row.path && r.httpMethod == row.httpMethod
  }

  /** What activating one node came to: the path or job id it added, or a failure. */
  datatype NodeResult = PassedOver | AddedWebhook(path: string) | AddedSchedule(jobId: string) | Failed

  function RegisterWebhook(w: World, wf: Workflow, node: Node, id: string): (World, NodeResult) {
    match WebhookRow(wf, node, id)
    case None => (w, Failed)
    case Some(row) =>
      if Taken(w.tables.webhooks, row) then (w, Failed)
      else
        var tables := w.tables.(webhooks := w.tables.webhooks + {row});
        match Registered(w.memory.index, row)
        case Failure(_) => (World(tables, w.memory), Failed)
        case Success(next) => (World(tables, w.memory.(index := next)), AddedWebhook(row.path))
  }

  function RegisterSchedule(w: World, wf: Workflow, node: Node, id: string, reader: SpecReader): (World, NodeResult) {
    match reader(node.parameters)
    case None => (w, Failed)
    case Some(spec) =>
      if !ValidSpec(spec) then (w, Failed)
      else
        var row := ScheduleRowFor(wf, node, id, spec);
        (World(w.tables.(schedules := w.tables.schedules + {row}),
               w.memory.(jobs := w.memory.jobs[JobIdOf(row) := JobOf(row)])), AddedSchedule(JobIdOf(row)))
  }

  /** Disabled nodes and nodes that are no triggers are passed over. */
  function ActivateNode(w: World, wf: Workflow, node: Node, id: string, reader: SpecReader): (World, NodeResult) {
    if node.disabled then (w, PassedOver)
    else if node.kind in WEBHOOK_TRIGGER_TYPES then RegisterWebhook(w, wf, node, id)
    else if node.kind == SCHEDULE_TRIGGER_TYPE then RegisterSchedule(w, wf, node, id, reader)
    else (w, PassedOver)
  }

  /** Paths and job ids added, and the nodes that failed, in node order. */
  datatype ActivationResult = ActivationResult(webhooks: seq<string>, schedules: seq<string>, errors: seq<NodeId>)

  function Noted(r: ActivationResult, node: NodeId, outcome: NodeResult): ActivationResult {
    match outcome
    case PassedOver => r
    case AddedWebhook(path) => r.(webhooks := r.webhooks + [path])
    case AddedSchedule(jobId) => r.(schedules := r.schedules + [jobId])
    case Failed => r.(errors := r.errors + [node])
  }

  /** The node's row is stored and the registry then refuses it. */
  ghost predicate Refuses(w: World, wf: Workflow, node: Node, id: string) {
    && !node.disabled && node.kind in WEBHOOK_TRIGGER_TYPES
    && var row := WebhookRow(wf, node, id);
       row.Some? && !Taken(w.tables.webhooks, row.value) && Registered(w.memory.index, row.value).Failure?
  }

  /** An activation so far; noneRefused tells that no stored row was refused. */
  datatype Activation = Activation(world: World, report: ActivationResult, noneRefused: bool)

  ghost function WithNode(a: Activation, wf: Workflow, node: Node, id: string, reader: SpecReader): Activation {
    var (after, outcome) := ActivateNode(a.world, wf, node, id, reader);
    Activation(after, Noted(a.report, node.id, outcome), a.noneRefused && !Refuses(a.world, wf, node, id))
  }

  ghost function NodeByNode(wf: Workflow, ids: seq<string>, reader: SpecReader): (Activation, nat) -> Activation {
    (a: Activation, i: nat) => if i < |wf.nodes| && i < |ids| then WithNode(a, wf, wf.nodes[i], ids[i], reader) else a
  }

  /** The activation after the first k nodes. */
  ghost function Activating(w: World, wf: Workflow, ids: seq<string>, reader: SpecReader, k: nat): Activation {
    Folded(NodeByNode(wf, ids, reader), Activation(w, ActivationResult([], [], []), true), k)
  }

  ghost function Activated(w: World, wf: Workflow, ids: seq<string>, reader: SpecReader): Activation {
    Activating(w, wf, ids, reader, |wf.nodes|)
  }

  // ---- Activation and the mirror ------------------------------------------------------------------

  ghost predicate Inactive(t: Tables, workflowId: string) {
    && (forall r | r in t.webhooks :: r.workflowId != workflowId)
    && (forall r | r in t.schedules :: r.workflowId != workflowId)
  }

  /** No stored schedule has the job id of a schedule node of the workflow. */
  ghost predicate JobsFree(rows: set<ScheduleRow>, wf: Workflow) {
    forall r, node | r in rows && node in wf.nodes && !node.disabled && node.kind == SCHEDULE_TRIGGER_TYPE ::
      JobIdOf(r) != JobId(wf.id, node.id)
  }

  /** Workflow ids that are apart share no job id. */
  lemma ApartMeansJobsFree(rows: set<ScheduleRow>, wf: Workflow)
    requires forall r | r in rows :: Apart(r.workflowId, wf.id) && r.workflowId != wf.id
    ensures JobsFree(rows, wf)
  {
    forall r, node | r in rows && node in wf.nodes
      ensures JobIdOf(r) != JobId(wf.id, node.id)
    {
      JobIdInjective(r.workflowId, r.nodeId, wf.id, node.id);
    }
  }

  /** Row ids are distinct and unused, node ids are distinct, and the workflow shares no job id with a stored schedule. */
  ghost predicate Activatable(w: World, wf: Workflow, ids: seq<string>) {
    && |ids| == |wf.nodes| && Distinct(ids) && Distinct(Ids(wf.nodes))
    && Inactive(w.tables, wf.id)
    && JobsFree(w.tables.schedules, wf)
    && (forall r | r in w.tables.webhooks :: r.id !in ids)
  }

  ghost function PathsOf(rows: set<WebhookEntry>): set<string> {
    set r | r in rows :: r.path
  }

  /** Part way through an activation: only rows of this workflow were added, for the nodes seen so far. */
  ghost predicate Progress(start: World, w: World, wf: Workflow, ids: seq<string>, k: nat, refused: set<WebhookEntry>)
    requires k <= |wf.nodes| == |ids|
  {
    && MirrorsBut(w, refused)
    && OtherWebhooks(w.tables.webhooks, wf.id) == start.tables.webhooks
    && OtherSchedules(w.tables.schedules, wf.id) == start.tables.schedules
    && (forall r | r in w.tables.webhooks :: r.id !in ids[k..])
    && (forall r | r in w.tables.schedules && r.workflowId == wf.id :: r.nodeId in Ids(wf.nodes)[..k])
    && JobsFree(start.tables.schedules, wf)
  }

  /** The report names what the stored rows of this workflow that were not refused spell out. */
  ghost predicate Reports(w: World, wf: Workflow, refused: set<WebhookEntry>, report: ActivationResult) {
    && Elems(report.webhooks) == PathsOf(w.tables.webhooks - OtherWebhooks(w.tables.webhooks, wf.id) - refused)
    && Elems(report.schedules) == JobIdsOf(w.tables.schedules - OtherSchedules(w.tables.schedules, wf.id))
  }

  lemma LaterIds(wf: Workflow, ids: seq<string>, k: nat)
    requires k < |wf.nodes| == |ids| && Distinct(ids)
    ensures ids[k] in ids[k..] && ids[k] !in ids[k + 1..] && (forall x | x in ids[k + 1..] :: x in ids[k..])
    ensures forall n | n in Ids(wf.nodes)[..k] :: n in Ids(wf.nodes)[..k + 1]
    ensures wf.nodes[k].id in Ids(wf.nodes)[..k + 1]
  {
    assert ids[k..] == [ids[k]] + ids[k + 1..];
    TakeNext(Ids(wf.nodes), k);
    assert Ids(wf.nodes)[..k + 1][k] == wf.nodes[k].id;
  }

  /** No accepted row lets a locked-out one in. */
  lemma KeepLockedOut(index: Index, row: WebhookEntry, refused: set<WebhookEntry>)
    requires Registered(index, row).Success? && KeyOf(row).value !in index.byKey
    requires forall r | r in refused :: LockedOut(index, r)
    ensures forall r | r in refused :: LockedOut(Registered(index, row).value, r)
  {
    forall r | r in refused
      ensures LockedOut(Registered(index, row).value, r)
    {
      assert LockedOut(index, r);
    }
  }

  lemma NewIdNewKey(rows: set<WebhookEntry>, index: Index, row: WebhookEntry)
    requires MirrorsWebhooks(rows, index) && (forall r | r in rows :: r.id != row.id)
    requires Registered(index, row).Success?
    ensures KeyOf(row).value !in index.byKey
  {
    MirroredIds(rows, index, row.id);
    FreshRegister(index, row);
  }

  /** An accepted row extends what memory mirrors. */
  lemma AcceptedRow(w: World, refused: set<WebhookEntry>, row: WebhookEntry)
    requires MirrorsBut(w, refused) && (forall r | r in w.tables.webhooks :: r.id != row.id)
    requires Registered(w.memory.index, row).Success?
    ensures MirrorsBut(World(w.tables.(webhooks := w.tables.webhooks + {row}),
                             w.memory.(index := Registered(w.memory.index, row).value)), refused)
  {
    var rows := w.tables.webhooks;
    NewIdNewKey(rows - refused, w.memory.index, row);
    AddWebhook(rows - refused, w.memory.index, row);
    KeepLockedOut(w.memory.index, row, refused);
    assert row !in refused;
    assert (rows + {row}) - refused == (rows - refused) + {row};
  }

  /** A refused row is stored and locked out. */
  lemma RefusedRow(w: World, refused: set<WebhookEntry>, row: WebhookEntry)
    requires MirrorsBut(w, refused) && (forall r | r in w.tables.webhooks :: r.id != row.id)
    requires Registered(w.memory.index, row).Failure?
    ensures MirrorsBut(World(w.tables.(webhooks := w.tables.webhooks + {row}), w.memory), refused + {row})
  {
    assert (w.tables.webhooks + {row}) - (refused + {row}) == w.tables.webhooks - refused;
  }

  /**
   Registering one webhook node under a new id keeps the mirror exactly when the registry
   accepts the row that the table accepted.
   */
  lemma RegisterKeepsMirrorIff(w: World, wf: Workflow, node: Node, id: string)
    requires Mirror(w) && WebhookRow(wf, node, id).Some? && !Taken(w.tables.webhooks, WebhookRow(wf, node, id).value)
    requires forall r | r in w.tables.webhooks :: r.id != id
    ensures Mirror(RegisterWebhook(w, wf, node, id).0) <==>
            Registered(w.memory.index, WebhookRow(wf, node, id).value).Success?
  {
    var row, after := WebhookRow(wf, node, id).value, RegisterWebhook(w, wf, node, id).0;
    assert w.tables.webhooks - {} == w.tables.webhooks;
    if Registered(w.memory.index, row).Success? {
      AcceptedRow(w, {}, row);
      MirrorIffNoneRefused(after, {});
    } else {
      RefusedRow(w, {}, row);
      MirrorIffNoneRefused(after, {} + {row});
    }
  }

  lemma RowProgress(start: World, w: World, wf: Workflow, ids: seq<string>, k: nat, refused: set<WebhookEntry>,
                    row: WebhookEntry, after: World, refused': set<WebhookEntry>)
    requires k < |wf.nodes| == |ids| && Distinct(ids) && row.workflowId == wf.id && row.id == ids[k]
    requires Progress(start, w, wf, ids, k, refused) && MirrorsBut(after, refused')
    requires after.tables == w.tables.(webhooks := w.tables.webhooks + {row})
    ensures Progress(start, after, wf, ids, k + 1, refused')
  {
    LaterIds(wf, ids, k);
    StoredRow(w, wf, ids, k, row);
  }

  lemma StoredRow(w: World, wf: Workflow, ids: seq<string>, k: nat, row: WebhookEntry)
    requires k < |wf.nodes| == |ids| && Distinct(ids) && row.workflowId == wf.id && row.id == ids[k]
    requires forall r | r in w.tables.webhooks :: r.id !in ids[k..]
    ensures forall r | r in w.tables.webhooks :: r.id != row.id
    ensures
      var rows := w.tables.webhooks + {row};
      && OtherWebhooks(rows, wf.id) == OtherWebhooks(w.tables.webhooks, wf.id)
      && (forall r | r in rows :: r.id !in ids[k + 1..])
  {
    LaterIds(wf, ids, k);
  }

  lemma PathsPush(rows: set<WebhookEntry>, row: WebhookEntry, paths: seq<string>)
    requires Elems(paths) == PathsOf(rows)
    ensures Elems(paths + [row.path]) == PathsOf(rows + {row})
  {
    ElemsPush(paths, row.path);
  }

  lemma JobsPush(rows: set<ScheduleRow>, row: ScheduleRow, jobIds: seq<string>)
    requires Elems(jobIds) == JobIdsOf(rows)
    ensures Elems(jobIds + [JobIdOf(row)]) == JobIdsOf(rows + {row})
  {
    ElemsPush(jobIds, JobIdOf(row));
  }

  /** The report grows by the path of exactly the row that memory came to mirror. */
  lemma WebhookReported(w: World, wf: Workflow, node: Node, id: string, refused: set<WebhookEntry>, refused': set<WebhookEntry>,
                        report: ActivationResult)
    requires Reports(w, wf, refused, report) && refused <= w.tables.webhooks
    requires forall r | r in w.tables.webhooks :: r.id != id
    requires var (after, outcome) := RegisterWebhook(w, wf, node, id);
             refused' == if outcome.Failed? then refused + (after.tables.webhooks - w.tables.webhooks) else refused
    ensures var (after, outcome) := RegisterWebhook(w, wf, node, id);
            Reports(after, wf, refused', Noted(report, node.id, outcome))
  {
    var rows := w.tables.webhooks;
    var (after, outcome) := RegisterWebhook(w, wf, node, id);
    var own := rows - OtherWebhooks(rows, wf.id) - refused;
    var rows' := after.tables.webhooks;
    var own' := rows' - OtherWebhooks(rows', wf.id) - refused';
    if outcome.AddedWebhook? {
      var row := WebhookRow(wf, node, id).value;
      assert own' == own + {row};
      PathsPush(own, row, report.webhooks);
    } else {
      assert own' == own;
    }
  }

  lemma ScheduleReported(w: World, wf: Workflow, node: Node, id: string, reader: SpecReader, refused: set<WebhookEntry>,
                         report: ActivationResult)
    requires Reports(w, wf, refused, report)
    ensures var (after, outcome) := RegisterSchedule(w, wf, node, id, reader);
            Reports(after, wf, refused, Noted(report, node.id, outcome))
  {
    var rows := w.tables.schedules;
    var (after, outcome) := RegisterSchedule(w, wf, node, id, reader);
    if outcome.AddedSchedule? {
      var row := ScheduleRowFor(wf, node, id, reader(node.parameters).value);
      var own := rows - OtherSchedules(rows, wf.id);
      assert (rows + {row}) - OtherSchedules(rows + {row}, wf.id) == own + {row};
      JobsPush(own, row, report.schedules);
    }
  }

  lemma WebhookStep(start: World, w: World, wf: Workflow, ids: seq<string>, k: nat, refused: set<WebhookEntry>)
    returns (refused': set<WebhookEntry>)
    requires k < |wf.nodes| == |ids| && Distinct(ids) && Progress(start, w, wf, ids, k, refused)
    requires !wf.nodes[k].disabled && wf.nodes[k].kind in WEBHOOK_TRIGGER_TYPES
    ensures Progress(start, RegisterWebhook(w, wf, wf.nodes[k], ids[k]).0, wf, ids, k + 1, refused')
    ensures refused' == {} <==> refused == {} && !Refuses(w, wf, wf.nodes[k], ids[k])
    ensures var (after, outcome) := RegisterWebhook(w, wf, wf.nodes[k], ids[k]);
            refused' == if outcome.Failed? then refused + (after.tables.webhooks - w.tables.webhooks) else refused
  {
    var stored := WebhookRow(wf, wf.nodes[k], ids[k]);
    LaterIds(wf, ids, k);
    refused' := refused;
    if stored.Some? && !Taken(w.tables.webhooks, stored.value) {
      var row := stored.value;
      if Registered(w.memory.index, row).Success? {
        AcceptedStep(start, w, wf, ids, k, refused, row);
      } else {
        RefusedStep(start, w, wf, ids, k, refused, row);
        refused' := refused + {row};
      }
    }
  }

  lemma AcceptedStep(start: World, w: World, wf: Workflow, ids: seq<string>, k: nat, refused: set<WebhookEntry>, row: WebhookEntry)
    requires k < |wf.nodes| == |ids| && Distinct(ids) && row.workflowId == wf.id && row.id == ids[k]
    requires Progress(start, w, wf, ids, k, refused) && Registered(w.memory.index, row).Success?
    ensures Progress(start, World(w.tables.(webhooks := w.tables.webhooks + {row}),
                                  w.memory.(index := Registered(w.memory.index, row).value)), wf, ids, k + 1, refused)
  {
    StoredRow(w, wf, ids, k, row);
    AcceptedRow(w, refused, row);
    RowProgress(start, w, wf, ids, k, refused, row,
                World(w.tables.(webhooks := w.tables.webhooks + {row}),
                      w.memory.(index := Registered(w.memory.index, row).value)), refused);
  }

  lemma RefusedStep(start: World, w: World, wf: Workflow, ids: seq<string>, k: nat, refused: set<WebhookEntry>, row: WebhookEntry)
    requires k < |wf.nodes| == |ids| && Distinct(ids) && row.workflowId == wf.id && row.id == ids[k]
    requires Progress(start, w, wf, ids, k, refused) && Registered(w.memory.index, row).Failure?
    ensures Progress(start, World(w.tables.(webhooks := w.tables.webhooks + {row}), w.memory), wf, ids, k + 1, refused + {row})
    ensures (w.tables.webhooks + {row}) - w.tables.webhooks == {row}
  {
    StoredRow(w, wf, ids, k, row);
    RefusedRow(w, refused, row);
    RowProgress(start, w, wf, ids, k, refused, row, World(w.tables.(webhooks := w.tables.webhooks + {row}), w.memory), refused + {row});
  }

  lemma ScheduleStep(start: World, w: World, wf: Workflow, ids: seq<string>, reader: SpecReader, k: nat, refused: set<WebhookEntry>)
    requires k < |wf.nodes| == |ids| && Distinct(ids) && Distinct(Ids(wf.nodes))
    requires Progress(start, w, wf, ids, k, refused)
    requires !wf.nodes[k].disabled && wf.nodes[k].kind == SCHEDULE_TRIGGER_TYPE
    ensures Progress(start, RegisterSchedule(w, wf, wf.nodes[k], ids[k], reader).0, wf, ids, k + 1, refused)
  {
    var spec := reader(wf.nodes[k].parameters);
    LaterIds(wf, ids, k);
    if spec.Some? && ValidSpec(spec.value) {
      var rows, row := w.tables.schedules, ScheduleRowFor(wf, wf.nodes[k], ids[k], spec.value);
      NewJobId(w, wf, row, k);
      AddSchedule(rows, w.memory.jobs, row);
      assert OtherSchedules(rows + {row}, wf.id) == OtherSchedules(rows, wf.id);
    }
  }

  lemma NewJobId(w: World, wf: Workflow, row: ScheduleRow, k: nat)
    requires k < |wf.nodes| && Distinct(Ids(wf.nodes)) && MirrorsJobs(w.tables.schedules, w.memory.jobs)
    requires !wf.nodes[k].disabled && wf.nodes[k].kind == SCHEDULE_TRIGGER_TYPE
    requires JobsFree(OtherSchedules(w.tables.schedules, wf.id), wf)
    requires forall r | r in w.tables.schedules && r.workflowId == wf.id :: r.nodeId in Ids(wf.nodes)[..k]
    requires row.workflowId == wf.id && row.nodeId == wf.nodes[k].id
    ensures JobIdOf(row) !in w.memory.jobs
  {
    assert Ids(wf.nodes)[k] == row.nodeId && wf.nodes[k] in wf.nodes;
    forall r | r in w.tables.schedules
      ensures JobIdOf(r) != JobIdOf(row)
    {
      if r.workflowId == wf.id {
        JobIdInjective(wf.id, r.nodeId, wf.id, row.nodeId);
      } else {
        assert r in OtherSchedules(w.tables.schedules, wf.id);
      }
    }
    assert JobIdOf(row) in w.memory.jobs ==> HasSchedule(w.tables.schedules, JobIdOf(row));
  }

  /** What holds after k nodes of an activation that started in the given world. */
  ghost predicate Stage(start: World, wf: Workflow, ids: seq<string>, a: Activation, k: nat)
    requires |wf.nodes| == |ids|
  {
    k <= |ids| && exists refused ::
      Progress(start, a.world, wf, ids, k, refused) && Reports(a.world, wf, refused, a.report) && (refused == {} <==> a.noneRefused)
  }

  lemma NodeStep(start: World, a: Activation, wf: Workflow, ids: seq<string>, reader: SpecReader, k: nat, refused: set<WebhookEntry>)
    returns (refused': set<WebhookEntry>)
    requires k < |wf.nodes| == |ids| && Distinct(ids) && Distinct(Ids(wf.nodes))
    requires Progress(start, a.world, wf, ids, k, refused) && Reports(a.world, wf, refused, a.report)
    ensures
      var after := WithNode(a, wf, wf.nodes[k], ids[k], reader);
      Progress(start, after.world, wf, ids, k + 1, refused') && Reports(after.world, wf, refused', after.report)
    ensures refused' == {} <==> refused == {} && !Refuses(a.world, wf, wf.nodes[k], ids[k])
  {
    var node := wf.nodes[k];
    refused' := refused;
    LaterIds(wf, ids, k);
    if !node.disabled && node.kind in WEBHOOK_TRIGGER_TYPES {
      refused' := WebhookStep(start, a.world, wf, ids, k, refused);
      WebhookReported(a.world, wf, node, ids[k], refused, refused', a.report);
    } else if !node.disabled && node.kind == SCHEDULE_TRIGGER_TYPE {
      ScheduleStep(start, a.world, wf, ids, reader, k, refused);
      ScheduleReported(a.world, wf, node, ids[k], reader, refused, a.report);
    }
  }

  lemma StageStep(start: World, wf: Workflow, ids: seq<string>, reader: SpecReader, a: Activation, k: nat)
    requires k < |wf.nodes| == |ids| && Distinct(ids) && Distinct(Ids(wf.nodes)) && Stage(start, wf, ids, a, k)
    ensures Stage(start, wf, ids, WithNode(a, wf, wf.nodes[k], ids[k], reader), k + 1)
  {
    var refused :|
      Progress(start, a.world, wf, ids, k, refused) && Reports(a.world, wf, refused, a.report) && (refused == {} <==> a.noneRefused);
    var refused' := NodeStep(start, a, wf, ids, reader, k, refused);
  }

  lemma FirstStage(w: World, wf: Workflow, ids: seq<string>)
    requires Mirror(w) && Activatable(w, wf, ids)
    ensures Stage(w, wf, ids, Activation(w, ActivationResult([], [], []), true), 0)
  {
    assert ids[0..] == ids;
    assert w.tables.webhooks - {} == w.tables.webhooks;
    assert OtherWebhooks(w.tables.webhooks, wf.id) == w.tables.webhooks;
    assert OtherSchedules(w.tables.schedules, wf.id) == w.tables.schedules;
    assert Progress(w, w, wf, ids, 0, {}) && Reports(w, wf, {}, ActivationResult([], [], []));
  }

  lemma LastStage(w: World, wf: Workflow, ids: seq<string>, reader: SpecReader)
    requires |wf.nodes| == |ids| && Distinct(ids) && Distinct(Ids(wf.nodes))
    requires Stage(w, wf, ids, Activation(w, ActivationResult([], [], []), true), 0)
    ensures Stage(w, wf, ids, Activated(w, wf, ids, reader), |wf.nodes|)
  {
    var n, step := |wf.nodes|, NodeByNode(wf, ids, reader);
    var inv := (a: Activation, i: nat) => Stage(w, wf, ids, a, i);
    forall a, i: nat | i < n && inv(a, i)
      ensures inv(step(a, i), i + 1)
    {
      StageStep(w, wf, ids, reader, a, i);
    }
    FoldKeeps(step, Activation(w, ActivationResult([], [], []), true), inv, n, n);
  }

  /**
   Activating an inactive workflow, whatever errors it meets, adds only rows of that workflow,
   leaves memory the mirror of all rows but those the registry refused, and reports the paths
   and job ids of the others.
   */
  lemma ActivateProgress(w: World, wf: Workflow, ids: seq<string>, reader: SpecReader) returns (refused: set<WebhookEntry>)
    requires Mirror(w) && Activatable(w, wf, ids)
    ensures
      var a := Activated(w, wf, ids, reader);
      && Progress(w, a.world, wf, ids, |wf.nodes|, refused) && Reports(a.world, wf, refused, a.report)
      && (refused == {} <==> a.noneRefused)
  {
    FirstStage(w, wf, ids);
    LastStage(w, wf, ids, reader);
    var a := Activated(w, wf, ids, reader);
    refused :| Progress(w, a.world, wf, ids, |wf.nodes|, refused) && Reports(a.world, wf, refused, a.report)
      && (refused == {} <==> a.noneRefused);
  }
}
