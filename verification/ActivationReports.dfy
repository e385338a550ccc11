/** What activating each trigger node comes to, spelled out field by field. */
module ActivationReports {
  import opened Collections
  import opened Text
  import opened Paths
  import opened Digraphs
  import opened Workflows
  import opened WebhookRegistries
  import opened Triggers
  import opened Activations

  // ---- Schedule nodes -------------------------------------------------------------------------

  ghost predicate IsScheduleNode(node: Node) {
    !node.disabled && node.kind == "weftlyflow.schedule_trigger"
  }

  /** The node's parameters read as a cron schedule with an expression or an interval schedule with an interval. */
  ghost predicate Schedulable(reader: SpecReader, node: Node) {
    match reader(node.parameters)
    case None => false
    case Some(spec) =>
      || (spec.kind == "cron" && spec.cron.Some? && |spec.cron.value| > 0)
      || (spec.kind == "interval" && spec.interval.Some? && spec.interval.value != 0)
  }

  /** The job and the row of a schedule node hold what its parameters say. */
  ghost predicate ScheduleAdded(a: Activation, wf: Workflow, node: Node, id: string, reader: SpecReader)
    requires Schedulable(reader, node)
  {
    var spec, jobId := reader(node.parameters).value, "schedule:" + wf.id + ":" + node.id;
    && jobId in a.report.schedules
    && jobId in a.world.memory.jobs
    && a.world.memory.jobs[jobId] ==
       Job(ScheduleSpec(spec.kind, spec.cron, spec.interval, spec.timezone), wf.id, wf.projectId, node.id)
    && ScheduleRow(id, wf.id, wf.projectId, node.id, spec.kind, spec.cron, spec.interval, spec.timezone) in a.world.tables.schedules
  }

  ghost predicate ScheduledBefore(wf: Workflow, reader: SpecReader, k: nat, nodeId: string)
    requires k <= |wf.nodes|
  {
    exists i :: 0 <= i < k && IsScheduleNode(wf.nodes[i]) && Schedulable(reader, wf.nodes[i]) && wf.nodes[i].id == nodeId
  }

  /** After k nodes: every schedule node so far is added or reported, and no other row names a node of the workflow. */
  ghost predicate ScheduleStage(wf: Workflow, ids: seq<string>, reader: SpecReader, a: Activation, k: nat) {
    && k <= |wf.nodes| == |ids|
    && (forall i | 0 <= i < k && IsScheduleNode(wf.nodes[i]) && Schedulable(reader, wf.nodes[i]) ::
          ScheduleAdded(a, wf, wf.nodes[i], ids[i], reader))
    && (forall i | 0 <= i < k && IsScheduleNode(wf.nodes[i]) && !Schedulable(reader, wf.nodes[i]) :: wf.nodes[i].id in a.report.errors)
    && (forall r | r in a.world.tables.schedules && r.workflowId == wf.id :: ScheduledBefore(wf, reader, k, r.nodeId))
  }

  /** One more node leaves the reports and rows of the earlier ones, and their jobs under other ids. */
  lemma NodeKeepsOthers(a: Activation, wf: Workflow, node: Node, id: string, reader: SpecReader)
    ensures
      var after := WithNode(a, wf, node, id, reader);
      && a.report.schedules <= after.report.schedules && a.report.errors <= after.report.errors
      && a.world.tables.schedules <= after.world.tables.schedules
      && (forall j | j in a.world.memory.jobs && j != JobId(wf.id, node.id) ::
            j in after.world.memory.jobs && after.world.memory.jobs[j] == a.world.memory.jobs[j])
  {
  }

  lemma EarlierStay(wf: Workflow, ids: seq<string>, reader: SpecReader, a: Activation, k: nat, i: nat)
    requires i < k < |wf.nodes| == |ids| && Distinct(Ids(wf.nodes)) && Schedulable(reader, wf.nodes[i])
    requires ScheduleAdded(a, wf, wf.nodes[i], ids[i], reader)
    ensures ScheduleAdded(WithNode(a, wf, wf.nodes[k], ids[k], reader), wf, wf.nodes[i], ids[i], reader)
  {
    NodeKeepsOthers(a, wf, wf.nodes[k], ids[k], reader);
    assert Ids(wf.nodes)[i] != Ids(wf.nodes)[k];
    JobIdInjective(wf.id, wf.nodes[i].id, wf.id, wf.nodes[k].id);
  }

  lemma NewScheduleNode(a: Activation, wf: Workflow, node: Node, id: string, reader: SpecReader)
    requires IsScheduleNode(node)
    ensures
      var after := WithNode(a, wf, node, id, reader);
      if Schedulable(reader, node) then ScheduleAdded(after, wf, node, id, reader) else node.id in after.report.errors
  {
  }

  lemma NewRows(a: Activation, wf: Workflow, node: Node, id: string, reader: SpecReader, r: ScheduleRow)
    requires r in WithNode(a, wf, node, id, reader).world.tables.schedules && r !in a.world.tables.schedules
    ensures IsScheduleNode(node) && Schedulable(reader, node) && r.workflowId == wf.id && r.nodeId == node.id
  {
  }

  lemma ScheduleStageStep(wf: Workflow, ids: seq<string>, reader: SpecReader, a: Activation, k: nat)
    requires k < |wf.nodes| && Distinct(Ids(wf.nodes)) && ScheduleStage(wf, ids, reader, a, k)
    ensures ScheduleStage(wf, ids, reader, WithNode(a, wf, wf.nodes[k], ids[k], reader), k + 1)
  {
    var after := WithNode(a, wf, wf.nodes[k], ids[k], reader);
    NodeKeepsOthers(a, wf, wf.nodes[k], ids[k], reader);
    if IsScheduleNode(wf.nodes[k]) { NewScheduleNode(a, wf, wf.nodes[k], ids[k], reader); }
    forall i | 0 <= i < k && IsScheduleNode(wf.nodes[i]) && Schedulable(reader, wf.nodes[i])
      ensures ScheduleAdded(after, wf, wf.nodes[i], ids[i], reader)
    {
      EarlierStay(wf, ids, reader, a, k, i);
    }
    forall r | r in after.world.tables.schedules && r.workflowId == wf.id
      ensures ScheduledBefore(wf, reader, k + 1, r.nodeId)
    {
      if r in a.world.tables.schedules {
        assert ScheduledBefore(wf, reader, k, r.nodeId);
        var i :| 0 <= i < k && IsScheduleNode(wf.nodes[i]) && Schedulable(reader, wf.nodes[i]) && wf.nodes[i].id == r.nodeId;
      } else {
        NewRows(a, wf, wf.nodes[k], ids[k], reader, r);
      }
    }
  }

  lemma EveryScheduleStep(wf: Workflow, ids: seq<string>, reader: SpecReader, a: Activation, i: nat)
    requires |wf.nodes| == |ids| && Distinct(Ids(wf.nodes)) && i < |wf.nodes| && ScheduleStage(wf, ids, reader, a, i)
    ensures ScheduleStage(wf, ids, reader, NodeByNode(wf, ids, reader)(a, i), i + 1)
  {
    ScheduleStageStep(wf, ids, reader, a, i);
    assert NodeByNode(wf, ids, reader)(a, i) == WithNode(a, wf, wf.nodes[i], ids[i], reader);
  }

  lemma FoldScheduleStage(step: (Activation, nat) -> Activation, first: Activation, wf: Workflow, ids: seq<string>, reader: SpecReader)
    requires ScheduleStage(wf, ids, reader, first, 0)
    requires forall a, i: nat | i < |wf.nodes| && ScheduleStage(wf, ids, reader, a, i) :: ScheduleStage(wf, ids, reader, step(a, i), i + 1)
    ensures ScheduleStage(wf, ids, reader, Folded(step, first, |wf.nodes|), |wf.nodes|)
  {
    var inv := (a: Activation, i: nat) => ScheduleStage(wf, ids, reader, a, i);
    FoldKeeps(step, first, inv, |wf.nodes|, |wf.nodes|);
  }

  lemma LastScheduleStage(w: World, wf: Workflow, ids: seq<string>, reader: SpecReader)
    requires Activatable(w, wf, ids)
    ensures ScheduleStage(wf, ids, reader, Activated(w, wf, ids, reader), |wf.nodes|)
  {
    forall a, i: nat | i < |wf.nodes| && ScheduleStage(wf, ids, reader, a, i)
      ensures ScheduleStage(wf, ids, reader, NodeByNode(wf, ids, reader)(a, i), i + 1)
    {
      EveryScheduleStep(wf, ids, reader, a, i);
    }
    FoldScheduleStage(NodeByNode(wf, ids, reader), Activation(w, ActivationResult([], [], []), true), wf, ids, reader);
  }

  /**
   Every enabled schedule node with a cron expression or a nonzero interval gets its job and its row, holding
   what its parameters say, and is reported; every other enabled schedule node is an error and has no row.
   */
  lemma ScheduleNodesActivated(w: World, wf: Workflow, ids: seq<string>, reader: SpecReader, i: nat)
    requires Activatable(w, wf, ids) && i < |wf.nodes| && IsScheduleNode(wf.nodes[i])
    ensures Schedulable(reader, wf.nodes[i]) ==>
              ScheduleAdded(Activated(w, wf, ids, reader), wf, wf.nodes[i], ids[i], reader)
    ensures !Schedulable(reader, wf.nodes[i]) ==>
              && wf.nodes[i].id in Activated(w, wf, ids, reader).report.errors
              && forall r | r in Activated(w, wf, ids, reader).world.tables.schedules ::
                   !(r.workflowId == wf.id && r.nodeId == wf.nodes[i].id)
  {
    LastScheduleStage(w, wf, ids, reader);
    if !Schedulable(reader, wf.nodes[i]) {
      forall j | 0 <= j < |wf.nodes| && wf.nodes[j].id == wf.nodes[i].id
        ensures j == i
      {
        assert Ids(wf.nodes)[j] == Ids(wf.nodes)[i];
      }
      assert !ScheduledBefore(wf, reader, |wf.nodes|, wf.nodes[i].id);
    }
  }

  // ---- Webhook nodes -------------------------------------------------------------------------------

  ghost predicate IsWebhookNode(node: Node) {
    !node.disabled && (node.kind == "weftlyflow.webhook_trigger" || node.kind == "weftlyflow.trigger_chat")
  }

  /** A path parameter that is not blank is normalised; otherwise the path is made of the two ids. */
  ghost function PathOf(wf: Workflow, node: Node): Option<string> {
    if "path" in node.parameters && exists c :: c in node.parameters["path"] && !IsSpace(c)
    then NormalisePath(node.parameters["path"])
    else NormalisePath(wf.id + "/" + node.id)
  }

  lemma {:induction false} BlankIff(s: string)
    ensures Strip(s, IsSpace) != [] <==> exists c :: c in s && !IsSpace(c)
  {
    var i, j := StripIs(s, IsSpace);
    if Strip(s, IsSpace) != [] {
      assert s[i] == s[i..j][0];
      assert s[i] in s && !IsSpace(s[i]);
    }
  }

  /** The row of a webhook node: by default the method is POST and the response immediate. */
  ghost predicate IsRowOf(r: WebhookEntry, wf: Workflow, node: Node, id: string) {
    && r.id == id && r.workflowId == wf.id && r.nodeId == node.id && r.projectId == wf.projectId
    && PathOf(wf, node) == Some(r.path) && !r.isDynamic
    && r.httpMethod == (if "method" in node.parameters then Upper(node.parameters["method"]) else "POST")
    && r.responseMode == (if "response_mode" in node.parameters then node.parameters["response_mode"] else "immediately")
  }

  /**
   An enabled webhook node without an addressable path, or whose path and method are stored already, is an
   error and changes nothing; otherwise its row is stored, and reported if the registry accepts it, else an error.
   */
  lemma WebhookNodeActivated(w: World, wf: Workflow, node: Node, id: string, reader: SpecReader) returns (row: WebhookEntry)
    requires IsWebhookNode(node)
    ensures PathOf(wf, node) == None ==> ActivateNode(w, wf, node, id, reader) == (w, Failed)
    ensures PathOf(wf, node).Some? ==> IsRowOf(row, wf, node, id)
    ensures PathOf(wf, node).Some? && (exists r :: r in w.tables.webhooks && r.path == row.path && r.httpMethod == row.httpMethod) ==>
              ActivateNode(w, wf, node, id, reader) == (w, Failed)
    ensures PathOf(wf, node).Some? && (forall r | r in w.tables.webhooks :: !(r.path == row.path && r.httpMethod == row.httpMethod)) ==>
              var (after, outcome) := ActivateNode(w, wf, node, id, reader);
              && after.tables == Tables(w.tables.webhooks + {row}, w.tables.schedules) && after.memory.jobs == w.memory.jobs
              && (match Registered(w.memory.index, row)
                  case Success(next) => after.memory.index == next && outcome == AddedWebhook(row.path)
                  case Failure(_) => after.memory.index == w.memory.index && outcome == Failed)
  {
    if "path" in node.parameters { BlankIff(node.parameters["path"]); }
    assert Upper("POST") == "POST";
    var stored := WebhookRow(wf, node, id);
    row := if stored.Some? then stored.value else WebhookEntry("", "", "", "", "", "", false, "");
  }

  /** Disabled nodes and nodes of other kinds are passed over. */
  lemma OtherNodesPassedOver(w: World, wf: Workflow, node: Node, id: string, reader: SpecReader)
    requires !IsWebhookNode(node) && !IsScheduleNode(node)
    ensures ActivateNode(w, wf, node, id, reader) == (w, PassedOver)
  {
  }
}
