/** The activation manager and its scheduler as objects. */
module TriggerManagers {
  import opened Collections
  import opened Workflows
  import opened WebhookRegistries
  import opened Triggers
  import opened Activations
  import opened Deactivations
  import opened Restarts

  // ---- The objects ---------------------------------------------------------------------------------------------

  class InMemoryScheduler {
    var jobs: map<string, Job>

    constructor ()
      ensures jobs == map[]
    {
      jobs := map[];
    }

    method AddJob(jobId: string, job: Job) returns (added: bool)
      modifies this
      ensures added <==>
        || (job.spec.kind == "cron" && job.spec.cron.Some? && job.spec.cron.value != "")
        || (job.spec.kind == "interval" && job.spec.interval.Some? && job.spec.interval.value != 0)
      ensures jobs == if added then old(jobs)[jobId := job] else old(jobs)
    {
      added := ValidSpec(job.spec);
      if added {
        jobs := jobs[jobId := job];
      }
    }

    method RemoveJob(jobId: string)
      modifies this
      ensures jobs == old(jobs) - {jobId}
    {
      jobs := jobs - {jobId};
    }
  }

  datatype WarmUpFault = Refused(error: RegistryError) | InvalidSchedule

  class ActiveTriggerManager {
    const registry: WebhookRegistry
    const scheduler: InMemoryScheduler
    const reader: SpecReader
    var webhooks: set<WebhookEntry>
    var schedules: set<ScheduleRow>

    constructor (registry: WebhookRegistry, scheduler: InMemoryScheduler, reader: SpecReader, stored: Tables)
      ensures this.registry == registry && this.scheduler == scheduler && this.reader == reader
      ensures Stored() == stored
    {
      this.registry, this.scheduler, this.reader := registry, scheduler, reader;
      webhooks, schedules := stored.webhooks, stored.schedules;
    }

    ghost function Stored(): Tables
      reads this
    {
      Tables(webhooks, schedules)
    }

    ghost function Held(): Memory
      reads registry, scheduler
    {
      Memory(registry.State(), scheduler.jobs)
    }

    ghost function State(): World
      reads this, registry, scheduler
    {
      World(Stored(), Held())
    }

    method AddWebhookNode(wf: Workflow, node: Node, id: string) returns (outcome: NodeResult)
      modifies this`webhooks, registry
      ensures (State(), outcome) == RegisterWebhook(old(State()), wf, node, id)
    {
      var row := WebhookRow(wf, node, id);
      if row.None? || Taken(webhooks, row.value) {
        return Failed;
      }
      webhooks := webhooks + {row.value};
      var fault := registry.Register(row.value);
      outcome := if fault.None? then AddedWebhook(row.value.path) else Failed;
    }

    method AddScheduleNode(wf: Workflow, node: Node, id: string) returns (outcome: NodeResult)
      modifies this`schedules, scheduler
      ensures (State(), outcome) == RegisterSchedule(old(State()), wf, node, id, reader)
    {
      var spec := reader(node.parameters);
      if spec.None? || !ValidSpec(spec.value) {
        return Failed;
      }
      var row := ScheduleRowFor(wf, node, id, spec.value);
      schedules := schedules + {row};
      var added := scheduler.AddJob(JobIdOf(row), JobOf(row));
      outcome := AddedSchedule(JobIdOf(row));
    }

    method AddNode(wf: Workflow, node: Node, id: string) returns (outcome: NodeResult)
      modifies this, registry, scheduler
      ensures (State(), outcome) == ActivateNode(old(State()), wf, node, id, reader)
    {
      if node.disabled {
        return PassedOver;
      }
      if node.kind in WEBHOOK_TRIGGER_TYPES {
        outcome := AddWebhookNode(wf, node, id);
      } else if node.kind == SCHEDULE_TRIGGER_TYPE {
        outcome := AddScheduleNode(wf, node, id);
      } else {
        outcome := PassedOver;
      }
    }

    method Activate(wf: Workflow, ids: seq<string>) returns (report: ActivationResult)
      requires |ids| == |wf.nodes|
      modifies this, registry, scheduler
      ensures State() == Activated(old(State()), wf, ids, reader).world && report == Activated(old(State()), wf, ids, reader).report
    {
      report := ActivationResult([], [], []);
      var i := 0;
      while i < |wf.nodes|
        invariant 0 <= i <= |wf.nodes|
        invariant State() == Activating(old(State()), wf, ids, reader, i).world
        invariant report == Activating(old(State()), wf, ids, reader, i).report
      {
        var outcome := AddNode(wf, wf.nodes[i], ids[i]);
        report := Noted(report, wf.nodes[i].id, outcome);
        i := i + 1;
      }
    }

    method DropWebhooks(rows: seq<WebhookEntry>) returns (fault: Option<RegistryError>)
      modifies registry
      ensures (registry.State(), fault) == Dropped(old(registry.State()), rows)
    {
      var i := 0;
      while i < |rows|
        invariant 0 <= i <= |rows|
        invariant Dropped(old(registry.State()), rows) == Dropped(registry.State(), rows[i..])
      {
        var unregistered := registry.Unregister(rows[i].path, rows[i].httpMethod);
        if unregistered.Failure? {
          return Some(unregistered.error);
        }
        assert rows[i..][1..] == rows[i + 1..];
        i := i + 1;
      }
      fault := None;
    }

    method DropJobs(rows: seq<ScheduleRow>)
      modifies scheduler
      ensures scheduler.jobs == old(scheduler.jobs) - JobIdsOf(Elems(rows))
    {
      var i := 0;
      while i < |rows|
        invariant 0 <= i <= |rows|
        invariant scheduler.jobs == old(scheduler.jobs) - JobIdsOf(Elems(rows[..i]))
      {
        TakeNext(rows, i);
        ElemsPush(rows[..i], rows[i]);
        JobIdsPush(Elems(rows[..i]), rows[i]);
        scheduler.RemoveJob(JobIdOf(rows[i]));
        i := i + 1;
      }
      TakeAll(rows, i);
    }

    /** Tears down every registration of a workflow; a row whose key does not parse stops it before any table changes. */
    method Deactivate(workflowId: string) returns (fault: Option<RegistryError>, ghost listed: seq<WebhookEntry>)
      modifies this, registry, scheduler
      ensures IsListing(listed, old(webhooks) - OtherWebhooks(old(webhooks), workflowId))
      ensures (registry.State(), fault) == Dropped(old(registry.State()), listed)
      ensures fault.Some? ==> Stored() == old(Stored()) && scheduler.jobs == old(scheduler.jobs)
      ensures fault.None? ==>
                && Stored() == Tables(OtherWebhooks(old(webhooks), workflowId), OtherSchedules(old(schedules), workflowId))
                && scheduler.jobs ==
                   old(scheduler.jobs) - JobIdsOf(old(schedules) - OtherSchedules(old(schedules), workflowId))
      ensures old(Mirror(State())) ==> fault == None && State() == Deactivated(old(State()), workflowId)
    {
      var rows := Listing(webhooks - OtherWebhooks(webhooks, workflowId));
      listed := rows;
      if Mirror(State()) {
        DroppedMirror(State(), workflowId, rows);
      }
      fault := DropWebhooks(rows);
      if fault.Some? {
        return;
      }
      webhooks := OtherWebhooks(webhooks, workflowId);
      var stopped := Listing(schedules - OtherSchedules(schedules, workflowId));
      DropJobs(stopped);
      schedules := OtherSchedules(schedules, workflowId);
    }

    /** Schedules a job for every row, stopping at the first with an invalid schedule. */
    method AddJobs(rows: seq<ScheduleRow>) returns (ok: bool)
      modifies scheduler
      ensures (scheduler.jobs, ok) == JobsLoaded(old(scheduler.jobs), rows)
    {
      var i := 0;
      while i < |rows|
        invariant 0 <= i <= |rows|
        invariant (scheduler.jobs, true) == JobsLoaded(old(scheduler.jobs), rows[..i])
      {
        assert Init(rows[..i + 1]) == rows[..i];
        ok := scheduler.AddJob(JobIdOf(rows[i]), JobOf(rows[i]));
        if !ok {
          LoadStays(old(scheduler.jobs), rows, i + 1);
          return;
        }
        i := i + 1;
      }
      TakeAll(rows, i);
      ok := true;
    }

    /** Reloads the tables in some order; into an empty scheduler this rebuilds any memory that mirrored them. */
    method WarmUp() returns (count: nat, fault: Option<WarmUpFault>, ghost rows: seq<WebhookEntry>, ghost jobRows: seq<ScheduleRow>)
      modifies registry, scheduler
      ensures ListsTables(rows, jobRows, Stored())
      ensures registry.State() == RegisteredAll(EMPTY, rows).0
      ensures RegisteredAll(EMPTY, rows).1.Some? ==>
                fault == Some(Refused(RegisteredAll(EMPTY, rows).1.value)) && scheduler.jobs == old(scheduler.jobs)
      ensures RegisteredAll(EMPTY, rows).1.None? ==>
                && scheduler.jobs == JobsLoaded(old(scheduler.jobs), jobRows).0
                && fault == if JobsLoaded(old(scheduler.jobs), jobRows).1 then None else Some(InvalidSchedule)
      ensures fault.None? ==> count == |webhooks| + |schedules|
      ensures forall before | Mirror(World(Stored(), before)) && old(scheduler.jobs) == map[] :: fault == None && Held() == before
    {
      var webhookRows := Listing(webhooks);
      var scheduleRows := Listing(schedules);
      rows, jobRows := webhookRows, scheduleRows;
      forall before | Mirror(World(Stored(), before))
        ensures Rebuilds(rows, jobRows, before)
      {
        RestartRebuilds(World(Stored(), before), rows, jobRows);
      }
      var loaded, refused := registry.Load(webhookRows);
      if refused.Some? {
        return 0, Some(Refused(refused.value)), rows, jobRows;
      }
      var added := AddJobs(scheduleRows);
      if !added {
        return 0, Some(InvalidSchedule), rows, jobRows;
      }
      DistinctSize(webhookRows);
      DistinctSize(scheduleRows);
      count, fault := |webhookRows| + |scheduleRows|, None;
    }
  }

  /** Lists a table in some order. */
  method Listing<T(==)>(table: set<T>) returns (rows: seq<T>)
    ensures IsListing(rows, table)
  {
    rows := [];
    var todo := table;
    while todo != {}
      invariant todo <= table && Elems(rows) == table - todo && Distinct(rows)
      decreases todo
    {
      var r :| r in todo;
      assert r !in Elems(rows);
      DistinctPush(rows, r);
      ElemsPush(rows, r);
      rows := rows + [r];
      todo := todo - {r};
    }
  }

  /** Once a row is refused, the rows after it change nothing. */
  lemma {:induction false} LoadStays(jobs: map<string, Job>, rows: seq<ScheduleRow>, k: nat)
    requires k <= |rows| && !JobsLoaded(jobs, rows[..k]).1
    ensures JobsLoaded(jobs, rows) == JobsLoaded(jobs, rows[..k])
    decreases |rows|
  {
    if k == |rows| {
      TakeAll(rows, k);
    } else {
      assert Init(rows)[..k] == rows[..k];
      LoadStays(jobs, Init(rows), k);
    }
  }

  lemma JobIdsPush(rows: set<ScheduleRow>, r: ScheduleRow)
    ensures JobIdsOf(rows + {r}) == JobIdsOf(rows) + {JobIdOf(r)}
  {
  }
}
