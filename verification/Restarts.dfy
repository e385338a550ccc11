/** The equivalence of a restart with the process it replaces. */
module Restarts {
  import opened Collections
  import opened Text
  import opened Paths
  import opened Digraphs
  import opened Workflows
  import opened WebhookRegistries
  import opened Triggers
  import opened Activations
  import opened FreeKeys

  // ---- Histories -----------------------------------------------------------------------------------------

  datatype Event = Activate(workflow: Workflow, ids: seq<string>) | Deactivate(workflowId: string)

  const EMPTY_WORLD := World(Tables({}, {}), Memory(EMPTY, map[]))

  /** Activations meet an inactive workflow and spell free keys. */
  ghost predicate Proper(w: World, e: Event, reader: SpecReader) {
    match e
    case Activate(wf, ids) => Activatable(w, wf, ids) && KeysFree(w.tables.webhooks, wf)
    case Deactivate(_) => true
  }

  ghost function After(w: World, e: Event, reader: SpecReader): World
    requires Proper(w, e, reader)
  {
    match e
    case Activate(wf, ids) => Activated(w, wf, ids, reader).world
    case Deactivate(workflowId) => Deactivated(w, workflowId)
  }

  ghost predicate Lived(worlds: seq<World>, events: seq<Event>, reader: SpecReader) {
    && |worlds| == |events| + 1
    && worlds[0] == EMPTY_WORLD
    && (forall k | 0 <= k < |events| ::
          Proper(worlds[k], events[k], reader) && worlds[k + 1] == After(worlds[k], events[k], reader))
  }

  lemma EventKeepsMirror(w: World, e: Event, reader: SpecReader)
    requires Mirror(w) && Proper(w, e, reader)
    ensures Mirror(After(w, e, reader))
  {
    match e
    case Activate(wf, ids) => ActivationKeepsMirrorIff(w, wf, ids, reader);
    case Deactivate(workflowId) => DeactivateKeepsMirror(w, workflowId);
  }

  lemma {:induction false} LivedMirrors(worlds: seq<World>, events: seq<Event>, reader: SpecReader, k: nat)
    requires Lived(worlds, events, reader) && k < |worlds|
    ensures Mirror(worlds[k])
  {
    if k == 0 {
      assert Agree(EMPTY);
    } else {
      LivedMirrors(worlds, events, reader, k - 1);
      EventKeepsMirror(worlds[k - 1], events[k - 1], reader);
    }
  }

  /** Loading the listed rows into empty memory yields exactly the memory of w, without a fault. */
  ghost predicate Rebuilds(webhooks: seq<WebhookEntry>, schedules: seq<ScheduleRow>, m: Memory) {
    RegisteredAll(EMPTY, webhooks) == (m.index, None) && JobsLoaded(map[], schedules) == (m.jobs, true)
  }

  ghost predicate ListsTables(webhooks: seq<WebhookEntry>, schedules: seq<ScheduleRow>, t: Tables) {
    IsListing(webhooks, t.webhooks) && IsListing(schedules, t.schedules)
  }

  /**
   Restart equivalence: at any point of any history of activations with free keys, loading
   the tables into empty memory, in any row order, rebuilds exactly the registry and the jobs held.
   */
  lemma RestartEquivalence(worlds: seq<World>, events: seq<Event>, reader: SpecReader, k: nat,
                           webhooks: seq<WebhookEntry>, schedules: seq<ScheduleRow>)
    requires Lived(worlds, events, reader) && k < |worlds| && ListsTables(webhooks, schedules, worlds[k].tables)
    ensures Rebuilds(webhooks, schedules, worlds[k].memory)
  {
    LivedMirrors(worlds, events, reader, k);
    RestartRebuilds(worlds[k], webhooks, schedules);
  }

  /**
   After any such history and one more activation, a restart rebuilds the memory exactly when
   the workflow spells free keys; otherwise every warm-up from those tables is refused.
   */
  lemma RestartEquivalenceIff(worlds: seq<World>, events: seq<Event>, reader: SpecReader, wf: Workflow, ids: seq<string>,
                              webhooks: seq<WebhookEntry>, schedules: seq<ScheduleRow>)
    requires Lived(worlds, events, reader) && Activatable(Last(worlds), wf, ids)
    requires ListsTables(webhooks, schedules, Activated(Last(worlds), wf, ids, reader).world.tables)
    ensures Rebuilds(webhooks, schedules, Activated(Last(worlds), wf, ids, reader).world.memory) <==>
            KeysFree(Last(worlds).tables.webhooks, wf)
    ensures !KeysFree(Last(worlds).tables.webhooks, wf) ==> RegisteredAll(EMPTY, webhooks).1.Some?
  {
    var w, after := Last(worlds), Activated(Last(worlds), wf, ids, reader).world;
    LivedMirrors(worlds, events, reader, |events|);
    var refused := ActivateProgress(w, wf, ids, reader);
    NoneRefusedIff(w, wf, ids, reader);
    if refused == {} {
      MirrorIffNoneRefused(after, refused);
      RestartRebuilds(after, webhooks, schedules);
    } else {
      RefusedBlocksLoad(after, refused, webhooks);
    }
  }

  /** The failing input: one webhook node whose method is not supported. */
  function UnsupportedWebhook(): Workflow {
    Workflow("wf", "pr", [Node("n", "weftlyflow.webhook_trigger", map["path" := "a", "method" := "FOO"], false, false)], [], map[])
  }

  lemma UnsupportedWebhookBlocksRestart(id: string, reader: SpecReader)
    ensures
      var a := Activated(EMPTY_WORLD, UnsupportedWebhook(), [id], reader);
      && a.report == ActivationResult([], [], ["n"]) && !a.noneRefused
      && a.world.memory == EMPTY_WORLD.memory && |a.world.tables.webhooks| == 1
      && forall rows | Elems(rows) == a.world.tables.webhooks :: RegisteredAll(EMPTY, rows).1.Some?
  {
    var wf := UnsupportedWebhook();
    var row := WebhookEntry(id, "wf", "n", "pr", "a", "FOO", false, "immediately");
    UnsupportedRow(wf, id, row);
    var a := Activated(EMPTY_WORLD, wf, [id], reader);
    assert a == WithNode(Activation(EMPTY_WORLD, ActivationResult([], [], []), true), wf, wf.nodes[0], id, reader);
    assert EMPTY_WORLD.tables.webhooks + {row} == {row};
    forall rows | Elems(rows) == a.world.tables.webhooks
      ensures RegisteredAll(EMPTY, rows).1.Some?
    {
      assert row in Elems(rows);
      if RegisteredAll(EMPTY, rows).1 == None { LoadedIds(EMPTY, rows, row); }
    }
  }

  lemma UnsupportedRow(wf: Workflow, id: string, row: WebhookEntry)
    requires wf == UnsupportedWebhook() && row == WebhookEntry(id, "wf", "n", "pr", "a", "FOO", false, "immediately")
    ensures WebhookRow(wf, wf.nodes[0], id) == Some(row) && KeyOf(row).Failure?
  {
    StripTrimmed("a", IsSpace);
    FixedIff("a");
    StripTrimmed("FOO", IsSpace);
    assert Upper("FOO") == "FOO";
  }
}
