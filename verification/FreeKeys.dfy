/** When an activation stores no row that the registry refuses. */
module FreeKeys {
  import opened Collections
  import opened Digraphs
  import opened Workflows
  import opened WebhookRegistries
  import opened Triggers
  import opened Activations

  // ---- When a row is refused --------------------------------------------------------------------------

  /** The node spells a webhook: it is an enabled webhook trigger whose path is not empty. */
  ghost predicate Spells(wf: Workflow, node: Node) {
    !node.disabled && node.kind in WEBHOOK_TRIGGER_TYPES && WebhookRow(wf, node, "").Some?
  }

  /** The row the node spells, up to its id. */
  ghost function Spelling(wf: Workflow, node: Node): WebhookEntry
    requires Spells(wf, node)
  {
    WebhookRow(wf, node, "").value
  }

  ghost predicate SameSpelling(a: WebhookEntry, b: WebhookEntry) {
    a.path == b.path && a.httpMethod == b.httpMethod
  }

  /** Two rows of different path or method that the registry files under one key. */
  ghost predicate Clash(a: WebhookEntry, b: WebhookEntry) {
    KeyOf(a) == KeyOf(b) && !SameSpelling(a, b)
  }

  /** The webhooks the first k nodes spell. */
  ghost function SpelledBefore(wf: Workflow, k: nat): set<WebhookEntry>
    requires k <= |wf.nodes|
  {
    if k == 0 then {}
    else SpelledBefore(wf, k - 1) + (if Spells(wf, wf.nodes[k - 1]) then {Spelling(wf, wf.nodes[k - 1])} else {})
  }

  ghost predicate KeyFree(row: WebhookEntry, others: set<WebhookEntry>) {
    KeyOf(row).Success? && forall r | r in others :: !Clash(row, r)
  }

  /** The spelled rows have keys, and none clashes with another or with a stored row. */
  ghost predicate AllKeysFree(rows: set<WebhookEntry>, spelled: set<WebhookEntry>) {
    forall row | row in spelled :: KeyFree(row, rows + spelled)
  }

  /**
   Every webhook the workflow spells has a key, and shares it only with stored or spelled
   webhooks of the same path and method.
   */
  ghost predicate KeysFree(rows: set<WebhookEntry>, wf: Workflow) {
    AllKeysFree(rows, SpelledBefore(wf, |wf.nodes|))
  }

  /** The table holds what was stored before and, under some id, exactly what is spelled besides. */
  ghost predicate Written(start: set<WebhookEntry>, rows: set<WebhookEntry>, spelled: set<WebhookEntry>) {
    && start <= rows
    && (forall r | r in rows && r !in start :: Taken(spelled, r))
    && (forall row | row in spelled :: Taken(rows, row))
  }

  lemma SpellingKey(a: WebhookEntry, b: WebhookEntry)
    requires SameSpelling(a, b)
    ensures KeyOf(a) == KeyOf(b)
  {
  }

  lemma RowSpelled(wf: Workflow, node: Node, id: string)
    ensures WebhookRow(wf, node, id).Some? <==> WebhookRow(wf, node, "").Some?
    ensures WebhookRow(wf, node, id).Some? ==> WebhookRow(wf, node, id).value == WebhookRow(wf, node, "").value.(id := id)
  {
  }

  /** In a mirrored table, a row under a new id is refused exactly when it has no key or its key is held. */
  lemma RefusedIff(rows: set<WebhookEntry>, index: Index, row: WebhookEntry)
    requires MirrorsWebhooks(rows, index) && forall r | r in rows :: r.id != row.id
    ensures Registered(index, row).Failure? <==> KeyOf(row).Failure? || HasRow(rows, KeyOf(row).value)
  {
    if KeyOf(row).Success? {
      MirroredIds(rows, index, row.id);
      if r :| r in rows && KeyOf(r) == KeyOf(row) { assert Holds(index.byKey, r); }
    }
  }

  /** A new row is kept out exactly when it has no key or clashes with a row of the table. */
  lemma KeptOutIff(rows: set<WebhookEntry>, index: Index, row: WebhookEntry)
    requires MirrorsWebhooks(rows, index) && forall r | r in rows :: r.id != row.id
    ensures !Taken(rows, row) && Registered(index, row).Failure? <==>
            KeyOf(row).Failure? || exists r :: r in rows && Clash(row, r)
  {
    RefusedIff(rows, index, row);
    if r :| r in rows && SameSpelling(r, row) {
      SpellingKey(r, row);
      assert Holds(index.byKey, r);
      assert forall x | x in rows && KeyOf(x) == KeyOf(row) :: x == r;
    }
    if KeyOf(row).Success? && HasRow(rows, KeyOf(row).value) {
      var r :| r in rows && KeyOf(r) == KeyOf(row);
      assert SameSpelling(r, row) || Clash(row, r);
    }
  }

  lemma ClashMoves(row: WebhookEntry, a: WebhookEntry, b: WebhookEntry)
    requires SameSpelling(a, b)
    ensures Clash(row, a) <==> Clash(row, b)
  {
    SpellingKey(a, b);
  }

  /** A row clashes with the written table exactly when it clashes with a stored or a spelled row. */
  lemma ClashIff(start: set<WebhookEntry>, rows: set<WebhookEntry>, spelled: set<WebhookEntry>, row: WebhookEntry)
    requires Written(start, rows, spelled)
    ensures (exists r :: r in rows && Clash(row, r)) <==> (exists r :: r in start + spelled && Clash(row, r))
  {
    if r :| r in rows && Clash(row, r) {
      if r !in start {
        assert Taken(spelled, r);
        var x :| x in spelled && SameSpelling(x, r);
        ClashMoves(row, x, r);
        assert x in start + spelled;
      } else {
        assert r in start + spelled;
      }
    }
    if r :| r in start + spelled && Clash(row, r) {
      if r in spelled {
        assert Taken(rows, r);
        var x :| x in rows && SameSpelling(x, r);
        ClashMoves(row, x, r);
      }
    }
  }

  /** Among rows whose keys are free, one more keeps them free exactly when its own key is. */
  lemma OneMoreFree(rows: set<WebhookEntry>, spelled: set<WebhookEntry>, row: WebhookEntry)
    requires AllKeysFree(rows, spelled)
    ensures AllKeysFree(rows, spelled + {row}) <==> KeyFree(row, rows + spelled)
  {
    assert !Clash(row, row) && row in spelled + {row};
    assert AllKeysFree(rows, spelled + {row}) ==> KeyFree(row, rows + (spelled + {row}));
    if KeyFree(row, rows + spelled) {
      forall x | x in spelled + {row}
        ensures KeyFree(x, rows + (spelled + {row}))
      {
        if x in spelled {
          assert KeyFree(x, rows + spelled);
          assert !Clash(row, x);
        }
      }
    }
  }

  lemma FewerKeysFree(rows: set<WebhookEntry>, spelled: set<WebhookEntry>, row: WebhookEntry)
    requires AllKeysFree(rows, spelled + {row})
    ensures AllKeysFree(rows, spelled)
  {
    forall x | x in spelled
      ensures KeyFree(x, rows + spelled)
    {
      assert x in spelled + {row} && KeyFree(x, rows + (spelled + {row}));
    }
  }

  /** One more spelled row leaves the keys free exactly when the registry does not refuse it. */
  lemma AcceptedIffFree(start: set<WebhookEntry>, rows: set<WebhookEntry>, index: Index, spelled: set<WebhookEntry>, row: WebhookEntry)
    requires MirrorsWebhooks(rows, index) && Written(start, rows, spelled) && AllKeysFree(start, spelled)
    requires forall r | r in rows :: r.id != row.id
    ensures AllKeysFree(start, spelled + {row.(id := "")}) <==> Taken(rows, row) || Registered(index, row).Success?
  {
    var bare := row.(id := "");
    KeptOutIff(rows, index, row);
    ClashIff(start, rows, spelled, row);
    OneMoreFree(start, spelled, bare);
    SameFreedom(row, bare, start + spelled);
  }

  lemma SameFreedom(a: WebhookEntry, b: WebhookEntry, others: set<WebhookEntry>)
    requires SameSpelling(a, b)
    ensures KeyFree(a, others) <==> KeyFree(b, others)
  {
    SpellingKey(a, b);
    assert forall r :: Clash(a, r) <==> Clash(b, r);
  }

  lemma OneMoreKeyFree(start: set<WebhookEntry>, w: World, wf: Workflow, id: string, k: nat)
    requires k < |wf.nodes| && MirrorsWebhooks(w.tables.webhooks, w.memory.index)
    requires Written(start, w.tables.webhooks, SpelledBefore(wf, k)) && AllKeysFree(start, SpelledBefore(wf, k))
    requires forall r | r in w.tables.webhooks :: r.id != id
    ensures AllKeysFree(start, SpelledBefore(wf, k + 1)) <==> !Refuses(w, wf, wf.nodes[k], id)
  {
    var node := wf.nodes[k];
    RowSpelled(wf, node, id);
    if Spells(wf, node) {
      AcceptedIffFree(start, w.tables.webhooks, w.memory.index, SpelledBefore(wf, k), WebhookRow(wf, node, id).value);
    } else {
      assert SpelledBefore(wf, k + 1) == SpelledBefore(wf, k);
    }
  }

  lemma WrittenMore(start: set<WebhookEntry>, rows: set<WebhookEntry>, spelled: set<WebhookEntry>, row: WebhookEntry, rows': set<WebhookEntry>)
    requires Written(start, rows, spelled) && rows <= rows' <= rows + {row} && Taken(rows', row)
    ensures Written(start, rows', spelled + {row.(id := "")})
  {
    var bare := row.(id := "");
    forall r | r in rows' && r !in start
      ensures Taken(spelled + {bare}, r)
    {
      if r in rows {
        assert Taken(spelled, r);
        var x :| x in spelled && SameSpelling(x, r);
        assert x in spelled + {bare};
      } else {
        assert bare in spelled + {bare} && SameSpelling(bare, r);
      }
    }
    forall x | x in spelled + {bare}
      ensures Taken(rows', x)
    {
      if x in spelled { assert Taken(rows, x); }
    }
  }

  lemma WrittenStep(start: set<WebhookEntry>, w: World, wf: Workflow, id: string, reader: SpecReader, k: nat)
    requires k < |wf.nodes| && Written(start, w.tables.webhooks, SpelledBefore(wf, k))
    ensures Written(start, ActivateNode(w, wf, wf.nodes[k], id, reader).0.tables.webhooks, SpelledBefore(wf, k + 1))
  {
    var node, rows := wf.nodes[k], w.tables.webhooks;
    var rows' := ActivateNode(w, wf, node, id, reader).0.tables.webhooks;
    RowSpelled(wf, node, id);
    if Spells(wf, node) {
      WrittenMore(start, rows, SpelledBefore(wf, k), WebhookRow(wf, node, id).value, rows');
    } else {
      assert rows' == rows && SpelledBefore(wf, k + 1) == SpelledBefore(wf, k);
    }
  }

  /** After k nodes: what is written, and no row refused exactly when the keys are free so far. */
  ghost predicate KeyStage(start: World, wf: Workflow, ids: seq<string>, a: Activation, k: nat)
    requires |wf.nodes| == |ids|
  {
    && Stage(start, wf, ids, a, k)
    && Written(start.tables.webhooks, a.world.tables.webhooks, SpelledBefore(wf, k))
    && (a.noneRefused <==> AllKeysFree(start.tables.webhooks, SpelledBefore(wf, k)))
  }

  lemma StageMirrors(start: World, wf: Workflow, ids: seq<string>, a: Activation, k: nat)
    requires k < |wf.nodes| == |ids| && Stage(start, wf, ids, a, k)
    ensures a.noneRefused ==> MirrorsWebhooks(a.world.tables.webhooks, a.world.memory.index)
    ensures forall r | r in a.world.tables.webhooks :: r.id != ids[k]
  {
    var refused :|
      Progress(start, a.world, wf, ids, k, refused) && Reports(a.world, wf, refused, a.report) && (refused == {} <==> a.noneRefused);
    assert a.noneRefused ==> a.world.tables.webhooks - refused == a.world.tables.webhooks;
    assert ids[k] in ids[k..];
  }

  lemma KeyStageStep(start: World, wf: Workflow, ids: seq<string>, reader: SpecReader, a: Activation, k: nat)
    requires k < |wf.nodes| == |ids| && Distinct(ids) && Distinct(Ids(wf.nodes)) && KeyStage(start, wf, ids, a, k)
    ensures KeyStage(start, wf, ids, WithNode(a, wf, wf.nodes[k], ids[k], reader), k + 1)
  {
    StageStep(start, wf, ids, reader, a, k);
    StageMirrors(start, wf, ids, a, k);
    WrittenStep(start.tables.webhooks, a.world, wf, ids[k], reader, k);
    if a.noneRefused {
      OneMoreKeyFree(start.tables.webhooks, a.world, wf, ids[k], k);
    } else if Spells(wf, wf.nodes[k]) && AllKeysFree(start.tables.webhooks, SpelledBefore(wf, k + 1)) {
      FewerKeysFree(start.tables.webhooks, SpelledBefore(wf, k), Spelling(wf, wf.nodes[k]));
    }
  }

  /**
   No stored row is refused by the activation exactly when every webhook the workflow spells has
   a key and shares it only with webhooks of the same path and method.
   */
  lemma NoneRefusedIff(w: World, wf: Workflow, ids: seq<string>, reader: SpecReader)
    requires Mirror(w) && Activatable(w, wf, ids)
    ensures Activated(w, wf, ids, reader).noneRefused <==> KeysFree(w.tables.webhooks, wf)
  {
    FirstStage(w, wf, ids);
    LastKeyStage(w, wf, ids, reader);
  }

  /** Each node of the fold keeps the stage. */
  lemma EveryKeyStageStep(w: World, wf: Workflow, ids: seq<string>, reader: SpecReader, a: Activation, i: nat)
    requires |wf.nodes| == |ids| && Distinct(ids) && Distinct(Ids(wf.nodes)) && i < |wf.nodes| && KeyStage(w, wf, ids, a, i)
    ensures KeyStage(w, wf, ids, NodeByNode(wf, ids, reader)(a, i), i + 1)
  {
    KeyStageStep(w, wf, ids, reader, a, i);
    assert NodeByNode(wf, ids, reader)(a, i) == WithNode(a, wf, wf.nodes[i], ids[i], reader);
  }

  lemma FoldKeyStage(step: (Activation, nat) -> Activation, first: Activation, w: World, wf: Workflow, ids: seq<string>)
    requires |wf.nodes| == |ids| && KeyStage(w, wf, ids, first, 0)
    requires forall a, i: nat | i < |wf.nodes| && KeyStage(w, wf, ids, a, i) :: KeyStage(w, wf, ids, step(a, i), i + 1)
    ensures
      var a := Folded(step, first, |wf.nodes|);
      a.noneRefused <==> KeysFree(w.tables.webhooks, wf)
  {
    var inv := (a: Activation, i: nat) => KeyStage(w, wf, ids, a, i);
    FoldKeeps(step, first, inv, |wf.nodes|, |wf.nodes|);
    assert KeyStage(w, wf, ids, Folded(step, first, |wf.nodes|), |wf.nodes|);
  }

  lemma LastKeyStage(w: World, wf: Workflow, ids: seq<string>, reader: SpecReader)
    requires |wf.nodes| == |ids| && Distinct(ids) && Distinct(Ids(wf.nodes))
    requires KeyStage(w, wf, ids, Activation(w, ActivationResult([], [], []), true), 0)
    ensures Activated(w, wf, ids, reader).noneRefused <==> KeysFree(w.tables.webhooks, wf)
  {
    forall a, i: nat | i < |wf.nodes| && KeyStage(w, wf, ids, a, i)
      ensures KeyStage(w, wf, ids, NodeByNode(wf, ids, reader)(a, i), i + 1)
    {
      EveryKeyStageStep(w, wf, ids, reader, a, i);
    }
    FoldKeyStage(NodeByNode(wf, ids, reader), Activation(w, ActivationResult([], [], []), true), w, wf, ids);
  }

  /** Activation keeps the mirror exactly when the keys it spells are free; other errors do no harm. */
  lemma ActivationKeepsMirrorIff(w: World, wf: Workflow, ids: seq<string>, reader: SpecReader)
    requires Mirror(w) && Activatable(w, wf, ids)
    ensures Mirror(Activated(w, wf, ids, reader).world) <==> KeysFree(w.tables.webhooks, wf)
  {
    var refused := ActivateProgress(w, wf, ids, reader);
    MirrorIffNoneRefused(Activated(w, wf, ids, reader).world, refused);
    NoneRefusedIff(w, wf, ids, reader);
  }

  /** Deactivating undoes an activation whose keys were free: tables, registry and jobs are back as they were. */
  lemma ActivateDeactivate(w: World, wf: Workflow, ids: seq<string>, reader: SpecReader)
    requires Mirror(w) && Activatable(w, wf, ids) && KeysFree(w.tables.webhooks, wf)
    ensures Deactivated(Activated(w, wf, ids, reader).world, wf.id) == w
  {
    var active := Activated(w, wf, ids, reader).world;
    var refused := ActivateProgress(w, wf, ids, reader);
    ActivationKeepsMirrorIff(w, wf, ids, reader);
    DeactivateKeepsMirror(active, wf.id);
    var after := Deactivated(active, wf.id);
    assert after == World(w.tables, after.memory);
    MirrorUnique(w.tables, w.memory, after.memory);
  }
}
