/** The claim that keeps one execution id from running twice at the same time. */
module Idempotency {
  import opened Collections
  import opened LeaseStore

  const KEY_PREFIX := "weftlyflow:execution:"
  const CLAIM_TTL := 3600.0
  const TASK_TIME_LIMIT := 600.0

  type ExecutionId = string
  type WorkerId = string

  function Key(id: ExecutionId): string {
    KEY_PREFIX + id
  }

  lemma KeyInjective(a: ExecutionId, b: ExecutionId)
    requires Key(a) == Key(b)
    ensures a == b
  {
    assert a == Key(a)[|KEY_PREFIX|..] && b == Key(b)[|KEY_PREFIX|..];
  }

  // ---- The guard on values ------------------------------------------------------------------

  function ClaimWrite(store: Store, id: ExecutionId, owner: string, ttl: real, now: real, reply: Reply): Store {
    if reply.Unsent? then store else SetNxEx(store, Key(id), owner, ttl, now)
  }

  predicate ClaimWins(store: Store, id: ExecutionId, now: real, reply: Reply) {
    reply.Answered? ==> !Alive(store, Key(id), now)
  }

  /** Deletes the claim whoever owns it; a failure is swallowed. */
  function ReleaseWrite(store: Store, id: ExecutionId, reply: Reply): Store {
    if reply.Unsent? then store else Delete(store, Key(id))
  }

  // ---- The guard object ---------------------------------------------------------------------

  class IdempotencyGuard {
    const server: Server
    const ttl: real

    constructor (server: Server, ttl: real)
      ensures this.server == server && this.ttl == ttl
    {
      this.server, this.ttl := server, ttl;
    }

    /** Fails open: where the store cannot be reached, the caller is told it won. */
    method Claim(id: ExecutionId, owner: string, reply: Reply) returns (won: bool)
      modifies server`entries
      ensures server.entries == ClaimWrite(old(server.entries), id, owner, ttl, server.now, reply)
      ensures won <==> ClaimWins(old(server.entries), id, server.now, reply)
    {
      var acquired := server.Set(Key(id), owner, ttl, reply);
      won := acquired.None? || acquired.value;
    }

    method Release(id: ExecutionId, reply: Reply)
      modifies server`entries
      ensures server.entries == ReleaseWrite(old(server.entries), id, reply)
    {
      var released := server.Remove(Key(id), reply);
    }
  }

  // ---- Workers taking deliveries ---------------------------------------------------------------

  /** startedAt is when the delivery began; claimedAt is when it won its claim and entered the body. */
  datatype Task =
    | Free
    | Started(id: ExecutionId, startedAt: real)
    | Body(id: ExecutionId, startedAt: real, claimedAt: real)

  /** claimant names the worker whose claim last won each execution id. */
  datatype System = System(
    now: real,
    store: Store,
    tasks: map<WorkerId, Task>,
    claimant: map<ExecutionId, WorkerId>)

  datatype Action =
    | Tick(elapsed: real)
    | Deliver(worker: WorkerId, id: ExecutionId)
    | Claim(worker: WorkerId, owner: string, reply: Reply)
    | Finish(worker: WorkerId, reply: Reply)
    | Kill(worker: WorkerId)

  ghost predicate Start(s: System) {
    s.store == map[] && forall w | w in s.tasks :: s.tasks[w].Free?
  }

  /** Time may not carry a task beyond the hard limit: it must finish or be killed first. */
  ghost predicate Enabled(s: System, a: Action, limit: real) {
    match a
    case Tick(d) => d >= 0.0 && forall w | w in s.tasks && !s.tasks[w].Free? :: s.now + d <= s.tasks[w].startedAt + limit
    case Deliver(w, _) => w in s.tasks && s.tasks[w].Free?
    case Claim(w, _, _) => w in s.tasks && s.tasks[w].Started?
    case Finish(w, _) => w in s.tasks && s.tasks[w].Body?
    case Kill(w) => w in s.tasks && !s.tasks[w].Free?
  }

  /** A delivery that loses its claim is skipped; a body that ends, normally or not, releases; a killed worker does not. */
  ghost function Next(s: System, a: Action, limit: real, ttl: real): System
    requires Enabled(s, a, limit)
  {
    match a
    case Tick(d) => s.(now := s.now + d)
    case Deliver(w, id) => s.(tasks := s.tasks[w := Started(id, s.now)])
    case Claim(w, owner, reply) =>
      var id := s.tasks[w].id;
      var store := ClaimWrite(s.store, id, owner, ttl, s.now, reply);
      if ClaimWins(s.store, id, s.now, reply) then
        s.(store := store, tasks := s.tasks[w := Body(id, s.tasks[w].startedAt, s.now)], claimant := s.claimant[id := w])
      else s.(store := store, tasks := s.tasks[w := Free])
    case Finish(w, reply) => s.(store := ReleaseWrite(s.store, s.tasks[w].id, reply), tasks := s.tasks[w := Free])
    case Kill(w) => s.(tasks := s.tasks[w := Free])
  }

  /** Every claim is answered; releases may fail. */
  predicate Reachable(a: Action) {
    a.Claim? ==> a.reply.Answered?
  }

  /** A run with answered claims from any state. */
  ghost predicate Steps(trace: seq<System>, actions: seq<Action>, limit: real, ttl: real) {
    && |trace| == |actions| + 1
    && (forall k | 0 <= k < |actions| ::
          Reachable(actions[k]) && Enabled(trace[k], actions[k], limit) && trace[k + 1] == Next(trace[k], actions[k], limit, ttl))
  }

  ghost predicate Chain(trace: seq<System>, actions: seq<Action>, limit: real, ttl: real) {
    Steps(trace, actions, limit, ttl) && Start(trace[0])
  }

  ghost predicate Running(s: System, w: WorkerId, id: ExecutionId) {
    w in s.tasks && s.tasks[w].Body? && s.tasks[w].id == id
  }

  /** No two workers are inside the body of the same execution. */
  ghost predicate Disjoint(s: System) {
    forall v, w, id | Running(s, v, id) && Running(s, w, id) :: v == w
  }

  // ---- Safety ----------------------------------------------------------------------------------------

  /** The claim of a running body is its own and is still visible. */
  ghost predicate OwnClaim(s: System, w: WorkerId, ttl: real)
    requires w in s.tasks && s.tasks[w].Body?
  {
    var t := s.tasks[w];
    && t.id in s.claimant && s.claimant[t.id] == w
    && Key(t.id) in s.store && s.store[Key(t.id)].expiresAt == t.claimedAt + ttl
  }

  ghost predicate TaskHolds(s: System, w: WorkerId, limit: real, ttl: real)
    requires w in s.tasks
  {
    match s.tasks[w]
    case Free => true
    case Started(_, at) => at <= s.now <= at + limit
    case Body(_, at, claimed) => at <= claimed && s.now <= at + limit && OwnClaim(s, w, ttl)
  }

  ghost predicate Inv(s: System, limit: real, ttl: real) {
    forall w | w in s.tasks :: TaskHolds(s, w, limit, ttl)
  }

  lemma StepKeepsInv(s: System, a: Action, limit: real, ttl: real)
    requires 0.0 <= limit < ttl && Inv(s, limit, ttl) && Enabled(s, a, limit) && Reachable(a)
    ensures Inv(Next(s, a, limit, ttl), limit, ttl)
  {
    var s' := Next(s, a, limit, ttl);
    forall w | w in s'.tasks
      ensures TaskHolds(s', w, limit, ttl)
    {
      assert TaskHolds(s, w, limit, ttl);
      if !a.Tick? && a.worker != w {
        OtherWorkerKept(s, a, w, limit, ttl);
      }
    }
  }

  /** A step of one worker leaves the claim of every other running body in place. */
  lemma OtherWorkerKept(s: System, a: Action, w: WorkerId, limit: real, ttl: real)
    requires limit < ttl && Inv(s, limit, ttl) && Enabled(s, a, limit) && Reachable(a)
    requires !a.Tick? && a.worker != w && w in s.tasks
    ensures TaskHolds(Next(s, a, limit, ttl), w, limit, ttl)
  {
    var s' := Next(s, a, limit, ttl);
    assert TaskHolds(s, w, limit, ttl) && TaskHolds(s, a.worker, limit, ttl);
    if s.tasks[w].Body? && (a.Claim? || a.Finish?) && Key(s.tasks[a.worker].id) == Key(s.tasks[w].id) {
      KeyInjective(s.tasks[a.worker].id, s.tasks[w].id);
    }
  }

  lemma InvMeansDisjoint(s: System, limit: real, ttl: real)
    requires Inv(s, limit, ttl)
    ensures Disjoint(s)
  {
    forall v, w, id | Running(s, v, id) && Running(s, w, id)
      ensures v == w
    {
      assert TaskHolds(s, v, limit, ttl) && TaskHolds(s, w, limit, ttl);
    }
  }

  lemma {:induction false} ChainKeepsInv(trace: seq<System>, actions: seq<Action>, limit: real, ttl: real, k: nat)
    requires 0.0 <= limit < ttl && Chain(trace, actions, limit, ttl) && k < |trace|
    ensures Inv(trace[k], limit, ttl)
  {
    if k > 0 {
      ChainKeepsInv(trace, actions, limit, ttl, k - 1);
      StepKeepsInv(trace[k - 1], actions[k - 1], limit, ttl);
    }
  }

  /** The release at the end of a body deletes a visible claim, and it is the releaser's own. */
  lemma ReleaseDeletesOwnClaim(trace: seq<System>, actions: seq<Action>, limit: real, ttl: real, k: nat)
    requires 0.0 <= limit < ttl && Chain(trace, actions, limit, ttl) && k < |actions| && actions[k].Finish?
    ensures
      var s, w := trace[k], actions[k].worker;
      && w in s.tasks && s.tasks[w].Body?
      && Alive(s.store, Key(s.tasks[w].id), s.now)
      && s.tasks[w].id in s.claimant && s.claimant[s.tasks[w].id] == w
  {
    ChainKeepsInv(trace, actions, limit, ttl, k);
    assert Enabled(trace[k], actions[k], limit);
    assert TaskHolds(trace[k], actions[k].worker, limit, ttl);
  }

  // ---- The bound is exact ------------------------------------------------------------------------------

  function Overstay(v: WorkerId, w: WorkerId, id: ExecutionId, ttl: real): seq<Action> {
    [Deliver(v, id), Claim(v, "a", Answered), Tick(ttl), Deliver(w, id), Claim(w, "b", Answered)]
  }

  /** A body allowed to outlive its claim can overlap with a second one. */
  lemma OverlapWhenLimitReachesTtl(limit: real, ttl: real) returns (trace: seq<System>, actions: seq<Action>)
    requires 0.0 < ttl <= limit
    ensures Chain(trace, actions, limit, ttl) && !Disjoint(trace[|trace| - 1])
  {
    var v, w, id := "v", "w", "ex";
    actions := Overstay(v, w, id, ttl);
    var s0 := System(0.0, map[], map[v := Free, w := Free], map[]);
    var s1 := Next(s0, actions[0], limit, ttl);
    var s2 := Next(s1, actions[1], limit, ttl);
    assert s2.tasks[v] == Body(id, 0.0, 0.0) && s2.tasks[w] == Free;
    var s3 := Next(s2, actions[2], limit, ttl);
    var s4 := Next(s3, actions[3], limit, ttl);
    var s5 := Next(s4, actions[4], limit, ttl);
    assert Running(s5, v, id) && Running(s5, w, id);
    trace := [s0, s1, s2, s3, s4, s5];
  }

  /** Task bodies of one execution are disjoint in every state of every run exactly when the hard limit is below the claim TTL. */
  lemma ClaimsDisjointIff(limit: real, ttl: real)
    requires 0.0 <= limit && 0.0 < ttl
    ensures (forall trace, actions, k: nat | Chain(trace, actions, limit, ttl) && k < |trace| :: Disjoint(trace[k]))
            <==> limit < ttl
  {
    if limit < ttl {
      forall trace, actions, k: nat | Chain(trace, actions, limit, ttl) && k < |trace|
        ensures Disjoint(trace[k])
      {
        ChainKeepsInv(trace, actions, limit, ttl, k);
        InvMeansDisjoint(trace[k], limit, ttl);
      }
    } else {
      var trace, actions := OverlapWhenLimitReachesTtl(limit, ttl);
      assert |trace| - 1 < |trace|;
    }
  }

  // ---- A claim that fails open ---------------------------------------------------------------------------

  /** Every run with answered claims from here keeps bodies disjoint. */
  ghost predicate StaysDisjoint(s: System, limit: real, ttl: real) {
    forall trace, actions, k: nat | Steps(trace, actions, limit, ttl) && trace[0] == s && k < |trace| :: Disjoint(trace[k])
  }

  /** The stored claim outlasts the hard limit of a task that started at the given time. */
  ghost predicate Outlasts(store: Store, id: ExecutionId, startedAt: real, limit: real) {
    Key(id) in store && store[Key(id)].expiresAt > startedAt + limit
  }

  ghost predicate TaskCovered(s: System, w: WorkerId, limit: real)
    requires w in s.tasks
  {
    match s.tasks[w]
    case Free => true
    case Started(_, at) => at <= s.now <= at + limit
    case Body(id, at, _) => s.now <= at + limit && Outlasts(s.store, id, at, limit)
  }

  /** Bodies are disjoint, and some claim, not always its own, outlasts each. */
  ghost predicate Covered(s: System, limit: real) {
    Disjoint(s) && forall w | w in s.tasks :: TaskCovered(s, w, limit)
  }

  lemma InvMeansCovered(s: System, limit: real, ttl: real)
    requires limit < ttl && Inv(s, limit, ttl)
    ensures Covered(s, limit)
  {
    InvMeansDisjoint(s, limit, ttl);
    forall w | w in s.tasks
      ensures TaskCovered(s, w, limit)
    {
      assert TaskHolds(s, w, limit, ttl);
    }
  }

  lemma StepKeepsCovered(s: System, a: Action, limit: real, ttl: real)
    requires 0.0 <= limit < ttl && Covered(s, limit) && Enabled(s, a, limit) && Reachable(a)
    ensures Covered(Next(s, a, limit, ttl), limit)
  {
    var s' := Next(s, a, limit, ttl);
    forall w | w in s'.tasks
      ensures TaskCovered(s', w, limit)
    {
      assert TaskCovered(s, w, limit);
      if !a.Tick? && a.worker != w { OtherCovered(s, a, w, limit, ttl); }
    }
    forall v, w, id | Running(s', v, id) && Running(s', w, id)
      ensures v == w
    {
      assert TaskCovered(s, v, limit) && TaskCovered(s, w, limit);
      assert Running(s, v, id) && Running(s, w, id) ==> v == w;
    }
  }

  lemma OtherCovered(s: System, a: Action, w: WorkerId, limit: real, ttl: real)
    requires limit < ttl && Covered(s, limit) && Enabled(s, a, limit) && Reachable(a)
    requires !a.Tick? && a.worker != w && w in s.tasks
    ensures TaskCovered(Next(s, a, limit, ttl), w, limit)
  {
    assert TaskCovered(s, w, limit) && TaskCovered(s, a.worker, limit);
    if s.tasks[w].Body? && (a.Claim? || a.Finish?) && Key(s.tasks[a.worker].id) == Key(s.tasks[w].id) {
      KeyInjective(s.tasks[a.worker].id, s.tasks[w].id);
      assert a.Finish? ==> Running(s, w, s.tasks[w].id) && Running(s, a.worker, s.tasks[w].id);
    }
  }

  lemma {:induction false} StepsKeepCovered(trace: seq<System>, actions: seq<Action>, limit: real, ttl: real, k: nat)
    requires 0.0 <= limit < ttl && Steps(trace, actions, limit, ttl) && Covered(trace[0], limit) && k < |trace|
    ensures Covered(trace[k], limit)
  {
    if k > 0 {
      StepsKeepCovered(trace, actions, limit, ttl, k - 1);
      StepKeepsCovered(trace[k - 1], actions[k - 1], limit, ttl);
    }
  }

  lemma {:induction false} StepsKeepWorkers(trace: seq<System>, actions: seq<Action>, limit: real, ttl: real, k: nat)
    requires Steps(trace, actions, limit, ttl) && k < |trace|
    ensures trace[k].tasks.Keys == trace[0].tasks.Keys
  {
    if k > 0 {
      StepsKeepWorkers(trace, actions, limit, ttl, k - 1);
      assert trace[k] == Next(trace[k - 1], actions[k - 1], limit, ttl);
    }
  }

  lemma OneMoreStep(trace: seq<System>, actions: seq<Action>, a: Action, limit: real, ttl: real)
    requires Steps(trace, actions, limit, ttl) && Reachable(a) && Enabled(Last(trace), a, limit)
    ensures Steps(trace + [Next(Last(trace), a, limit, ttl)], actions + [a], limit, ttl)
  {
  }

  /** Any workers can be killed, which changes nothing but their tasks. */
  lemma {:induction false} KillWorkers(s: System, gone: set<WorkerId>, limit: real, ttl: real)
    returns (trace: seq<System>, actions: seq<Action>)
    requires gone <= s.tasks.Keys
    ensures Steps(trace, actions, limit, ttl) && trace[0] == s
    ensures Last(trace) == s.(tasks := map w | w in s.tasks :: if w in gone then Free else s.tasks[w])
  {
    if gone == {} {
      trace, actions := [s], [];
      assert s.tasks == map w | w in s.tasks :: if w in gone then Free else s.tasks[w];
    } else {
      var v :| v in gone;
      trace, actions := KillWorkers(s, gone - {v}, limit, ttl);
      var wanted := map w | w in s.tasks :: if w in gone then Free else s.tasks[w];
      if s.tasks[v].Free? {
        assert Last(trace).tasks == wanted;
      } else {
        assert Last(trace).tasks[v := Free] == wanted;
        OneMoreStep(trace, actions, Kill(v), limit, ttl);
        trace, actions := trace + [Next(Last(trace), Kill(v), limit, ttl)], actions + [Kill(v)];
      }
    }
  }

  /** When the stored claim may run out before the body does, a second body can start. */
  lemma SecondBodyStarts(s: System, limit: real, ttl: real, w: WorkerId, v: WorkerId, id: ExecutionId)
    returns (trace: seq<System>, actions: seq<Action>)
    requires 0.0 <= limit && Running(s, w, id) && v in s.tasks && v != w && s.now <= s.tasks[w].startedAt + limit
    requires !Outlasts(s.store, id, s.tasks[w].startedAt, limit)
    ensures Steps(trace, actions, limit, ttl) && trace[0] == s && !Disjoint(Last(trace))
  {
    trace, actions := KillWorkers(s, s.tasks.Keys - {w}, limit, ttl);
    var wait := if Alive(s.store, Key(id), s.now) then s.store[Key(id)].expiresAt - s.now else 0.0;
    var acts := [Tick(wait), Deliver(v, id), Claim(v, "b", Answered)];
    var s0 := Last(trace);
    OneMoreStep(trace, actions, acts[0], limit, ttl);
    var s1 := Next(s0, acts[0], limit, ttl);
    trace, actions := trace + [s1], actions + [acts[0]];
    OneMoreStep(trace, actions, acts[1], limit, ttl);
    var s2 := Next(s1, acts[1], limit, ttl);
    trace, actions := trace + [s2], actions + [acts[1]];
    OneMoreStep(trace, actions, acts[2], limit, ttl);
    var s3 := Next(s2, acts[2], limit, ttl);
    trace, actions := trace + [s3], actions + [acts[2]];
    assert Running(s3, w, id) && Running(s3, v, id);
  }

  /** The claim that may be made without an answer is safe for the worker that makes it. */
  ghost predicate UnansweredClaimIsSafe(s: System, w: WorkerId, owner: string, reply: Reply, limit: real, ttl: real)
    requires Enabled(s, Claim(w, owner, reply), limit)
  {
    var id, startedAt := s.tasks[w].id, s.tasks[w].startedAt;
    && (forall v | v != w :: !Running(s, v, id))
    && Outlasts(ClaimWrite(s.store, id, owner, ttl, s.now, reply), id, startedAt, limit)
  }

  /**
   A claim that fails open: after any run with answered claims, a claim without an answer keeps
   bodies disjoint in every run that follows exactly when the worker is alone, or no other worker
   runs that execution and the claim left in the store outlasts the hard limit of the new body.
   */
  lemma UnansweredClaimSafeIff(trace: seq<System>, actions: seq<Action>, limit: real, ttl: real, w: WorkerId, owner: string, reply: Reply)
    requires 0.0 <= limit < ttl && Chain(trace, actions, limit, ttl) && !reply.Answered?
    requires Enabled(Last(trace), Claim(w, owner, reply), limit)
    ensures StaysDisjoint(Next(Last(trace), Claim(w, owner, reply), limit, ttl), limit, ttl) <==>
            Last(trace).tasks.Keys == {w} || UnansweredClaimIsSafe(Last(trace), w, owner, reply, limit, ttl)
  {
    var s := Last(trace);
    var s' := Next(s, Claim(w, owner, reply), limit, ttl);
    ChainKeepsInv(trace, actions, limit, ttl, |actions|);
    InvMeansCovered(s, limit, ttl);
    if s.tasks.Keys == {w} {
      LoneWorkerIsSafe(s', w, limit, ttl);
    } else if UnansweredClaimIsSafe(s, w, owner, reply, limit, ttl) {
      SafeClaimCovered(s, w, owner, reply, limit, ttl);
      CoveredStaysDisjoint(s', limit, ttl);
    } else {
      UnsafeClaimBreaks(s, w, owner, reply, limit, ttl);
    }
  }

  lemma LoneWorkerIsSafe(s: System, w: WorkerId, limit: real, ttl: real)
    requires s.tasks.Keys == {w}
    ensures StaysDisjoint(s, limit, ttl)
  {
    forall trace, actions, k: nat | Steps(trace, actions, limit, ttl) && trace[0] == s && k < |trace|
      ensures Disjoint(trace[k])
    {
      StepsKeepWorkers(trace, actions, limit, ttl, k);
    }
  }

  lemma CoveredStaysDisjoint(s: System, limit: real, ttl: real)
    requires 0.0 <= limit < ttl && Covered(s, limit)
    ensures StaysDisjoint(s, limit, ttl)
  {
    forall trace, actions, k: nat | Steps(trace, actions, limit, ttl) && trace[0] == s && k < |trace|
      ensures Disjoint(trace[k])
    {
      StepsKeepCovered(trace, actions, limit, ttl, k);
    }
  }

  lemma SafeClaimCovered(s: System, w: WorkerId, owner: string, reply: Reply, limit: real, ttl: real)
    requires 0.0 <= limit < ttl && Covered(s, limit) && Enabled(s, Claim(w, owner, reply), limit) && !reply.Answered?
    requires UnansweredClaimIsSafe(s, w, owner, reply, limit, ttl)
    ensures Covered(Next(s, Claim(w, owner, reply), limit, ttl), limit)
  {
    var s', id := Next(s, Claim(w, owner, reply), limit, ttl), s.tasks[w].id;
    assert TaskCovered(s, w, limit);
    forall v | v in s'.tasks
      ensures TaskCovered(s', v, limit)
    {
      assert TaskCovered(s, v, limit);
      if v != w && s.tasks[v].Body? && Key(s.tasks[v].id) == Key(id) { KeyInjective(s.tasks[v].id, id); }
    }
    assert forall v, x | v != w :: Running(s', v, x) <==> Running(s, v, x);
  }

  lemma UnsafeClaimBreaks(s: System, w: WorkerId, owner: string, reply: Reply, limit: real, ttl: real)
    requires 0.0 <= limit < ttl && Covered(s, limit) && Enabled(s, Claim(w, owner, reply), limit) && !reply.Answered?
    requires s.tasks.Keys != {w} && !UnansweredClaimIsSafe(s, w, owner, reply, limit, ttl)
    ensures !StaysDisjoint(Next(s, Claim(w, owner, reply), limit, ttl), limit, ttl)
  {
    var s', id := Next(s, Claim(w, owner, reply), limit, ttl), s.tasks[w].id;
    assert TaskCovered(s, w, limit);
    assert Running(s', w, id);
    if v :| v != w && Running(s, v, id) {
      assert Running(s', v, id);
      assert Steps([s'], [], limit, ttl) && !Disjoint([s'][0]);
    } else {
      var v :| v in s.tasks && v != w;
      var trace, actions := SecondBodyStarts(s', limit, ttl, w, v, id);
      assert !Disjoint(trace[|trace| - 1]);
    }
  }

  /** The shipped defaults are on the safe side. */
  lemma DefaultsAreSafe(trace: seq<System>, actions: seq<Action>, k: nat)
    requires Chain(trace, actions, 600.0, 3600.0) && k < |trace|
    ensures TASK_TIME_LIMIT == 600.0 && CLAIM_TTL == 3600.0 && Disjoint(trace[k])
  {
    ClaimsDisjointIff(TASK_TIME_LIMIT, CLAIM_TTL);
  }

  /** Not exactly-once: a delivery after the release runs the same execution again. */
  lemma SecondDeliveryRunsAgain(w: WorkerId, id: ExecutionId) returns (trace: seq<System>, actions: seq<Action>)
    ensures Chain(trace, actions, TASK_TIME_LIMIT, CLAIM_TTL)
    ensures |trace| == 6 && Running(trace[2], w, id) && !Running(trace[3], w, id) && Running(trace[5], w, id)
  {
    actions := [Deliver(w, id), Claim(w, "a", Answered), Finish(w, Answered), Deliver(w, id), Claim(w, "a", Answered)];
    var s0 := System(0.0, map[], map[w := Free], map[]);
    var s1 := Next(s0, actions[0], TASK_TIME_LIMIT, CLAIM_TTL);
    var s2 := Next(s1, actions[1], TASK_TIME_LIMIT, CLAIM_TTL);
    var s3 := Next(s2, actions[2], TASK_TIME_LIMIT, CLAIM_TTL);
    var s4 := Next(s3, actions[3], TASK_TIME_LIMIT, CLAIM_TTL);
    var s5 := Next(s4, actions[4], TASK_TIME_LIMIT, CLAIM_TTL);
    trace := [s0, s1, s2, s3, s4, s5];
  }
}
