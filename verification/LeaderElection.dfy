/**
 Leader election by a lease in the shared store. A lock's refresh and release read
 the key first and write it in a second step, so other instances can act in between.
 */
module LeaderElection {
  import opened Collections
  import opened LeaseStore

  const LEADER_LOCK_KEY := "weftlyflow:leader:lock"
  const LEADER_LOCK_TTL := 30.0
  const LEADER_REFRESH_INTERVAL := 10.0

  type InstanceId = string

  /** Where an instance stands between the read and the write of one call. */
  datatype Phase =
    | Idle
    | ToAcquire                // refresh found no entry
    | ToExpire(until: real)    // refresh found its own entry, visible until then
    | ToDelete(until: real)    // release found its own entry, visible until then

  /** held is the flag of the lock; since is the time of its last successful acquire or refresh. */
  datatype Lock = Lock(held: bool, since: real, phase: Phase)

  /** One instance next to the shared store. */
  datatype View = View(store: Store, now: real, lock: Lock)

  // ---- The steps of one instance -----------------------------------------------------------

  function AcquireStep(v: View, id: InstanceId, ttl: real, reply: Reply): View {
    var won := reply.Answered? && !Alive(v.store, LEADER_LOCK_KEY, v.now);
    v.(store := if reply.Unsent? then v.store else SetNxEx(v.store, LEADER_LOCK_KEY, id, ttl, v.now),
       lock := Lock(won, if won then v.now else v.lock.since, Idle))
  }

  /** A refresh whose read fails gives up and keeps its flag. */
  function RefreshRead(v: View, id: InstanceId, reply: Reply): View {
    if !reply.Answered? then v
    else
      match Get(v.store, LEADER_LOCK_KEY, v.now)
      case None => v.(lock := v.lock.(phase := ToAcquire))
      case Some(owner) =>
        if owner != id then v.(lock := v.lock.(held := false))
        else v.(lock := v.lock.(phase := ToExpire(v.store[LEADER_LOCK_KEY].expiresAt)))
  }

  /** The second half of a call; an answered EXPIRE sets held whatever it found, a failed one keeps the flag. */
  function FinishStep(v: View, id: InstanceId, ttl: real, reply: Reply): View {
    match v.lock.phase
    case Idle => v
    case ToAcquire => AcquireStep(v, id, ttl, reply)
    case ToExpire(_) =>
      v.(store := if reply.Unsent? then v.store else Expire(v.store, LEADER_LOCK_KEY, ttl, v.now),
         lock := if reply.Answered? then Lock(true, v.now, Idle) else v.lock.(phase := Idle))
    case ToDelete(_) =>
      v.(store := if reply.Unsent? then v.store else Delete(v.store, LEADER_LOCK_KEY),
         lock := v.lock.(held := false, phase := Idle))
  }

  function ReleaseRead(v: View, id: InstanceId, reply: Reply): View {
    if !v.lock.held then v
    else if reply.Answered? && Get(v.store, LEADER_LOCK_KEY, v.now) == Some(id)
    then v.(lock := v.lock.(phase := ToDelete(v.store[LEADER_LOCK_KEY].expiresAt)))
    else v.(lock := v.lock.(held := false))
  }

  // ---- The lock object: each call as one uninterrupted pair of steps --------------------------

  class RedisLeaderLock {
    const server: Server
    const instanceId: InstanceId
    const ttl: real
    var held: bool
    ghost var since: real

    constructor (server: Server, instanceId: InstanceId, ttl: real)
      ensures this.server == server && this.instanceId == instanceId && this.ttl == ttl && !held
    {
      this.server, this.instanceId, this.ttl, held := server, instanceId, ttl, false;
    }

    ghost function Seen(): View
      reads this, server
    {
      View(server.entries, server.now, Lock(held, since, Idle))
    }

    method Acquire(reply: Reply) returns (leader: bool)
      modifies this, server`entries
      ensures Seen() == AcquireStep(old(Seen()), instanceId, ttl, reply)
      ensures leader == held
      ensures held <==> reply.Answered? && !Alive(old(server.entries), LEADER_LOCK_KEY, server.now)
      ensures server.entries ==
              if reply.Unsent? || Alive(old(server.entries), LEADER_LOCK_KEY, server.now) then old(server.entries)
              else old(server.entries)[LEADER_LOCK_KEY := Entry(instanceId, server.now + ttl)]
    {
      var acquired := server.Set(LEADER_LOCK_KEY, instanceId, ttl, reply);
      if acquired.None? {
        held := false;
        return false;
      }
      held := acquired.value;
      if held {
        since := server.now;
      }
      leader := held;
    }

    /**
     A failed read changes nothing and answers false. A read that finds no entry takes over if the write
     is answered; one that finds another owner steps down; one that finds itself extends the lease.
     */
    method Refresh(read: Reply, write: Reply) returns (leader: bool)
      modifies this, server`entries
      ensures Seen() == FinishStep(RefreshRead(old(Seen()), instanceId, read), instanceId, ttl, write)
      ensures leader == (held && read.Answered?)
      ensures !read.Answered? ==> held == old(held) && server.entries == old(server.entries)
      ensures read.Answered? && !Alive(old(server.entries), LEADER_LOCK_KEY, server.now) ==>
                && (held <==> write.Answered?)
                && server.entries == (if write.Unsent? then old(server.entries)
                                      else old(server.entries)[LEADER_LOCK_KEY := Entry(instanceId, server.now + ttl)])
      ensures read.Answered? && Alive(old(server.entries), LEADER_LOCK_KEY, server.now) &&
              old(server.entries)[LEADER_LOCK_KEY].value != instanceId ==>
                !held && server.entries == old(server.entries)
      ensures read.Answered? && Alive(old(server.entries), LEADER_LOCK_KEY, server.now) &&
              old(server.entries)[LEADER_LOCK_KEY].value == instanceId ==>
                && held == (write.Answered? || old(held))
                && server.entries == (if write.Unsent? then old(server.entries)
                                      else old(server.entries)[LEADER_LOCK_KEY := Entry(instanceId, server.now + ttl)])
    {
      var current := server.Read(LEADER_LOCK_KEY, read);
      if current.None? {
        return false;
      }
      if current.value.None? {
        leader := Acquire(write);
        return;
      }
      if current.value.value != instanceId {
        held := false;
        return false;
      }
      var expired := server.Touch(LEADER_LOCK_KEY, ttl, write);
      if !expired {
        return held;
      }
      held, since := true, server.now;
      leader := true;
    }

    method Release(read: Reply, write: Reply)
      modifies this, server`entries
      ensures Seen() == FinishStep(ReleaseRead(old(Seen()), instanceId, read), instanceId, ttl, write)
      ensures !held
      ensures server.entries ==
              if old(held) && read.Answered? && Alive(old(server.entries), LEADER_LOCK_KEY, server.now) &&
                 old(server.entries)[LEADER_LOCK_KEY].value == instanceId && !write.Unsent?
              then old(server.entries) - {LEADER_LOCK_KEY} else old(server.entries)
    {
      if !held {
        return;
      }
      var current := server.Read(LEADER_LOCK_KEY, read);
      if current == Some(Some(instanceId)) {
        var deleted := server.Remove(LEADER_LOCK_KEY, write);
      }
      held := false;
    }

    method IsLeader() returns (leader: bool)
      ensures leader == held
    {
      leader := held;
    }
  }

  // ---- All instances together --------------------------------------------------------------------

  datatype System = System(now: real, store: Store, locks: map<InstanceId, Lock>)

  datatype Call = DoAcquire | DoRefresh | DoRelease | DoFinish

  /** Any instance may act at any time, and any command may fail. */
  datatype Action = Tick(elapsed: real) | Act(id: InstanceId, call: Call, reply: Reply)

  ghost predicate Start(s: System) {
    s.store == map[] && forall i | i in s.locks :: !s.locks[i].held && s.locks[i].phase.Idle?
  }

  /** A new call starts only when the instance is idle; its second half only when one is due. */
  predicate Enabled(s: System, a: Action) {
    match a
    case Tick(d) => d >= 0.0
    case Act(i, call, _) => i in s.locks && (call.DoFinish? <==> !s.locks[i].phase.Idle?)
  }

  function Step(v: View, i: InstanceId, call: Call, ttl: real, reply: Reply): View {
    match call
    case DoAcquire => AcquireStep(v, i, ttl, reply)
    case DoRefresh => RefreshRead(v, i, reply)
    case DoRelease => ReleaseRead(v, i, reply)
    case DoFinish => FinishStep(v, i, ttl, reply)
  }

  function Next(s: System, a: Action, ttl: real): System
    requires Enabled(s, a)
  {
    match a
    case Tick(d) => s.(now := s.now + d)
    case Act(i, call, reply) =>
      var v := Step(View(s.store, s.now, s.locks[i]), i, call, ttl, reply);
      s.(store := v.store, locks := s.locks[i := v.lock])
  }

  /** The write of a refresh or release comes before the entry its read saw runs out. */
  predicate Prompt(s: System, a: Action)
    requires Enabled(s, a)
  {
    a.Act? && a.call.DoFinish? ==>
      match s.locks[a.id].phase
      case ToExpire(until) => s.now < until
      case ToDelete(until) => s.now < until
      case _ => true
  }

  /** A run from any state. */
  ghost predicate Steps(trace: seq<System>, actions: seq<Action>, ttl: real) {
    && |trace| == |actions| + 1
    && (forall k | 0 <= k < |actions| ::
          Enabled(trace[k], actions[k]) && trace[k + 1] == Next(trace[k], actions[k], ttl))
  }

  ghost predicate Chain(trace: seq<System>, actions: seq<Action>, ttl: real) {
    Steps(trace, actions, ttl) && Start(trace[0])
  }

  /** A run in which every write follows its read within the lease. */
  ghost predicate PromptSteps(trace: seq<System>, actions: seq<Action>, ttl: real) {
    && ttl > 0.0 && Steps(trace, actions, ttl)
    && forall i | 0 <= i < |actions| :: Enabled(trace[i], actions[i]) && Prompt(trace[i], actions[i])
  }

  ghost predicate PromptRun(trace: seq<System>, actions: seq<Action>, ttl: real) {
    PromptSteps(trace, actions, ttl) && Start(trace[0])
  }

  /** Instance i believes it leads and its last success is less than one TTL ago. */
  ghost predicate Leads(s: System, ttl: real, i: InstanceId) {
    i in s.locks && s.locks[i].held && s.now < s.locks[i].since + ttl
  }

  /** At most one instance leads, and it owns the stored entry. */
  ghost predicate Exclusive(s: System, ttl: real) {
    && (forall i, j | Leads(s, ttl, i) && Leads(s, ttl, j) :: i == j)
    && (forall i | Leads(s, ttl, i) :: Get(s.store, LEADER_LOCK_KEY, s.now) == Some(i))
  }

  // ---- The inductive invariant ----------------------------------------------------------------------

  /** A write with a lost answer may have moved the expiry later than the holder knows. */
  ghost predicate OwnsBeyond(store: Store, i: InstanceId, until: real) {
    LEADER_LOCK_KEY in store && store[LEADER_LOCK_KEY].value == i && store[LEADER_LOCK_KEY].expiresAt >= until
  }

  /** Until the entry its read saw runs out, an instance with a pending write owns it. */
  ghost predicate LockCovered(s: System, ttl: real, i: InstanceId)
    requires i in s.locks
  {
    var lock := s.locks[i];
    && (lock.held ==> lock.since <= s.now)
    && (Leads(s, ttl, i) ==> OwnsBeyond(s.store, i, lock.since + ttl))
    && (Pending(s, i) ==> OwnsBeyond(s.store, i, lock.phase.until))
  }

  /** Instance i read its own entry and may still write promptly. */
  ghost predicate Pending(s: System, i: InstanceId) {
    i in s.locks && (s.locks[i].phase.ToExpire? || s.locks[i].phase.ToDelete?) && s.now < s.locks[i].phase.until
  }

  ghost predicate Covered(s: System, ttl: real) {
    forall i | i in s.locks :: LockCovered(s, ttl, i)
  }

  /** In prompt runs, the entry an instance read and still owns runs out when the read saw it would. */
  ghost predicate LockHolds(s: System, ttl: real, i: InstanceId)
    requires i in s.locks
  {
    var phase := s.locks[i].phase;
    && LockCovered(s, ttl, i)
    && (phase.ToExpire? || phase.ToDelete? ==> phase.until <= s.now + ttl)
    && ((phase.ToExpire? || phase.ToDelete?) && LEADER_LOCK_KEY in s.store && s.store[LEADER_LOCK_KEY].value == i ==>
          s.store[LEADER_LOCK_KEY].expiresAt == phase.until)
  }

  ghost predicate Inv(s: System, ttl: real) {
    && (LEADER_LOCK_KEY in s.store ==> s.store[LEADER_LOCK_KEY].expiresAt <= s.now + ttl)
    && forall i | i in s.locks :: LockHolds(s, ttl, i)
  }

  lemma InvMeansCovered(s: System, ttl: real)
    requires Inv(s, ttl)
    ensures Covered(s, ttl)
  {
    forall i | i in s.locks
      ensures LockCovered(s, ttl, i)
    {
      assert LockHolds(s, ttl, i);
    }
  }

  lemma CoveredMeansExclusive(s: System, ttl: real)
    requires Covered(s, ttl)
    ensures Exclusive(s, ttl)
  {
    forall i | Leads(s, ttl, i)
      ensures OwnsBeyond(s.store, i, s.locks[i].since + ttl)
    {
      assert LockCovered(s, ttl, i);
    }
  }

  lemma StepKeepsCovered(s: System, a: Action, ttl: real)
    requires ttl > 0.0 && Enabled(s, a) && Prompt(s, a) && Covered(s, ttl)
    ensures Covered(Next(s, a, ttl), ttl)
  {
    var s' := Next(s, a, ttl);
    forall j | j in s'.locks
      ensures LockCovered(s', ttl, j)
    {
      assert LockCovered(s, ttl, j);
      if a.Act? {
        assert LockCovered(s, ttl, a.id);
        if j == a.id {
          OwnLockCovered(s, j, a.call, a.reply, ttl);
        } else {
          OtherLockCovered(s, a.id, a.call, a.reply, ttl, j);
        }
      }
    }
  }

  lemma OwnLockCovered(s: System, i: InstanceId, call: Call, reply: Reply, ttl: real)
    requires ttl > 0.0 && Enabled(s, Act(i, call, reply)) && Prompt(s, Act(i, call, reply)) && LockCovered(s, ttl, i)
    ensures LockCovered(Next(s, Act(i, call, reply), ttl), ttl, i)
  {
  }

  /** No step of one instance disturbs the lease another one holds. */
  lemma OtherLockCovered(s: System, i: InstanceId, call: Call, reply: Reply, ttl: real, j: InstanceId)
    requires ttl > 0.0 && Enabled(s, Act(i, call, reply)) && Prompt(s, Act(i, call, reply)) && LockCovered(s, ttl, i)
    requires j in s.locks && j != i && LockCovered(s, ttl, j)
    ensures LockCovered(Next(s, Act(i, call, reply), ttl), ttl, j)
  {
  }

  /** A prompt step of any instance keeps the invariant for every instance. */
  lemma StepKeepsInv(s: System, a: Action, ttl: real)
    requires ttl > 0.0 && Enabled(s, a) && Prompt(s, a) && Inv(s, ttl)
    ensures Inv(Next(s, a, ttl), ttl)
  {
    var s' := Next(s, a, ttl);
    InvMeansCovered(s, ttl);
    StepKeepsCovered(s, a, ttl);
    forall j | j in s'.locks
      ensures LockHolds(s', ttl, j)
    {
      assert LockHolds(s, ttl, j) && LockCovered(s', ttl, j);
      if a.Act? { assert LockHolds(s, ttl, a.id); }
    }
  }

  lemma {:induction false} ChainKeepsInv(trace: seq<System>, actions: seq<Action>, ttl: real, k: nat)
    requires PromptRun(trace, actions, ttl) && k < |trace|
    ensures Inv(trace[k], ttl)
  {
    if k > 0 {
      ChainKeepsInv(trace, actions, ttl, k - 1);
      StepKeepsInv(trace[k - 1], actions[k - 1], ttl);
    }
  }

  /**
   Safety: in every state of every run, failed commands included, in which writes follow their
   reads within the lease, at most one instance leads and the store names it as owner.
   */
  lemma LeaderExclusion(trace: seq<System>, actions: seq<Action>, ttl: real, k: nat)
    requires PromptRun(trace, actions, ttl) && k < |trace|
    ensures Exclusive(trace[k], ttl)
  {
    ChainKeepsInv(trace, actions, ttl, k);
    InvMeansCovered(trace[k], ttl);
    CoveredMeansExclusive(trace[k], ttl);
  }

  lemma PromptRunInv(trace: seq<System>, actions: seq<Action>, ttl: real)
    requires PromptRun(trace, actions, ttl)
    ensures Inv(Last(trace), ttl)
  {
    ChainKeepsInv(trace, actions, ttl, |actions|);
  }

  // ---- When a late write does harm -------------------------------------------------------------------

  /** Every prompt run from here stays exclusive. */
  ghost predicate StaysExclusive(s: System, ttl: real) {
    forall trace, actions, k: nat | PromptSteps(trace, actions, ttl) && trace[0] == s && k < |trace| :: Exclusive(trace[k], ttl)
  }

  lemma {:induction false} StepsKeepCovered(trace: seq<System>, actions: seq<Action>, ttl: real, k: nat)
    requires PromptSteps(trace, actions, ttl) && Covered(trace[0], ttl) && k < |trace|
    ensures Covered(trace[k], ttl)
  {
    if k > 0 {
      StepsKeepCovered(trace, actions, ttl, k - 1);
      StepKeepsCovered(trace[k - 1], actions[k - 1], ttl);
    }
  }

  lemma CoveredStaysExclusive(s: System, ttl: real)
    requires Covered(s, ttl)
    ensures StaysExclusive(s, ttl)
  {
    forall trace, actions, k: nat | PromptSteps(trace, actions, ttl) && trace[0] == s && k < |trace|
      ensures Exclusive(trace[k], ttl)
    {
      StepsKeepCovered(trace, actions, ttl, k);
      CoveredMeansExclusive(trace[k], ttl);
    }
  }

  lemma BrokenAtOnce(s: System, ttl: real)
    requires ttl > 0.0 && !Exclusive(s, ttl)
    ensures !StaysExclusive(s, ttl)
  {
    assert PromptSteps([s], [], ttl) && !Exclusive([s][0], ttl);
  }

  /**
   After any prompt run, the write of a refresh keeps exclusion in every prompt run that follows
   exactly when it fails or is prompt itself.
   */
  lemma ExpireSafeIffPrompt(trace: seq<System>, actions: seq<Action>, i: InstanceId, ttl: real, reply: Reply)
    requires PromptRun(trace, actions, ttl) && i in Last(trace).locks && Last(trace).locks[i].phase.ToExpire?
    ensures StaysExclusive(Next(Last(trace), Act(i, DoFinish, reply), ttl), ttl) <==>
            (reply.Answered? ==> Prompt(Last(trace), Act(i, DoFinish, reply)))
  {
    var s := Last(trace);
    var s' := Next(s, Act(i, DoFinish, reply), ttl);
    PromptRunInv(trace, actions, ttl);
    assert LockHolds(s, ttl, i);
    assert forall j | Pending(s, j) :: LockHolds(s, ttl, j);
    InvMeansCovered(s, ttl);
    if Prompt(s, Act(i, DoFinish, reply)) {
      StepKeepsCovered(s, Act(i, DoFinish, reply), ttl);
      CoveredStaysExclusive(s', ttl);
    } else if reply.Answered? {
      assert Leads(s', ttl, i);
      BrokenAtOnce(s', ttl);
    } else {
      FailedExpireCovered(s, s', i, ttl, reply);
      CoveredStaysExclusive(s', ttl);
    }
  }

  /** A late EXPIRE without an answer can only lengthen the lease of whoever owns the entry by now. */
  lemma FailedExpireCovered(s: System, s': System, i: InstanceId, ttl: real, reply: Reply)
    requires Covered(s, ttl) && ttl > 0.0 && i in s.locks && s.locks[i].phase.ToExpire? && !reply.Answered?
    requires !Pending(s, i) && s' == Next(s, Act(i, DoFinish, reply), ttl)
    requires forall j | Pending(s, j) :: s.locks[j].phase.until <= s.now + ttl
    ensures Covered(s', ttl)
  {
    forall j | j in s'.locks
      ensures LockCovered(s', ttl, j)
    {
      assert LockCovered(s, ttl, j);
    }
  }

  /** No other instance leads or may still write promptly to the entry it read. */
  ghost predicate NoneElse(s: System, i: InstanceId, ttl: real) {
    forall j | j != i :: !Leads(s, ttl, j) && !Pending(s, j)
  }

  /**
   After any prompt run, the delete of a release keeps exclusion in every prompt run that follows
   exactly when it does not reach the server, or no other instance leads or has a prompt write
   pending by then. A prompt delete ensures that.
   */
  lemma DeleteSafeIffNoneElse(trace: seq<System>, actions: seq<Action>, i: InstanceId, ttl: real, reply: Reply)
    requires PromptRun(trace, actions, ttl) && i in Last(trace).locks && Last(trace).locks[i].phase.ToDelete?
    ensures StaysExclusive(Next(Last(trace), Act(i, DoFinish, reply), ttl), ttl) <==>
            reply.Unsent? || NoneElse(Last(trace), i, ttl)
    ensures Prompt(Last(trace), Act(i, DoFinish, reply)) ==> NoneElse(Last(trace), i, ttl)
  {
    var s := Last(trace);
    PromptRunInv(trace, actions, ttl);
    InvMeansCovered(s, ttl);
    assert LockCovered(s, ttl, i);
    assert forall j | j in s.locks :: LockCovered(s, ttl, j);
    if reply.Unsent? || NoneElse(s, i, ttl) {
      HarmlessDeleteCovered(s, i, ttl, reply);
      CoveredStaysExclusive(Next(s, Act(i, DoFinish, reply), ttl), ttl);
    } else {
      var j :| j != i && (Leads(s, ttl, j) || Pending(s, j));
      HarmfulDelete(s, i, j, ttl, reply);
    }
  }

  lemma HarmlessDeleteCovered(s: System, i: InstanceId, ttl: real, reply: Reply)
    requires Covered(s, ttl) && i in s.locks && s.locks[i].phase.ToDelete? && (reply.Unsent? || NoneElse(s, i, ttl))
    ensures Covered(Next(s, Act(i, DoFinish, reply), ttl), ttl)
  {
    var s' := Next(s, Act(i, DoFinish, reply), ttl);
    forall j | j in s'.locks
      ensures LockCovered(s', ttl, j)
    {
      assert LockCovered(s, ttl, j);
      assert j != i ==> (Leads(s', ttl, j) <==> Leads(s, ttl, j)) && (Pending(s', j) <==> Pending(s, j));
    }
  }

  /**
   The delete leaves a leader without its entry at once; a pending refresh comes to lead without
   one; and a pending release deletes the entry of the next leader.
   */
  lemma HarmfulDelete(s: System, i: InstanceId, j: InstanceId, ttl: real, reply: Reply)
    requires ttl > 0.0 && i in s.locks && s.locks[i].phase.ToDelete? && !reply.Unsent?
    requires j != i && (Leads(s, ttl, j) || Pending(s, j))
    ensures !StaysExclusive(Next(s, Act(i, DoFinish, reply), ttl), ttl)
  {
    var s0 := Next(s, Act(i, DoFinish, reply), ttl);
    if Leads(s, ttl, j) {
      assert Leads(s0, ttl, j);
      BrokenAtOnce(s0, ttl);
    } else if s.locks[j].phase.ToExpire? {
      var s1 := Next(s0, Act(j, DoFinish, Answered), ttl);
      assert Leads(s1, ttl, j);
      var trace, actions := [s0, s1], [Act(j, DoFinish, Answered)];
      assert PromptSteps(trace, actions, ttl) && !Exclusive(trace[1], ttl);
    } else {
      var a1, a2 := Act(i, DoAcquire, Answered), Act(j, DoFinish, Answered);
      var s1 := Next(s0, a1, ttl);
      var s2 := Next(s1, a2, ttl);
      assert Leads(s2, ttl, i);
      var trace, actions := [s0, s1, s2], [a1, a2];
      assert PromptSteps(trace, actions, ttl) && !Exclusive(trace[2], ttl);
    }
  }

  /** After any prompt run, a leader that refreshes within the refresh interval finds itself the owner and leads again. */
  lemma TimelyRefreshKeepsLeading(trace: seq<System>, actions: seq<Action>, i: InstanceId, gap: real)
    requires PromptRun(trace, actions, LEADER_LOCK_TTL)
    requires i in Last(trace).locks && Last(trace).locks[i].held && Last(trace).locks[i].phase.Idle?
    requires 0.0 <= gap && Last(trace).now + gap <= Last(trace).locks[i].since + LEADER_REFRESH_INTERVAL
    ensures
      var later := Next(Last(trace), Tick(gap), LEADER_LOCK_TTL);
      var read := Next(later, Act(i, DoRefresh, Answered), LEADER_LOCK_TTL);
      && read.locks[i].phase.ToExpire?
      && Leads(Next(read, Act(i, DoFinish, Answered), LEADER_LOCK_TTL), LEADER_LOCK_TTL, i)
  {
    PromptRunInv(trace, actions, LEADER_LOCK_TTL);
    assert LockHolds(Last(trace), LEADER_LOCK_TTL, i);
  }

  // ---- Takeover, yielding and release ----------------------------------------------------------------------

  /** Both halves of a call, answered and without a pause. */
  function AtOnce(s: System, i: InstanceId, call: Call, ttl: real): System
    requires i in s.locks && s.locks[i].phase.Idle? && !call.DoFinish?
  {
    var read := Next(s, Act(i, call, Answered), ttl);
    if read.locks[i].phase.Idle? then read else Next(read, Act(i, DoFinish, Answered), ttl)
  }

  /** After any prompt run, an idle instance that refreshes when no entry is visible leads and owns a full lease. */
  lemma RefreshTakesOver(trace: seq<System>, actions: seq<Action>, i: InstanceId, ttl: real)
    requires PromptRun(trace, actions, ttl) && i in Last(trace).locks && Last(trace).locks[i].phase.Idle?
    requires !Alive(Last(trace).store, LEADER_LOCK_KEY, Last(trace).now)
    ensures
      var s, s' := Last(trace), AtOnce(Last(trace), i, DoRefresh, ttl);
      && Leads(s', ttl, i) && s'.now == s.now
      && s'.store == s.store[LEADER_LOCK_KEY := Entry(i, s.now + ttl)]
      && StaysExclusive(s', ttl)
  {
    var s := Last(trace);
    var a, b := Act(i, DoRefresh, Answered), Act(i, DoFinish, Answered);
    PromptRunInv(trace, actions, ttl);
    InvMeansCovered(s, ttl);
    StepKeepsCovered(s, a, ttl);
    StepKeepsCovered(Next(s, a, ttl), b, ttl);
    CoveredStaysExclusive(AtOnce(s, i, DoRefresh, ttl), ttl);
  }

  /** An instance that refreshes while another owns the visible entry gives up its flag and leaves the entry alone. */
  lemma RefreshYields(s: System, i: InstanceId, ttl: real)
    requires i in s.locks && s.locks[i].phase.Idle? && Alive(s.store, LEADER_LOCK_KEY, s.now)
    requires s.store[LEADER_LOCK_KEY].value != i
    ensures
      var s' := AtOnce(s, i, DoRefresh, ttl);
      s'.store == s.store && !s'.locks[i].held && forall j | j in s.locks && j != i :: s'.locks[j] == s.locks[j]
  {
  }

  /** A leader that releases lets any other instance take over at once. */
  lemma ReleaseHandsOver(trace: seq<System>, actions: seq<Action>, i: InstanceId, j: InstanceId, ttl: real)
    requires PromptRun(trace, actions, ttl) && Leads(Last(trace), ttl, i) && Last(trace).locks[i].phase.Idle?
    requires j != i && j in Last(trace).locks && Last(trace).locks[j].phase.Idle?
    ensures
      var released := AtOnce(Last(trace), i, DoRelease, ttl);
      && !released.locks[i].held && LEADER_LOCK_KEY !in released.store
      && j in released.locks && released.locks[j].phase.Idle?
      && Leads(AtOnce(released, j, DoAcquire, ttl), ttl, j)
  {
    PromptRunInv(trace, actions, ttl);
    assert LockHolds(Last(trace), ttl, i);
  }

  // ---- Without promptness two instances can lead at once ------------------------------------------------

  /** The pause between read and write that lets a second instance in. */
  function PausedRefresh(a: InstanceId, b: InstanceId): seq<Action> {
    [Act(a, DoAcquire, Answered), Act(a, DoRefresh, Answered), Tick(LEADER_LOCK_TTL),
     Act(b, DoAcquire, Answered), Act(a, DoFinish, Answered)]
  }

  lemma PausedRefreshBreaksExclusion(a: InstanceId, b: InstanceId) returns (trace: seq<System>)
    requires a != b
    ensures Chain(trace, PausedRefresh(a, b), LEADER_LOCK_TTL)
    ensures Leads(trace[5], LEADER_LOCK_TTL, a) && Leads(trace[5], LEADER_LOCK_TTL, b)
    ensures !Exclusive(trace[5], LEADER_LOCK_TTL)
  {
    var off, ttl := Lock(false, 0.0, Idle), LEADER_LOCK_TTL;
    var acts := PausedRefresh(a, b);
    var s0 := System(0.0, map[], map[a := off, b := off]);
    var s1 := Next(s0, acts[0], ttl);
    var s2 := Next(s1, acts[1], ttl);
    var s3 := Next(s2, acts[2], ttl);
    var s4 := Next(s3, acts[3], ttl);
    var s5 := Next(s4, acts[4], ttl);
    assert s2.locks[a] == Lock(true, 0.0, ToExpire(30.0));
    assert s4.locks[b] == Lock(true, 30.0, Idle);
    assert s5.locks[a] == Lock(true, 30.0, Idle);
    trace := [s0, s1, s2, s3, s4, s5];
  }

  /** The pause of a release deletes the entry of the next leader and lets a third instance in. */
  function PausedRelease(a: InstanceId, b: InstanceId, c: InstanceId): seq<Action> {
    [Act(a, DoAcquire, Answered), Act(a, DoRelease, Answered), Tick(LEADER_LOCK_TTL),
     Act(b, DoAcquire, Answered), Act(a, DoFinish, Answered), Act(c, DoAcquire, Answered)]
  }

  lemma PausedReleaseBreaksExclusion(a: InstanceId, b: InstanceId, c: InstanceId) returns (trace: seq<System>)
    requires a != b && b != c && a != c
    ensures Chain(trace, PausedRelease(a, b, c), LEADER_LOCK_TTL)
    ensures Leads(trace[6], LEADER_LOCK_TTL, b) && Leads(trace[6], LEADER_LOCK_TTL, c)
    ensures !Exclusive(trace[6], LEADER_LOCK_TTL)
  {
    var off, ttl := Lock(false, 0.0, Idle), LEADER_LOCK_TTL;
    var acts := PausedRelease(a, b, c);
    var s0 := System(0.0, map[], map[a := off, b := off, c := off]);
    var s1 := Next(s0, acts[0], ttl);
    var s2 := Next(s1, acts[1], ttl);
    var s3 := Next(s2, acts[2], ttl);
    var s4 := Next(s3, acts[3], ttl);
    var s5 := Next(s4, acts[4], ttl);
    var s6 := Next(s5, acts[5], ttl);
    assert s2.locks[a] == Lock(true, 0.0, ToDelete(30.0));
    assert s4.locks[b] == Lock(true, 30.0, Idle);
    assert s5.store == map[] && s6.locks[c] == Lock(true, 30.0, Idle);
    trace := [s0, s1, s2, s3, s4, s5, s6];
    assert Leads(trace[6], ttl, b) && Leads(trace[6], ttl, c);
  }
}
