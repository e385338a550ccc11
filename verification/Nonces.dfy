/** One-shot nonces: two stores with expiry, judged against a log that forgets nothing. */
module Nonces {
  import opened Collections
  import opened LeaseStore
  import opened StateTokens

  const KEY_PREFIX := "weftlyflow:sso:nonce:"

  /** One call of consume. */
  datatype Use = Use(nonce: string, ttl: real, now: real)

  // ---- The three stores ---------------------------------------------------------------------

  /** The dict drops expired entries, then accepts a nonce it does not hold. */
  function DictAccepts(seen: map<string, real>, c: Use): bool {
    !(c.nonce in seen && seen[c.nonce] > c.now)
  }

  function DictAfter(seen: map<string, real>, c: Use): map<string, real> {
    var kept := map k | k in seen && seen[k] > c.now :: seen[k];
    if c.nonce in kept then kept else kept[c.nonce := c.now + c.ttl]
  }

  function RedisAccepts(store: Store, c: Use): bool {
    !Alive(store, KEY_PREFIX + c.nonce, c.now)
  }

  function RedisAfter(store: Store, c: Use): Store {
    SetNxEx(store, KEY_PREFIX + c.nonce, "1", c.ttl, c.now)
  }

  /** An accepted nonce and the time it stays refused until. */
  datatype Mark = Mark(nonce: string, expiry: real)

  ghost predicate Refused(log: seq<Mark>, nonce: string, now: real) {
    exists i :: 0 <= i < |log| && log[i].nonce == nonce && log[i].expiry > now
  }

  ghost function LogAfter(log: seq<Mark>, c: Use): seq<Mark> {
    if Refused(log, c.nonce, c.now) then log else log + [Mark(c.nonce, c.now + c.ttl)]
  }

  class InMemoryNonceStore {
    var seen: map<string, real>

    constructor ()
      ensures seen == map[]
    {
      seen := map[];
    }

    method Consume(nonce: string, ttl: real, now: real) returns (first: bool)
      modifies this
      ensures first == DictAccepts(old(seen), Use(nonce, ttl, now))
      ensures seen == DictAfter(old(seen), Use(nonce, ttl, now))
    {
      if seen != map[] {
        seen := map k | k in seen && seen[k] > now :: seen[k];
      }
      if nonce in seen {
        return false;
      }
      seen := seen[nonce := now + ttl];
      first := true;
    }
  }

  class RedisNonceStore {
    const server: Server

    constructor (server: Server)
      ensures this.server == server
    {
      this.server := server;
    }

    /** A store error fails the request: no answer. */
    method Consume(nonce: string, ttl: real, reply: Reply) returns (first: Option<bool>)
      modifies server`entries
      ensures first == if reply.Answered? then Some(RedisAccepts(old(server.entries), Use(nonce, ttl, server.now))) else None
      ensures server.entries ==
              if reply.Unsent? then old(server.entries) else RedisAfter(old(server.entries), Use(nonce, ttl, server.now))
    {
      first := server.Set(KEY_PREFIX + nonce, "1", ttl, reply);
    }
  }

  // ---- All three give the same answers ----------------------------------------------------------

  ghost predicate Ordered(calls: seq<Use>) {
    forall i, j | 0 <= i < j < |calls| :: calls[i].now <= calls[j].now
  }

  ghost function DictState(calls: seq<Use>): map<string, real> {
    if calls == [] then map[] else DictAfter(DictState(Init(calls)), Last(calls))
  }

  ghost function RedisState(calls: seq<Use>): Store {
    if calls == [] then map[] else RedisAfter(RedisState(Init(calls)), Last(calls))
  }

  ghost function LogState(calls: seq<Use>): seq<Mark> {
    if calls == [] then [] else LogAfter(LogState(Init(calls)), Last(calls))
  }

  /** From time now on, the three stores refuse the same nonces. */
  ghost predicate Alike(seen: map<string, real>, store: Store, log: seq<Mark>, now: real) {
    forall n, t | t >= now ::
      && (Refused(log, n, t) <==> n in seen && seen[n] > t)
      && (Refused(log, n, t) <==> Alive(store, KEY_PREFIX + n, t))
  }

  lemma LogPush(log: seq<Mark>, mark: Mark, n: string, t: real)
    ensures Refused(log + [mark], n, t) <==> Refused(log, n, t) || (mark.nonce == n && mark.expiry > t)
  {
    if Refused(log, n, t) {
      var i :| 0 <= i < |log| && log[i].nonce == n && log[i].expiry > t;
      assert (log + [mark])[i] == log[i];
    }
    assert (log + [mark])[|log|] == mark;
  }

  lemma ConsumeKeepsAlike(seen: map<string, real>, store: Store, log: seq<Mark>, was: real, c: Use)
    requires was <= c.now && Alike(seen, store, log, was)
    ensures Alike(DictAfter(seen, c), RedisAfter(store, c), LogAfter(log, c), c.now)
  {
    forall n, t | t >= c.now
      ensures Refused(LogAfter(log, c), n, t) <==> n in DictAfter(seen, c) && DictAfter(seen, c)[n] > t
      ensures Refused(LogAfter(log, c), n, t) <==> Alive(RedisAfter(store, c), KEY_PREFIX + n, t)
    {
      LogPush(log, Mark(c.nonce, c.now + c.ttl), n, t);
      SameNonce(c.nonce, n);
      assert Refused(log, n, t) <==> n in seen && seen[n] > t;
      assert Refused(log, c.nonce, c.now) <==> c.nonce in seen && seen[c.nonce] > c.now;
      assert Refused(log, n, c.now) <==> n in seen && seen[n] > c.now;
      assert Refused(log, n, c.now) <==> Alive(store, KEY_PREFIX + n, c.now);
    }
  }

  lemma SameNonce(a: string, b: string)
    ensures KEY_PREFIX + a == KEY_PREFIX + b <==> a == b
  {
    assert a == (KEY_PREFIX + a)[|KEY_PREFIX|..] && b == (KEY_PREFIX + b)[|KEY_PREFIX|..];
  }

  lemma {:induction false} StatesAlike(calls: seq<Use>)
    requires calls != [] && Ordered(calls)
    ensures Alike(DictState(calls), RedisState(calls), LogState(calls), Last(calls).now)
  {
    var c := Last(calls);
    if |calls| == 1 {
      assert Init(calls) == [];
      ConsumeKeepsAlike(map[], map[], [], c.now, c);
    } else {
      StatesAlike(Init(calls));
      ConsumeKeepsAlike(DictState(Init(calls)), RedisState(Init(calls)), LogState(Init(calls)), Last(Init(calls)).now, c);
    }
  }

  /** Under a clock that never runs back, dict and Redis answer every call as the full log does. */
  lemma SameAnswers(calls: seq<Use>, next: Use)
    requires Ordered(calls + [next])
    ensures DictAccepts(DictState(calls), next) == !Refused(LogState(calls), next.nonce, next.now)
    ensures RedisAccepts(RedisState(calls), next) == !Refused(LogState(calls), next.nonce, next.now)
  {
    if calls != [] {
      assert Ordered(calls) by {
        assert forall i | 0 <= i < |calls| :: (calls + [next])[i] == calls[i];
      }
      assert (calls + [next])[|calls| - 1] == Last(calls) && (calls + [next])[|calls|] == next;
      StatesAlike(calls);
    }
  }

  // ---- Callbacks: a verified token, then its nonce ----------------------------------------------------

  /** The nonce a callback goes on to consume: that of a verified token, if it is a nonempty text. */
  function NonceOf(codec: Codec, key: string, token: string, now: real): Option<string> {
    match VerifyToken(codec, key, token, now)
    case Failure(_) => None
    case Success(claims) =>
      if "nonce" in claims && claims["nonce"].Str? && claims["nonce"].text != "" then Some(claims["nonce"].text) else None
  }

  /** A callback goes on to the store exactly when its token verifies and carries a nonempty text as its nonce. */
  lemma NonceOfIff(codec: Codec, key: string, token: string, now: real, nonce: string)
    ensures NonceOf(codec, key, token, now) == Some(nonce) <==>
            && nonce != "" && VerifyToken(codec, key, token, now).Success?
            && var claims := VerifyToken(codec, key, token, now).value;
               "nonce" in claims && claims["nonce"] == Str(nonce)
  {
  }

  /** A callback against the in-process store; it is honoured when its nonce is new. */
  method HandleCallback(codec: Codec, key: string, token: string, ttl: real, now: real, store: InMemoryNonceStore)
    returns (honoured: bool)
    modifies store
    ensures honoured <==>
      NonceOf(codec, key, token, now).Some? && DictAccepts(old(store.seen), Use(NonceOf(codec, key, token, now).value, ttl, now))
    ensures store.seen == match NonceOf(codec, key, token, now)
                          case None => old(store.seen)
                          case Some(nonce) => DictAfter(old(store.seen), Use(nonce, ttl, now))
  {
    var nonce := NonceOf(codec, key, token, now);
    if nonce.None? {
      return false;
    }
    honoured := store.Consume(nonce.value, ttl, now);
  }

  // ---- Attempts to consume: a callback without a valid token makes none ------------------------------

  type Attempt = Option<Use>

  /** The calls of consume that a sequence of attempts makes. */
  ghost function Calls(attempts: seq<Attempt>): seq<Use> {
    if attempts == [] then []
    else Calls(Init(attempts)) + (if Last(attempts).Some? then [Last(attempts).value] else [])
  }

  ghost predicate DictHonours(attempts: seq<Attempt>, i: nat)
    requires i < |attempts|
  {
    attempts[i].Some? && DictAccepts(DictState(Calls(attempts[..i])), attempts[i].value)
  }

  ghost predicate RedisHonours(attempts: seq<Attempt>, i: nat)
    requires i < |attempts|
  {
    attempts[i].Some? && RedisAccepts(RedisState(Calls(attempts[..i])), attempts[i].value)
  }

  /** The log of what was accepted among the first j attempts. */
  ghost function LogBefore(attempts: seq<Attempt>, j: nat): seq<Mark>
    requires j <= |attempts|
  {
    if j == 0 then []
    else
      var log := LogBefore(attempts, j - 1);
      if attempts[j - 1].Some? then LogAfter(log, attempts[j - 1].value) else log
  }

  ghost predicate LogHonours(attempts: seq<Attempt>, i: nat)
    requires i < |attempts|
  {
    attempts[i].Some? && !Refused(LogBefore(attempts, i), attempts[i].value.nonce, attempts[i].value.now)
  }

  /** Attempts are made at times that never run back. */
  ghost predicate InOrder(attempts: seq<Attempt>) {
    forall i, j | 0 <= i < j < |attempts| && attempts[i].Some? && attempts[j].Some? ::
      attempts[i].value.now <= attempts[j].value.now
  }

  lemma {:induction false} CallsAreAttempts(attempts: seq<Attempt>)
    ensures forall u | u in Calls(attempts) :: Some(u) in attempts
  {
    if attempts != [] {
      CallsAreAttempts(Init(attempts));
      InitLast(attempts);
    }
  }

  lemma {:induction false} CallsOrdered(attempts: seq<Attempt>)
    requires InOrder(attempts)
    ensures Ordered(Calls(attempts))
  {
    if attempts != [] {
      var before := Init(attempts);
      CallsOrdered(before);
      CallsAreAttempts(before);
      assert forall i | 0 <= i < |Calls(before)| :: Calls(before)[i] in Calls(before);
      assert forall a | a in before :: exists i :: 0 <= i < |before| && before[i] == a && attempts[i] == a;
    }
  }

  lemma {:induction false} LogOfCalls(attempts: seq<Attempt>, j: nat)
    requires j <= |attempts|
    ensures LogState(Calls(attempts[..j])) == LogBefore(attempts, j)
  {
    if j > 0 {
      var before := Calls(attempts[..j - 1]);
      LogOfCalls(attempts, j - 1);
      assert Init(attempts[..j]) == attempts[..j - 1];
      if attempts[j - 1].Some? {
        assert Init(before + [attempts[j - 1].value]) == before;
      } else {
        assert before + [] == before;
      }
    }
  }

  /** Both stores honour exactly the attempts that a log that forgets nothing would. */
  lemma StoresHonourAlike(attempts: seq<Attempt>, i: nat)
    requires InOrder(attempts) && i < |attempts|
    ensures DictHonours(attempts, i) <==> LogHonours(attempts, i)
    ensures RedisHonours(attempts, i) <==> LogHonours(attempts, i)
  {
    if attempts[i].Some? {
      CallsOrdered(attempts[..i + 1]);
      assert Init(attempts[..i + 1]) == attempts[..i];
      SameAnswers(Calls(attempts[..i]), attempts[i].value);
      LogOfCalls(attempts, i);
    }
  }

  /** An accepted nonce stays logged. */
  lemma {:induction false} HonouredIsLogged(attempts: seq<Attempt>, i: nat, j: nat)
    requires i < j <= |attempts| && LogHonours(attempts, i)
    ensures Mark(attempts[i].value.nonce, attempts[i].value.now + attempts[i].value.ttl) in LogBefore(attempts, j)
    decreases j
  {
    if j - 1 > i { HonouredIsLogged(attempts, i, j - 1); }
  }

  /** A nonce is not honoured again before its mark runs out. */
  lemma HonouredOnce(attempts: seq<Attempt>, i: nat, j: nat)
    requires i < j < |attempts| && LogHonours(attempts, i) && attempts[j].Some?
    requires attempts[i].value.nonce == attempts[j].value.nonce
    requires attempts[j].value.now < attempts[i].value.now + attempts[i].value.ttl
    ensures !LogHonours(attempts, j)
  {
    var log, use := LogBefore(attempts, j), attempts[i].value;
    HonouredIsLogged(attempts, i, j);
    var k :| 0 <= k < |log| && log[k] == Mark(use.nonce, use.now + use.ttl);
    assert log[k].expiry > attempts[j].value.now;
  }

  /** Two attempts on one nonce are both honoured once the mark of the first has run out. */
  lemma HonouredTwice(attempts: seq<Attempt>)
    requires |attempts| == 2 && attempts[0].Some? && attempts[1].Some?
    requires attempts[0].value.now + attempts[0].value.ttl <= attempts[1].value.now
    ensures LogHonours(attempts, 0) && LogHonours(attempts, 1)
  {
    assert LogBefore(attempts, 1) == [Mark(attempts[0].value.nonce, attempts[0].value.now + attempts[0].value.ttl)];
  }

  // ---- One-shot state tokens ----------------------------------------------------------------------

  datatype Callback = Callback(token: string, at: real)

  /** One server: its codec and key, and how long it remembers a nonce. */
  datatype Site = Site(codec: Codec, key: string, ttl: int)

  ghost function AttemptOf(site: Site, cb: Callback): Attempt {
    match NonceOf(site.codec, site.key, cb.token, cb.at)
    case None => None
    case Some(nonce) => Some(Use(nonce, site.ttl as real, cb.at))
  }

  ghost function Attempts(site: Site, cbs: seq<Callback>): seq<Attempt> {
    seq(|cbs|, i requires 0 <= i < |cbs| => AttemptOf(site, cbs[i]))
  }

  /** Callbacks arrive at times that never run back. */
  ghost predicate Timely(cbs: seq<Callback>) {
    forall i, j | 0 <= i < j < |cbs| :: cbs[i].at <= cbs[j].at
  }

  lemma AttemptsInOrder(site: Site, cbs: seq<Callback>)
    requires Timely(cbs)
    ensures InOrder(Attempts(site, cbs))
  {
  }

  /** The site made this token at the given time, with a nonce and expiry of its own; its claims survive JSON. */
  ghost predicate Made(site: Site, token: string, nonce: string, issued: real, lifetime: int, extra: Claims) {
    var claims := Payload(nonce, issued, lifetime, extra);
    && nonce != "" && "nonce" !in extra && "exp" !in extra
    && site.codec.loads(site.codec.dumps(claims)) == Some(claims)
    && token == MakeToken(site.codec, site.key, claims)
  }

  /** A made token yields its nonce up to and including its expiry second. */
  lemma MadeTokenAttempt(site: Site, token: string, nonce: string, issued: real, lifetime: int, extra: Claims, at: real)
    requires Made(site, token, nonce, issued, lifetime, extra)
    ensures AttemptOf(site, Callback(token, at)) ==
            if at.Floor <= (issued + lifetime as real).Floor then Some(Use(nonce, site.ttl as real, at)) else None
  {
    MadeTokenLives(site.codec, site.key, nonce, issued, lifetime, extra, at);
  }

  lemma TokenHonouredOnce(site: Site, token: string, nonce: string, issued: real, lifetime: int, extra: Claims,
                          cbs: seq<Callback>, i: nat, j: nat)
    requires site.ttl >= lifetime + 1 && Made(site, token, nonce, issued, lifetime, extra)
    requires i < j < |cbs| && cbs[i].token == cbs[j].token == token && issued <= cbs[i].at
    ensures !(LogHonours(Attempts(site, cbs), i) && LogHonours(Attempts(site, cbs), j))
  {
    var attempts := Attempts(site, cbs);
    assert cbs[i] == Callback(token, cbs[i].at) && cbs[j] == Callback(token, cbs[j].at);
    MadeTokenAttempt(site, token, nonce, issued, lifetime, extra, cbs[i].at);
    MadeTokenAttempt(site, token, nonce, issued, lifetime, extra, cbs[j].at);
    if LogHonours(attempts, i) && attempts[j].Some? {
      HonouredOnce(attempts, i, j);
    }
  }

  /** However it is presented, no made token is honoured twice by either store. */
  ghost predicate OneShot(lifetime: int, ttl: int) {
    forall site: Site, token, nonce, issued, extra, cbs: seq<Callback>, i: nat, j: nat |
      && site.ttl == ttl && Made(site, token, nonce, issued, lifetime, extra) && Timely(cbs)
      && i < j < |cbs| && cbs[i].token == cbs[j].token == token && issued <= cbs[i].at ::
      && !(DictHonours(Attempts(site, cbs), i) && DictHonours(Attempts(site, cbs), j))
      && !(RedisHonours(Attempts(site, cbs), i) && RedisHonours(Attempts(site, cbs), j))
  }

  /** The failing input at every site: a token presented at issue and again at its expiry. */
  function AtIssueAndExpiry(token: string, issued: real, lifetime: int): seq<Callback> {
    [Callback(token, issued), Callback(token, issued + lifetime as real)]
  }

  /** Where the nonce is remembered no longer than the token lives, either store honours every made token at issue and at expiry. */
  lemma HonouredTwiceAtExpiry(site: Site, token: string, nonce: string, issued: real, lifetime: int, extra: Claims)
    requires 0 < site.ttl <= lifetime && Made(site, token, nonce, issued, lifetime, extra)
    ensures
      var cbs := AtIssueAndExpiry(token, issued, lifetime);
      && Timely(cbs)
      && DictHonours(Attempts(site, cbs), 0) && DictHonours(Attempts(site, cbs), 1)
      && RedisHonours(Attempts(site, cbs), 0) && RedisHonours(Attempts(site, cbs), 1)
  {
    var cbs := AtIssueAndExpiry(token, issued, lifetime);
    MadeTokenAttempt(site, token, nonce, issued, lifetime, extra, issued);
    MadeTokenAttempt(site, token, nonce, issued, lifetime, extra, issued + lifetime as real);
    AttemptsInOrder(site, cbs);
    HonouredTwice(Attempts(site, cbs));
    StoresHonourAlike(Attempts(site, cbs), 0);
    StoresHonourAlike(Attempts(site, cbs), 1);
  }

  /** Tokens can be made: some site carries any one set of claims. */
  lemma SomeSite(lifetime: int, ttl: int) returns (site: Site, token: string)
    ensures site.ttl == ttl && Made(site, token, "n", 0.0, lifetime, map[])
  {
    var claims := Payload("n", 0.0, lifetime, map[]);
    site := Site(Codec(_ => [], _ => Some(claims), (_, _) => []), "key", ttl);
    token := MakeToken(site.codec, site.key, claims);
  }

  /**
   Every token is honoured at most once, however it is presented and by either store, exactly
   when the nonce is remembered for one second longer than the token lives.
   */
  lemma TokensOneShotIff(lifetime: int, ttl: int)
    requires lifetime >= 0 && ttl > 0
    ensures OneShot(lifetime, ttl) <==> ttl >= lifetime + 1
  {
    if ttl >= lifetime + 1 {
      forall site: Site, token, nonce, issued, extra, cbs: seq<Callback>, i: nat, j: nat |
        && site.ttl == ttl && Made(site, token, nonce, issued, lifetime, extra) && Timely(cbs)
        && i < j < |cbs| && cbs[i].token == cbs[j].token == token && issued <= cbs[i].at
        ensures !(DictHonours(Attempts(site, cbs), i) && DictHonours(Attempts(site, cbs), j))
        ensures !(RedisHonours(Attempts(site, cbs), i) && RedisHonours(Attempts(site, cbs), j))
      {
        TokenHonouredOnce(site, token, nonce, issued, lifetime, extra, cbs, i, j);
        AttemptsInOrder(site, cbs);
        StoresHonourAlike(Attempts(site, cbs), i);
        StoresHonourAlike(Attempts(site, cbs), j);
      }
    } else {
      var site, token := SomeSite(lifetime, ttl);
      HonouredTwiceAtExpiry(site, token, "n", 0.0, lifetime, map[]);
      var cbs := AtIssueAndExpiry(token, 0.0, lifetime);
      assert Made(site, token, "n", 0.0, lifetime, map[]) && Timely(cbs) && cbs[0].token == token;
    }
  }

  const TOKEN_LIFETIME := 600
  const NONCE_TTL := 600

  /** The shipped constants fall one second short: every token can be honoured at issue and again in its last second. */
  lemma ShippedConstantsAcceptTwice(site: Site, token: string, nonce: string, issued: real, extra: Claims)
    requires site.ttl == NONCE_TTL && Made(site, token, nonce, issued, TOKEN_LIFETIME, extra)
    ensures NONCE_TTL == TOKEN_LIFETIME == 600
    ensures
      var cbs := [Callback(token, issued), Callback(token, issued + 600.0)];
      && DictHonours(Attempts(site, cbs), 0) && DictHonours(Attempts(site, cbs), 1)
      && RedisHonours(Attempts(site, cbs), 0) && RedisHonours(Attempts(site, cbs), 1)
  {
    HonouredTwiceAtExpiry(site, token, nonce, issued, TOKEN_LIFETIME, extra);
    assert AtIssueAndExpiry(token, issued, TOKEN_LIFETIME) == [Callback(token, issued), Callback(token, issued + 600.0)];
  }
}
