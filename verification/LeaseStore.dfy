/** A Redis-like key-value store with expiry, driven by one clock. */
module LeaseStore {
  import opened Collections

  datatype Entry = Entry(value: string, expiresAt: real)

  type Store = map<string, Entry>

  /** An entry is visible strictly before its expiry. */
  predicate Alive(store: Store, key: string, now: real) {
    key in store && now < store[key].expiresAt
  }

  function Get(store: Store, key: string, now: real): Option<string> {
    if Alive(store, key, now) then Some(store[key].value) else None
  }

  /** SET key value NX EX ttl: writes only when no visible entry exists. */
  function SetNxEx(store: Store, key: string, value: string, ttl: real, now: real): Store {
    if Alive(store, key, now) then store else store[key := Entry(value, now + ttl)]
  }

  /** EXPIRE key ttl: a no-op on a missing or expired key. */
  function Expire(store: Store, key: string, ttl: real, now: real): Store {
    if Alive(store, key, now) then store[key := store[key].(expiresAt := now + ttl)] else store
  }

  function Delete(store: Store, key: string): Store {
    store - {key}
  }

  /**
   How a command fares: answered; lost before the server saw it; or carried out with its
   answer lost. The client sees an exception in the last two cases and cannot tell them apart.
   */
  datatype Reply = Answered | Unsent | AnswerLost

  /** The shared server the clients talk to. A method returns nothing where the client sees an exception. */
  class Server {
    var now: real
    var entries: Store

    constructor (now: real)
      ensures this.now == now && entries == map[]
    {
      this.now := now;
      entries := map[];
    }

    method Read(key: string, reply: Reply) returns (value: Option<Option<string>>)
      ensures value == if reply.Answered? then Some(Get(entries, key, now)) else None
    {
      value := if reply.Answered? then Some(Get(entries, key, now)) else None;
    }

    method Set(key: string, value: string, ttl: real, reply: Reply) returns (written: Option<bool>)
      modifies this`entries
      ensures entries == if reply.Unsent? then old(entries) else SetNxEx(old(entries), key, value, ttl, now)
      ensures written == if reply.Answered? then Some(!Alive(old(entries), key, now)) else None
    {
      written := if reply.Answered? then Some(!Alive(entries, key, now)) else None;
      if !reply.Unsent? && !Alive(entries, key, now) {
        entries := entries[key := Entry(value, now + ttl)];
      }
    }

    method Touch(key: string, ttl: real, reply: Reply) returns (done: bool)
      modifies this`entries
      ensures entries == if reply.Unsent? then old(entries) else Expire(old(entries), key, ttl, now)
      ensures done <==> reply.Answered?
    {
      if !reply.Unsent? && Alive(entries, key, now) {
        entries := entries[key := entries[key].(expiresAt := now + ttl)];
      }
      done := reply.Answered?;
    }

    method Remove(key: string, reply: Reply) returns (done: bool)
      modifies this`entries
      ensures entries == if reply.Unsent? then old(entries) else Delete(old(entries), key)
      ensures done <==> reply.Answered?
    {
      if !reply.Unsent? {
        entries := entries - {key};
      }
      done := reply.Answered?;
    }
  }
}
