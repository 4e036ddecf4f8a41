/**
 One expiring key-value store, shared by the lock, the cache and the session models.

 Time is an integer number of nanoseconds, as in Go's time.Duration.  Every command is one
 atomic step; what go-redis and Redis themselves do is reduced to `Serve`.
 */
module Redis {
  import opened Options

  const MILLISECOND := 1_000_000

  /** `expiry` is absolute; an entry is gone from that instant on.  None never expires. */
  datatype Entry = Entry(value: string, expiry: Option<int>)

  datatype Store = Store(now: int, entries: map<string, Entry>) {
    predicate Live(key: string) {
      key in entries && (entries[key].expiry.Some? ==> now < entries[key].expiry.value)
    }

    function Read(key: string): Option<string> {
      if Live(key) then Some(entries[key].value) else None
    }

    predicate Stores(key: string, value: string) {
      Read(key) == Some(value)
    }
  }

  /** A positive expiration is sent in whole milliseconds, and never as less than one. */
  function Lifetime(ttl: int): int
    requires 0 < ttl
  {
    (if ttl < MILLISECOND then 1 else ttl / MILLISECOND) * MILLISECOND
  }

  /** What is left of a duration after Duration.Milliseconds. */
  function Truncated(ttl: int): int
    requires 0 < ttl
  {
    ttl / MILLISECOND * MILLISECOND
  }

  /** Both are whole milliseconds, and less than one away from the ttl; only a ttl below one
      millisecond makes a difference, of which the first makes one and the second none. */
  lemma Rounding(ttl: int)
    requires 0 < ttl
    ensures Lifetime(ttl) % MILLISECOND == 0 && Truncated(ttl) % MILLISECOND == 0
    ensures ttl - MILLISECOND < Truncated(ttl) <= ttl && ttl - MILLISECOND < Lifetime(ttl) < ttl + MILLISECOND
    ensures Truncated(ttl) <= Lifetime(ttl) && MILLISECOND <= Lifetime(ttl)
    ensures Truncated(ttl) == Lifetime(ttl) <==> MILLISECOND <= ttl
  {
  }

  function ExpiryAt(now: int, ttl: int): Option<int> {
    if 0 < ttl then Some(now + Lifetime(ttl)) else None
  }

  /** The ttl of one nanosecond below zero that asks SET to leave the expiry as it is. */
  const KEEP_TTL := -1

  function ExpiryOfSet(s: Store, key: string, ttl: int): Option<int> {
    if ttl != KEEP_TTL then ExpiryAt(s.now, ttl) else if s.Live(key) then s.entries[key].expiry else None
  }

  datatype Command =
    | SetNX(key: string, value: string, ttl: int)
    | Set(key: string, value: string, ttl: int)
    | Get(key: string)
    | GetDel(key: string)
    | Exists(key: string)
    | ExpireIf(key: string, token: string, span: int)  // the refresh script
    | DelIf(key: string, token: string)                // the unlock script

  datatype Reply = Flag(ok: bool) | Value(found: Option<string>) | Done

  function Serve(s: Store, c: Command): (Store, Reply) {
    match c
    case SetNX(k, v, ttl) =>
      if s.Live(k) then (s, Flag(false))
      else (s.(entries := s.entries[k := Entry(v, ExpiryAt(s.now, ttl))]), Flag(true))
    case Set(k, v, ttl) =>
      (s.(entries := s.entries[k := Entry(v, ExpiryOfSet(s, k, ttl))]), Done)
    case Get(k) =>
      (s, Value(s.Read(k)))
    case GetDel(k) =>
      (if s.Live(k) then s.(entries := s.entries - {k}) else s, Value(s.Read(k)))
    case Exists(k) =>
      (s, Flag(s.Live(k)))
    case ExpireIf(k, token, span) =>
      if !s.Stores(k, token) then (s, Flag(false))
      // PEXPIRE with a span that is not positive deletes the key, and still answers 1.
      else if span <= 0 then (s.(entries := s.entries - {k}), Flag(true))
      else (s.(entries := s.entries[k := Entry(token, Some(s.now + span))]), Flag(true))
    case DelIf(k, token) =>
      if !s.Stores(k, token) then (s, Flag(false))
      else (s.(entries := s.entries - {k}), Flag(true))
  }

  /** How long a value that was set can be read: for a ttl that is positive, as long as that; for one
      that is not, for good; and for the ttl that keeps the expiry, as long as what was there, or for
      good if nothing was. */
  lemma SetLives(s: Store, k: string, v: string, ttl: int, d: nat)
    ensures var later := Serve(s, Set(k, v, ttl)).0.(now := s.now + d);
      && (0 < ttl ==> (later.Read(k) == if d < Lifetime(ttl) then Some(v) else None))
      && (ttl <= 0 && ttl != KEEP_TTL ==> later.Read(k) == Some(v))
      && (ttl == KEEP_TTL && !s.Live(k) ==> later.Read(k) == Some(v))
      && (ttl == KEEP_TTL && s.Live(k) ==> (later.Live(k) <==> s.(now := s.now + d).Live(k)))
  {
  }

  /** A command changes no key but its own, and never the clock. */
  lemma ServeTouchesOneKey(s: Store, c: Command)
    ensures Serve(s, c).0.now == s.now
    ensures Serve(s, c).0.entries - {c.key} == s.entries - {c.key}
    ensures forall k :: k != c.key ==> Serve(s, c).0.Read(k) == s.Read(k)
  {
  }

  /** What the network does with one request. */
  datatype Delivery = Answered | RequestLost | ReplyLost

  class Server {
    var store: Store

    constructor (store: Store)
      ensures this.store == store
    {
      this.store := store;
    }

    /** One round trip.  None stands for a client-side error, which may hide an applied command. */
    method Call(c: Command, d: Delivery) returns (r: Option<Reply>)
      modifies this
      ensures store == if d.RequestLost? then old(store) else Serve(old(store), c).0
      ensures r == if d.Answered? then Some(Serve(old(store), c).1) else None
    {
      if d.RequestLost? {
        return None;
      }
      var (next, reply) := Serve(store, c);
      store := next;
      r := if d.Answered? then Some(reply) else None;
    }

    /** Time passes while everybody else runs; `next` is what they leave behind. */
    method Elapse(next: Store)
      requires store.now <= next.now
      modifies this
      ensures store == next
    {
      store := next;
    }
  }
}
