/** cache/lock.go: the operations of one handle, as seen by the process that holds it. */
module Lock {
  import opened Options
  import opened Redis

  datatype Error = NilClient | EmptyKey | BadTtl | NoRandom | Transport | NotOwned | NotAcquired | Cancelled

  const DEFAULT_INTERVAL := 100 * MILLISECOND

  class Handle {
    const client: Server
    const key: string
    const token: string

    constructor (client: Server, key: string, token: string)
      ensures this.client == client && this.key == key && this.token == token
    {
      this.client, this.key, this.token := client, key, token;
    }

    /** True means: at that instant the key held our token, and from then on it either lives
        exactly the truncated ttl or, for a ttl below one millisecond, is gone. */
    method Refresh(ttl: int, d: Delivery) returns (ok: bool, err: Option<Error>)
      modifies client
      ensures ttl <= 0 ==> !ok && err == Some(BadTtl) && client.store == old(client.store)
      ensures 0 < ttl ==> (err.None? <==> d.Answered?)
      ensures 0 < ttl && err.None? ==> ok == old(client.store).Stores(key, token)
      ensures ok ==> (client.store.Stores(key, token) <==> MILLISECOND <= ttl)
      ensures ok && MILLISECOND <= ttl ==>
                client.store.entries[key] == Entry(token, Some(old(client.store).now + Truncated(ttl)))
      ensures forall k :: k != key || !old(client.store).Stores(key, token) ==>
                client.store.Read(k) == old(client.store).Read(k)
      ensures client.store.now == old(client.store).now
    {
      if ttl <= 0 {
        return false, Some(BadTtl);
      }
      ghost var command := ExpireIf(key, token, Truncated(ttl));
      ServeTouchesOneKey(client.store, command);
      var r := client.Call(ExpireIf(key, token, Truncated(ttl)), d);
      if r.None? {
        return false, Some(Transport);
      }
      return r.value.ok, None;
    }

    /** No error means our token was there and the key is now free. */
    method Unlock(d: Delivery) returns (err: Option<Error>)
      modifies client
      ensures err.None? <==> d.Answered? && old(client.store).Stores(key, token)
      ensures err == Some(NotOwned) <==> d.Answered? && !old(client.store).Stores(key, token)
      ensures err.None? ==> !client.store.Live(key)
      ensures forall k :: k != key || !old(client.store).Stores(key, token) ==>
                client.store.Read(k) == old(client.store).Read(k)
      ensures client.store.now == old(client.store).now
    {
      ServeTouchesOneKey(client.store, DelIf(key, token));
      var r := client.Call(DelIf(key, token), d);
      if r.None? {
        return Some(Transport);
      }
      if !r.value.ok {
        return Some(NotOwned);
      }
      return None;
    }
  }

  /** `token` is what randomToken yields, None when the random source fails. */
  method TryLock(client: Server?, key: string, ttl: int, token: Option<string>, d: Delivery)
    returns (l: Handle?, ok: bool, err: Option<Error>)
    modifies client
    ensures ok <==> l != null
    ensures ok ==> err.None?
    ensures err == Some(NilClient) <==> client == null
    ensures client != null ==>
              && (err == Some(EmptyKey) <==> key == "")
              && (err == Some(BadTtl) <==> key != "" && ttl <= 0)
              && (err == Some(NoRandom) <==> key != "" && 0 < ttl && token.None?)
              && (err.Some? && err != Some(Transport) ==> key == "" || ttl <= 0 || token.None?)
    ensures client != null && (key == "" || ttl <= 0 || token.None?) ==>
              err.Some? && client.store == old(client.store)
    ensures client != null && key != "" && 0 < ttl && token.Some? ==>
              && (err.None? <==> d.Answered?)
              && (ok <==> d.Answered? && !old(client.store).Live(key))
              && (ok ==> l.client == client && l.key == key && l.token == token.value)
              && (err.None? && !ok ==> client.store == old(client.store))
              && (client.store == old(client.store)
                  || (!old(client.store).Live(key)
                      && client.store == old(client.store).(entries := old(client.store).entries
                           [key := Entry(token.value, Some(old(client.store).now + Lifetime(ttl)))])))
              && (ok ==> client.store.Stores(key, token.value))
  {
    if client == null {
      return null, false, Some(NilClient);
    }
    if key == "" {
      return null, false, Some(EmptyKey);
    }
    if ttl <= 0 {
      return null, false, Some(BadTtl);
    }
    if token.None? {
      return null, false, Some(NoRandom);
    }
    var r := client.Call(SetNX(key, token.value, ttl), d);
    if r.None? || !r.value.ok {
      return null, false, if r.None? then Some(Transport) else None;
    }
    l := new Handle(client, key, token.value);
    return l, true, None;
  }

  ghost predicate NotOurs(v: string, tokens: nat -> Option<string>) {
    forall i :: tokens(i) != Some(v)
  }

  ghost predicate Unused(s: Store, tokens: nat -> Option<string>) {
    forall k :: k in s.entries ==> NotOurs(s.entries[k].value, tokens)
  }

  function EffectiveInterval(interval: int): (pause: int)
    ensures 0 < pause && (pause == interval || (interval <= 0 && pause == 100 * MILLISECOND))
  {
    if interval <= 0 then DEFAULT_INTERVAL else interval
  }

  /** What everybody else makes of the store meanwhile: while request i is on its way there, while
      its answer is on the way back, and while the timer after it runs. */
  datatype World = World(there: (nat, Store) -> Store, back: (nat, Store) -> Store, timer: (nat, Store) -> Store)

  /** Time does not go back, a timer runs for at least its interval, and nobody can store a token
      that only we know. */
  ghost predicate Others(w: World, pause: int, tokens: nat -> Option<string>) {
    && (forall i: nat, s: Store :: s.now <= w.there(i, s).now && s.now <= w.back(i, s).now)
    && (forall i: nat, s: Store :: s.now + pause <= w.timer(i, s).now)
    && (forall i: nat, s: Store :: Unused(s, tokens) ==>
          Unused(w.there(i, s), tokens) && Unused(w.back(i, s), tokens) && Unused(w.timer(i, s), tokens))
  }

  /** What a call of LockWithWait meets: the token attempt i gets from the random source, the fate of
      its request, and whether the context is cancelled before the timer after it fires. */
  datatype Course = Course(tokens: nat -> Option<string>, fates: nat -> Delivery, cancelled: nat -> bool)

  /** Attempt i was refused, and there was time left and no cancellation: the next one met the store
      as the timer and its own way there left it. */
  predicate WentOn(key: string, start: int, wait: int, c: Course, w: World, met: seq<Store>, i: nat)
    requires i + 1 < |met|
  {
    var heard := w.back(i, met[i]);
    && met[i].Live(key) && c.fates(i).Answered? && !c.cancelled(i)
    && 0 < wait && heard.now <= start + wait
    && met[i + 1] == w.there(i + 1, w.timer(i, heard))
  }

  /** The last attempt was refused in time, and the timer after it has fired. */
  predicate Refused(key: string, deadline: int, c: Course, w: World, met: seq<Store>, now: Store)
    requires met != []
  {
    var n, heard := |met| - 1, w.back(|met| - 1, met[|met| - 1]);
    met[n].Live(key) && c.fates(n).Answered? && !c.cancelled(n) && heard.now <= deadline && now == w.timer(n, heard)
  }

  /** How far the loop has come: nothing was sent yet, or every attempt was refused in time. */
  ghost predicate Waiting(key: string, start: int, wait: int, c: Course, w: World, first: Store, met: seq<Store>,
                          now: Store) {
    && AllWentOn(key, start, wait, c, w, met)
    && if met == [] then now == first
       else met[0] == w.there(0, first) && 0 < wait && Refused(key, start + wait, c, w, met, now)
  }

  ghost predicate AllWentOn(key: string, start: int, wait: int, c: Course, w: World, met: seq<Store>) {
    forall i :: 0 <= i < |met| - 1 ==> WentOn(key, start, wait, c, w, met, i)
  }

  lemma OneMoreMet(key: string, start: int, wait: int, c: Course, w: World, first: Store, met: seq<Store>, now: Store)
    requires Waiting(key, start, wait, c, w, first, met, now)
    ensures var next := met + [w.there(|met|, now)];
      AllWentOn(key, start, wait, c, w, next) && next[0] == w.there(0, first)
  {
    var next := met + [w.there(|met|, now)];
    forall i | 0 <= i < |met| ensures WentOn(key, start, wait, c, w, next, i) {
      if i < |met| - 1 { assert WentOn(key, start, wait, c, w, met, i); }
    }
  }

  /** What attempt n has to say about the store its request met. */
  ghost predicate Said(key: string, ttl: int, c: Course, n: nat, met: Store, ok: bool, err: Option<Error>) {
    if key == "" then !ok && err == Some(EmptyKey)
    else if ttl <= 0 then !ok && err == Some(BadTtl)
    else if c.tokens(n).None? then !ok && err == Some(NoRandom)
    else if !c.fates(n).Answered? then !ok && err == Some(Transport)
    else err.None? && (ok <==> !met.Live(key))
  }

  ghost predicate Locks(key: string, ttl: int, c: Course, w: World, n: nat, met: Store, l: Handle, now: Store) {
    && 0 < ttl && l.key == key && c.tokens(n) == Some(l.token)
    && now == w.back(n, Granted(met, key, l.token, ttl))
  }

  /** TryLock with the time its request and its answer take. */
  method Attempt(client: Server, key: string, ttl: int, n: nat, c: Course, w: World, ghost pause: int)
    returns (l: Handle?, ok: bool, err: Option<Error>, ghost met: Store)
    requires Others(w, pause, c.tokens) && Unused(client.store, c.tokens)
    modifies client
    ensures met == w.there(n, old(client.store)) && Said(key, ttl, c, n, met, ok, err)
    ensures ok <==> l != null
    ensures ok ==> l.client == client && Locks(key, ttl, c, w, n, met, l, client.store)
    ensures !ok && err != Some(Transport) ==> client.store == w.back(n, met) && Unused(client.store, c.tokens)
    ensures Unused(met, c.tokens) && old(client.store.now) <= client.store.now
  {
    client.Elapse(w.there(n, client.store));
    met := client.store;
    l, ok, err := TryLock(client, key, ttl, c.tokens(n), c.fates(n));
    client.Elapse(w.back(n, client.store));
  }

  /** The timer after attempt n. */
  method Pause(client: Server, n: nat, c: Course, w: World, ghost pause: int)
    requires Others(w, pause, c.tokens) && Unused(client.store, c.tokens) && 0 <= pause
    modifies client
    ensures client.store == w.timer(n, old(client.store)) && Unused(client.store, c.tokens)
    ensures old(client.store.now) + pause <= client.store.now
  {
    client.Elapse(w.timer(n, client.store));
  }

  /** The lock is stored when it is granted, under its token, at its key and nowhere else. */
  lemma LockStored(key: string, ttl: int, c: Course, met: Store, token: string)
    requires Unused(met, c.tokens) && 0 < ttl && exists n :: c.tokens(n) == Some(token)
    ensures var granted := Granted(met, key, token, ttl);
      && granted.Stores(key, token)
      && forall k :: k != key && k in granted.entries ==> granted.entries[k].value != token
  {
  }

  /** What LockWithWait makes of its last attempt: a lock if the key was free, an error of TryLock, or,
      refused, giving up after the deadline or on cancellation. */
  ghost predicate Decided(key: string, ttl: int, start: int, wait: int, c: Course, w: World, n: nat, met: Store,
                          l: Handle?, err: Option<Error>, now: Store) {
    && (l != null <==> err.None?) && (l != null ==> Locks(key, ttl, c, w, n, met, l, now))
    && Said(key, ttl, c, n, met, l != null, if err == Some(NotAcquired) || err == Some(Cancelled) then None else err)
    && (err == Some(NotAcquired) ==> wait <= 0 || start + wait < now.now)
    && (err == Some(Cancelled) ==> 0 < wait && now.now <= start + wait && c.cancelled(n))
    && (err.Some? && err != Some(Transport) ==> Unused(now, c.tokens))
  }

  /** One round of the loop: an attempt, and the timer if it goes on. */
  method Round(client: Server, key: string, ttl: int, wait: int, start: int, pause: int, attempts: nat,
               c: Course, w: World, ghost first: Store, ghost met: seq<Store>)
    returns (over: bool, l: Handle?, err: Option<Error>, ghost next: seq<Store>)
    requires Others(w, pause, c.tokens) && Unused(client.store, c.tokens) && attempts == |met| && 0 < pause
    requires Paced(attempts, pause, wait, start, client.store.now)
    requires Waiting(key, start, wait, c, w, first, met, client.store)
    modifies client
    ensures |next| == attempts + 1 && AllWentOn(key, start, wait, c, w, next) && next[0] == w.there(0, first)
    ensures over ==> Decided(key, ttl, start, wait, c, w, attempts, next[attempts], l, err, client.store)
    ensures over && l != null ==> l.client == client
    ensures Unused(next[attempts], c.tokens)
    ensures !over ==> 0 < wait && Unused(client.store, c.tokens)
                      && Paced(attempts + 1, pause, wait, start, client.store.now)
                      && Waiting(key, start, wait, c, w, first, next, client.store)
  {
    var deadline := start + wait;
    PacedBound(attempts, pause, wait, start, client.store.now);
    OneMoreMet(key, start, wait, c, w, first, met, client.store);
    var ok: bool;
    ghost var here: Store;
    l, ok, err, here := Attempt(client, key, ttl, attempts, c, w, pause);
    next := met + [here];
    if err.Some? || ok {
      return true, l, err, next;
    }
    if wait <= 0 || deadline < client.store.now {
      return true, null, Some(NotAcquired), next;
    }
    if c.cancelled(attempts) {
      return true, null, Some(Cancelled), next;
    }
    ghost var heard := client.store.now;
    Pause(client, attempts, c, w, pause);
    OnePauseMore(attempts, pause, wait, start, heard, client.store.now);
    over := false;
  }

  /** `met` are the stores the requests meet, one for each attempt: at least one, and never more than
      fit into the wait; every attempt but the last was refused in time, and the last one decides. */
  method LockWithWait(client: Server, key: string, ttl: int, wait: int, interval: int, c: Course, w: World)
    returns (l: Handle?, err: Option<Error>, ghost met: seq<Store>)
    requires Others(w, EffectiveInterval(interval), c.tokens)
    requires Unused(client.store, c.tokens)
    modifies client
    ensures 1 <= |met| && (wait <= 0 ==> |met| == 1)
    ensures 0 < wait ==> |met| <= wait / EffectiveInterval(interval) + 2
    ensures met[0] == w.there(0, old(client.store)) && AllWentOn(key, old(client.store.now), wait, c, w, met)
    ensures Decided(key, ttl, old(client.store.now), wait, c, w, |met| - 1, met[|met| - 1], l, err, client.store)
    ensures l != null ==> l.client == client
    // It gives up only past the deadline, and on a key that was still held.
    ensures err == Some(NotAcquired) ==>
              met[|met| - 1].Live(key) && (wait <= 0 || old(client.store.now) + wait < client.store.now)
    ensures Unused(met[|met| - 1], c.tokens)
  {
    var start := client.store.now;
    var pause := EffectiveInterval(interval);
    var attempts := 0;
    met := [];
    while true
      invariant Unused(client.store, c.tokens) && attempts == |met|
      invariant Paced(attempts, pause, wait, start, client.store.now)
      invariant Waiting(key, start, wait, c, w, old(client.store), met, client.store)
      decreases wait / pause + 2 - attempts
    {
      PacedBound(attempts, pause, wait, start, client.store.now);
      var over: bool;
      over, l, err, met := Round(client, key, ttl, wait, start, pause, attempts, c, w, old(client.store), met);
      if over {
        return l, err, met;
      }
      attempts := attempts + 1;
    }
  }

  /** A store with a new lock in it. */
  function Granted(s: Store, key: string, token: string, ttl: int): Store
    requires 0 < ttl
  {
    s.(entries := s.entries[key := Entry(token, Some(s.now + Lifetime(ttl)))])
  }

  /** That many timers have run, and only within the wait. */
  predicate Paced(n: nat, pause: int, wait: int, start: int, now: int) {
    start + n * pause <= now && (0 < n ==> 0 < wait && (n - 1) * pause <= wait)
  }

  lemma Scale(a: int, b: int, p: int)
    requires a <= b && 0 <= p
    ensures a * p <= b * p
  {
  }

  lemma OnePauseMore(n: nat, pause: int, wait: int, start: int, heard: int, now: int)
    requires start + n * pause <= heard <= start + wait && heard + pause <= now && 0 < wait
    ensures Paced(n + 1, pause, wait, start, now)
  {
    assert (n + 1) * pause == n * pause + pause;
  }

  lemma PacedBound(n: nat, pause: int, wait: int, start: int, now: int)
    requires 0 < pause && Paced(n, pause, wait, start, now)
    ensures start <= now && start + n * pause <= now && (0 < n ==> 0 < wait && n - 1 <= wait / pause)
  {
    Scale(0, n, pause);
    if 0 < n && wait / pause < n - 1 {
      Scale(wait / pause + 1, n - 1, pause);
    }
  }
}
