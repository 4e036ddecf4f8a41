/**
 cache/lock.go as a protocol: any number of processes, requests that are executed late or never,
 replies that are late or lost.

 A handle is named by its token, which only the caller of TryLock knows.  A process can only
 count on the lock as far as what it has sent and received allows.  Its *claims* are the grants
 (its TryLock and its Refreshes) that may be the last one Redis executed.  The last one was
 executed no earlier than it was SENT, and no earlier than any grant with a positive answer was
 sent; the lease of a claim runs from the later of the two, and the handle is held while every
 claim's lease runs.
 */
module LockProtocol {
  import opened Options
  import opened Redis

  datatype Request =
    | Acquire(key: string, token: string, sent: int, ttl: int)
    | Extend(key: string, token: string, sent: int, ttl: int, settled: set<nat>)
    | Release(key: string, token: string, sent: int)
  {
    /** The arguments TryLock, Refresh and Unlock let through. */
    predicate WellFormed() {
      Release? || 0 < ttl
    }

    function Command(): Redis.Command
      requires WellFormed()
    {
      match this
      case Acquire(k, t, _, ttl) => SetNX(k, t, ttl)
      case Extend(k, t, _, ttl, _) => ExpireIf(k, t, Truncated(ttl))
      case Release(k, t, _) => DelIf(k, t)
    }

    /** How long the grant lasts once executed. */
    function Span(): int
      requires WellFormed() && !Release?
    {
      if Acquire? then Lifetime(ttl) else Truncated(ttl)
    }

    function LeaseEnd(): int
      requires WellFormed() && !Release?
    {
      sent + Span()
    }
  }

  /** What the owner of a handle knows: `claims` as above, `answered` the grants it has had a
      positive reply to, `floor` the latest time one of those was sent, `open` until it sends
      Unlock. */
  datatype Holder = Holder(key: string, open: bool, claims: set<nat>, answered: set<nat>, floor: int)

  /** `executed`, `last` (the latest grant Redis executed for a token) and `since` (when it did)
      are history. */
  datatype State = State(
    store: Store,
    used: set<string>,
    requests: map<nat, Request>,
    waiting: set<nat>,
    replies: map<nat, bool>,
    holders: map<string, Holder>,
    executed: set<nat>,
    last: map<string, nat>,
    since: map<string, int>)

  datatype Event =
    | Tick(d: nat)
    | SendAcquire(id: nat, key: string, token: string, ttl: int)
    | SendExtend(id: nat, token: string, ttl: int)
    | SendRelease(id: nat, token: string)
    | Execute(id: nat)
    | LoseRequest(id: nat)
    | Receive(id: nat)
    | LoseReply(id: nat)

  predicate Enabled(s: State, e: Event) {
    match e
    case Tick(_) => true
    case SendAcquire(id, key, token, ttl) => id !in s.requests && token !in s.used && 0 < ttl
    case SendExtend(id, token, ttl) => id !in s.requests && token in s.holders && 0 < ttl
    case SendRelease(id, token) => id !in s.requests && token in s.holders
    case Execute(id) => id in s.waiting && id in s.requests && s.requests[id].WellFormed()
    case LoseRequest(id) => id in s.waiting
    case Receive(id) => id in s.replies && id in s.requests
    case LoseReply(id) => id in s.replies
  }

  function Send(s: State, id: nat, r: Request): State {
    s.(requests := s.requests[id := r], waiting := s.waiting + {id})
  }

  /** Does executing this request succeed now: the key is free, or still carries the token. */
  predicate Succeeds(s: State, r: Request) {
    if r.Acquire? then !s.store.Live(r.key) else s.store.Stores(r.key, r.token)
  }

  function Executed(s: State, id: nat): State
    requires id in s.requests && s.requests[id].WellFormed()
  {
    var r := s.requests[id];
    var (store, reply) := Serve(s.store, r.Command());
    s.(store := store,
       waiting := s.waiting - {id},
       executed := s.executed + {id},
       replies := s.replies[id := reply.ok],
       last := if reply.ok && !r.Release? then s.last[r.token := id] else s.last,
       since := if reply.ok && !r.Release? then s.since[r.token := s.store.now] else s.since)
  }

  /** A process learns the outcome of a request.  A successful Refresh replaces every claim that
      had been answered before that Refresh was sent. */
  function Received(s: State, id: nat): State
    requires id in s.replies && id in s.requests
  {
    var r, done := s.requests[id], s.(replies := s.replies - {id});
    if !s.replies[id] || r.Release? then done
    else if r.Acquire? then
      WithHolder(done, r.token, Holder(r.key, true, {id}, {id}, r.sent))
    else if r.token in s.holders then
      WithHolder(done, r.token, Informed(s.holders[r.token], id, r))
    else done
  }

  function WithHolder(m: State, t: string, h: Holder): State {
    m.(holders := m.holders[t := h])
  }

  function Informed(h: Holder, id: nat, r: Request): Holder
    requires r.Extend?
  {
    h.(claims := h.claims - r.settled, answered := h.answered + {id}, floor := Max(h.floor, r.sent))
  }

  function Max(a: int, b: int): int {
    if a < b then b else a
  }

  function Next(s: State, e: Event): State
    requires Enabled(s, e)
  {
    match e
    case Tick(d) => s.(store := s.store.(now := s.store.now + d))
    case SendAcquire(id, key, token, ttl) =>
      Send(s, id, Acquire(key, token, s.store.now, ttl)).(used := s.used + {token})
    case SendExtend(id, token, ttl) =>
      var h := s.holders[token];
      Send(s, id, Extend(h.key, token, s.store.now, ttl, h.answered))
        .(holders := s.holders[token := h.(claims := h.claims + {id})])
    case SendRelease(id, token) =>
      var h := s.holders[token];
      Send(s, id, Release(h.key, token, s.store.now)).(holders := s.holders[token := h.(open := false)])
    case Execute(id) => Executed(s, id)
    case LoseRequest(id) => s.(waiting := s.waiting - {id})
    case Receive(id) => Received(s, id)
    case LoseReply(id) => s.(replies := s.replies - {id})
  }

  /** Nobody has asked for a lock yet; whatever is stored was put there by used tokens. */
  predicate Initial(s: State) {
    && s.requests == map[] && s.waiting == {} && s.replies == map[] && s.holders == map[]
    && s.executed == {} && s.last == map[] && s.since == map[]
    && forall k :: k in s.store.entries ==> s.store.entries[k].value in s.used
  }

  predicate Valid(s: State, events: seq<Event>)
    decreases |events|
  {
    events == [] || (Enabled(s, events[0]) && Valid(Next(s, events[0]), events[1..]))
  }

  function Run(s: State, events: seq<Event>): State
    requires Valid(s, events)
    decreases |events|
  {
    if events == [] then s else Run(Next(s, events[0]), events[1..])
  }

  ghost predicate Reachable(s: State) {
    exists s0, events :: Initial(s0) && Valid(s0, events) && Run(s0, events) == s
  }

  /** If this claim is the last grant executed, the token is stored until then. */
  function ClaimEnd(h: Holder, r: Request): int
    requires r.WellFormed() && !r.Release?
  {
    Max(r.sent, h.floor) + r.Span()
  }

  /** The lease: every grant that may be the latest one still runs, and Unlock was not sent. */
  predicate Holds(s: State, token: string) {
    && token in s.holders && s.holders[token].open
    && forall id :: id in s.holders[token].claims ==> ClaimRuns(s, token, id, s.store.now + 1)
  }

  /** The claim alone is good for the whole time before `until`. */
  predicate ClaimRuns(s: State, token: string, id: nat, until: int)
    requires token in s.holders
  {
    && id in s.requests && Grant(s.requests[id], token) && s.requests[id].WellFormed()
    && until <= ClaimEnd(s.holders[token], s.requests[id])
  }

  // ---------------------------------------------------------------------------------------------
  // The invariant
  // ---------------------------------------------------------------------------------------------

  predicate Grant(r: Request, token: string) {
    r.token == token && !r.Release?
  }

  ghost predicate RequestsSound(s: State) {
    && s.waiting <= s.requests.Keys && s.executed <= s.requests.Keys && s.waiting !! s.executed
    && s.replies.Keys <= s.executed
    && (forall id :: id in s.requests ==> RequestSound(s, id))
    && (forall i, j :: i in s.requests && j in s.requests ==> SameAcquire(s, i, j))
  }

  ghost predicate RequestSound(s: State, id: nat)
    requires id in s.requests
  {
    var r := s.requests[id];
    && r.WellFormed() && r.sent <= s.store.now && r.token in s.used
    && (r.Extend? ==> r.settled <= s.executed)
    && (!r.Acquire? ==> r.token in s.holders && r.key == s.holders[r.token].key)
    && (r.Release? ==> !s.holders[r.token].open)
  }

  ghost predicate SameAcquire(s: State, i: nat, j: nat)
    requires i in s.requests && j in s.requests
  {
    var a, b := s.requests[i], s.requests[j];
    a.Acquire? && b.Acquire? && a.token == b.token ==> i == j
  }

  /** Where a token may be found, and who has been told about it. */
  ghost predicate TokensSound(s: State) {
    && (forall k :: k in s.store.entries ==> s.store.entries[k].value in s.used)
    && (forall id :: id in s.requests && s.requests[id].Acquire? ==> AcquireSound(s, id))
  }

  ghost predicate AcquireSound(s: State, id: nat)
    requires id in s.requests
  {
    var r := s.requests[id];
    && (forall k :: k in s.store.entries && s.store.entries[k].value == r.token ==>
          id in s.executed && k == r.key)
    && (r.token in s.holders ==> s.holders[r.token].key == r.key && id in s.executed)
    && (r.token in s.last ==> id in s.executed)
    && (id in s.replies ==>
          r.token !in s.holders && (s.replies[id] ==> r.token in s.last && s.last[r.token] == id))
    && (r.token in s.since ==> r.sent <= s.since[r.token])
  }

  /** A handle counts the latest executed grant among its claims. */
  ghost predicate ClaimsSound(s: State) {
    && s.since.Keys == s.last.Keys
    && (forall t :: t in s.holders ==> HolderSound(s, t))
    && (forall t :: t in s.last ==>
          && s.last[t] in s.executed && s.last[t] in s.requests && Grant(s.requests[s.last[t]], t)
          && s.requests[s.last[t]].sent <= s.since[t] <= s.store.now)
    && (forall id :: id in s.requests && s.requests[id].Extend? ==> ExtendSound(s, id))
  }

  ghost predicate HolderSound(s: State, t: string)
    requires t in s.holders
  {
    && t in s.last && s.last[t] in s.holders[t].claims && s.holders[t].answered <= s.executed
    && t in s.since && s.holders[t].floor <= s.since[t]
    && forall k :: k in s.store.entries && s.store.entries[k].value == t ==> k == s.holders[t].key
  }

  ghost predicate ExtendSound(s: State, id: nat)
    requires id in s.requests && s.requests[id].Extend?
  {
    var r := s.requests[id];
    && r.token in s.holders && r.token in s.last && r.token in s.since
    && r.settled <= s.holders[r.token].answered
    && (id !in s.executed || id in s.replies ==> Pending(s.holders[r.token], id))
    && (id in s.replies && s.replies[id] ==> s.last[r.token] !in r.settled && r.sent <= s.since[r.token])
  }

  predicate Pending(h: Holder, id: nat) {
    id in h.claims && id !in h.answered
  }

  ghost predicate Released(s: State, token: string) {
    token in s.holders && !s.holders[token].open
  }

  /** While its latest grant runs, the token sits in the store for at least that long. */
  ghost predicate StoreSound(s: State) {
    forall t :: t in s.last && s.last[t] in s.requests && t in s.since ==>
      GrantStored(s, t, s.requests[s.last[t]], s.since[t])
  }

  ghost predicate GrantStored(s: State, t: string, g: Request, since: int) {
    Grant(g, t) && g.WellFormed() ==>
      || Released(s, t)
      || since + g.Span() <= s.store.now
      || (g.key in s.store.entries && s.store.entries[g.key].value == t
          && s.store.entries[g.key].expiry.Some? && since + g.Span() <= s.store.entries[g.key].expiry.value)
  }

  ghost predicate Inv(s: State) {
    RequestsSound(s) && TokensSound(s) && ClaimsSound(s) && StoreSound(s)
  }

  lemma InitialInv(s: State)
    requires Initial(s)
    ensures Inv(s)
  {
  }

  lemma TickInv(s: State, d: nat)
    requires Inv(s)
    ensures Inv(Next(s, Tick(d)))
  {
    var n := Next(s, Tick(d));
    forall i | i in n.requests ensures RequestSound(n, i) {
      assert RequestSound(s, i);
    }
    forall i, j | i in n.requests && j in n.requests ensures SameAcquire(n, i, j) {
      assert SameAcquire(s, i, j);
    }
    TickTokens(s, n);
    forall t | t in n.last && n.last[t] in n.requests && t in n.since
      ensures GrantStored(n, t, n.requests[n.last[t]], n.since[t])
    {
      assert GrantStored(s, t, s.requests[s.last[t]], s.since[t]);
    }
  }

  lemma TickTokens(s: State, n: State)
    requires TokensSound(s) && ClaimsSound(s) && n == s.(store := s.store.(now := n.store.now))
    requires s.store.now <= n.store.now
    ensures TokensSound(n) && ClaimsSound(n)
  {
    forall i | i in n.requests && n.requests[i].Acquire? ensures AcquireSound(n, i) {
      assert AcquireSound(s, i);
    }
    forall i | i in n.requests && n.requests[i].Extend? ensures ExtendSound(n, i) {
      assert ExtendSound(s, i);
    }
    forall t | t in n.holders ensures HolderSound(n, t) {
      assert HolderSound(s, t);
    }
  }

  /** Nothing a request relies on is taken back. */
  ghost predicate HandlesKept(s: State, n: State) {
    && s.holders.Keys <= n.holders.Keys
    && forall t :: t in s.holders ==>
         n.holders[t].key == s.holders[t].key && (n.holders[t].open ==> s.holders[t].open)
  }

  lemma KeepRequests(s: State, n: State)
    requires RequestsSound(s) && HandlesKept(s, n)
    requires n.requests == s.requests && n.store == s.store && n.used == s.used && n.executed == s.executed
    requires n.waiting <= s.waiting && n.replies.Keys <= s.replies.Keys
    ensures RequestsSound(n)
  {
    forall i | i in n.requests ensures RequestSound(n, i) {
      assert RequestSound(s, i);
    }
    forall i, j | i in n.requests && j in n.requests ensures SameAcquire(n, i, j) {
      assert SameAcquire(s, i, j);
    }
  }

  lemma KeepStore(s: State, n: State)
    requires ClaimsSound(s) && StoreSound(s) && RequestsSound(s)
    requires forall i :: i in s.requests ==> i in n.requests && n.requests[i] == s.requests[i]
    requires n.store == s.store && n.last == s.last && n.since == s.since
    requires forall t :: Released(s, t) ==> Released(n, t)
    ensures StoreSound(n)
  {
    forall t | t in n.last && n.last[t] in n.requests && t in n.since
      ensures GrantStored(n, t, n.requests[n.last[t]], n.since[t])
    {
      assert s.last[t] in s.executed;
      assert GrantStored(s, t, s.requests[s.last[t]], s.since[t]);
    }
  }

  lemma SendRequests(s: State, n: State, id: nat)
    requires RequestsSound(s) && HandlesKept(s, n) && id !in s.requests && id in n.requests
    requires n.requests == s.requests[id := n.requests[id]] && n.waiting == s.waiting + {id}
    requires n.store == s.store && s.used <= n.used && n.executed == s.executed && n.replies == s.replies
    requires RequestSound(n, id) && (n.requests[id].Acquire? ==> n.requests[id].token !in s.used)
    ensures RequestsSound(n)
  {
    forall i | i in n.requests ensures RequestSound(n, i) {
      if i != id { assert RequestSound(s, i); }
    }
    forall i, j | i in n.requests && j in n.requests ensures SameAcquire(n, i, j) {
      if i != id && j != id {
        assert SameAcquire(s, i, j);
      } else if i != id {
        assert RequestSound(s, i);
      } else if j != id {
        assert RequestSound(s, j);
      }
    }
  }

  /** The requests of `s` are those of `n`, which may know of more, and hears no other replies. */
  ghost predicate Extends(s: State, n: State) {
    && (forall i :: i in s.requests ==> i in n.requests && n.requests[i] == s.requests[i])
    && (forall i :: i in n.replies ==> i in s.replies && n.replies[i] == s.replies[i])
    && n.store == s.store && n.last == s.last && n.since == s.since && n.executed == s.executed && s.used <= n.used
  }

  lemma KeepTokens(s: State, n: State)
    requires TokensSound(s) && Extends(s, n) && HandlesKept(s, n)
    requires forall t :: t in n.holders && t !in s.holders ==> KnownAs(n, t)
    requires forall i :: i in n.requests && i !in s.requests && n.requests[i].Acquire? ==> AcquireSound(n, i)
    ensures TokensSound(n)
  {
    forall i | i in n.requests && n.requests[i].Acquire? ensures AcquireSound(n, i) {
      if i in s.requests {
        assert AcquireSound(s, i);
      }
    }
  }

  /** A handle that is new belongs to the TryLock that brought its token, which nobody waits for. */
  ghost predicate KnownAs(n: State, t: string)
    requires t in n.holders
  {
    forall i :: i in n.requests && n.requests[i].Acquire? && n.requests[i].token == t ==>
      n.holders[t].key == n.requests[i].key && i in n.executed && i !in n.replies
  }

  predicate SameKnowledge(h: Holder, n: Holder) {
    h.claims <= n.claims && n.answered == h.answered && n.floor == h.floor
  }

  lemma KeepClaims(s: State, n: State)
    requires ClaimsSound(s) && Extends(s, n) && HandlesKept(s, n)
    requires forall t :: t in s.holders ==> SameKnowledge(s.holders[t], n.holders[t])
    requires forall i :: i in n.requests && i !in s.requests && n.requests[i].Extend? ==> ExtendSound(n, i)
    requires forall t :: t in n.holders && t !in s.holders ==> HolderSound(n, t)
    ensures ClaimsSound(n)
  {
    forall i | i in n.requests && n.requests[i].Extend? ensures ExtendSound(n, i) {
      if i in s.requests {
        assert ExtendSound(s, i);
      }
    }
    forall t | t in n.holders ensures HolderSound(n, t) {
      if t in s.holders {
        assert HolderSound(s, t);
      }
    }
  }

  /** Tokens in play have been used. */
  lemma TokensUsed(s: State)
    requires Inv(s)
    ensures s.holders.Keys <= s.used && s.last.Keys <= s.used
  {
    forall t | t in s.last ensures t in s.used {
      assert s.last[t] in s.requests && RequestSound(s, s.last[t]);
    }
    forall t | t in s.holders ensures t in s.used {
      assert HolderSound(s, t);
    }
  }

  lemma SendAcquireInv(s: State, id: nat, key: string, token: string, ttl: int)
    requires Inv(s) && Enabled(s, SendAcquire(id, key, token, ttl))
    ensures Inv(Next(s, SendAcquire(id, key, token, ttl)))
  {
    var n := Next(s, SendAcquire(id, key, token, ttl));
    TokensUsed(s);
    SendRequests(s, n, id);
    KeepTokens(s, n);
    KeepClaims(s, n);
    KeepStore(s, n);
  }

  /** A request sent on a handle. */
  lemma SentOnHandle(s: State, n: State, id: nat)
    requires Inv(s) && HandlesKept(s, n) && id !in s.requests && id in n.requests && !n.requests[id].Acquire?
    requires n == s.(requests := s.requests[id := n.requests[id]], waiting := s.waiting + {id}, holders := n.holders)
    requires n.holders.Keys == s.holders.Keys
    requires forall t :: t in s.holders ==> SameKnowledge(s.holders[t], n.holders[t])
    requires RequestSound(n, id) && (n.requests[id].Extend? ==> ExtendSound(n, id))
    ensures Inv(n)
  {
    SendRequests(s, n, id);
    KeepTokens(s, n);
    KeepClaims(s, n);
    KeepStore(s, n);
  }

  lemma HandleSound(s: State, token: string)
    requires RequestsSound(s) && ClaimsSound(s) && token in s.holders
    ensures token in s.used && token in s.last && token in s.since && s.holders[token].answered <= s.executed
  {
    assert HolderSound(s, token) && RequestSound(s, s.last[token]);
  }

  lemma SendExtendInv(s: State, id: nat, token: string, ttl: int)
    requires Inv(s) && Enabled(s, SendExtend(id, token, ttl))
    ensures Inv(Next(s, SendExtend(id, token, ttl)))
  {
    HandleSound(s, token);
    SentOnHandle(s, Next(s, SendExtend(id, token, ttl)), id);
  }

  lemma SendReleaseInv(s: State, id: nat, token: string)
    requires Inv(s) && Enabled(s, SendRelease(id, token))
    ensures Inv(Next(s, SendRelease(id, token)))
  {
    HandleSound(s, token);
    SentOnHandle(s, Next(s, SendRelease(id, token)), id);
  }

  lemma ExecuteInv(s: State, id: nat)
    requires Inv(s) && Enabled(s, Execute(id))
    ensures Inv(Executed(s, id))
  {
    ExecuteRequests(s, id);
    ExecuteTokens(s, id);
    ExecuteClaims(s, id);
    ExecuteStore(s, id);
  }

  lemma ExecuteRequests(s: State, id: nat)
    requires RequestsSound(s) && Enabled(s, Execute(id))
    ensures RequestsSound(Executed(s, id))
  {
    var n := Executed(s, id);
    forall i | i in n.requests ensures RequestSound(n, i) {
      assert RequestSound(s, i);
    }
    forall i, j | i in n.requests && j in n.requests ensures SameAcquire(n, i, j) {
      assert SameAcquire(s, i, j);
    }
  }

  /** Only a successful TryLock brings a token into the store, at its own key. */
  lemma ExecuteEntries(s: State, id: nat, k: string)
    requires Enabled(s, Execute(id))
    requires k in Executed(s, id).store.entries
    ensures
      var v, r := Executed(s, id).store.entries[k].value, s.requests[id];
      || (k in s.store.entries && s.store.entries[k].value == v)
      || (r.Acquire? && k == r.key && v == r.token)
  {
  }

  lemma ExecuteTokens(s: State, id: nat)
    requires RequestsSound(s) && TokensSound(s) && Enabled(s, Execute(id))
    ensures TokensSound(Executed(s, id))
  {
    var n := Executed(s, id);
    assert RequestSound(s, id);
    forall k | k in n.store.entries ensures n.store.entries[k].value in n.used {
      ExecuteEntries(s, id, k);
    }
    forall i | i in n.requests && n.requests[i].Acquire? ensures AcquireSound(n, i) {
      assert AcquireSound(s, i) && SameAcquire(s, i, id);
      forall k | k in n.store.entries && n.store.entries[k].value == n.requests[i].token
        ensures i in n.executed && k == n.requests[i].key
      {
        ExecuteEntries(s, id, k);
      }
    }
  }

  lemma ExecuteExtends(s: State, id: nat, i: nat)
    requires RequestsSound(s) && TokensSound(s) && ClaimsSound(s) && Enabled(s, Execute(id))
    requires i in s.requests && s.requests[i].Extend?
    ensures ExtendSound(Executed(s, id), i)
  {
    assert RequestSound(s, id) && ExtendSound(s, i) && RequestSound(s, i);
    if s.requests[id].Acquire? { assert AcquireSound(s, id); }
  }

  /** A Refresh that is executed is a claim; nothing else becomes the latest grant of a handle. */
  lemma ExecuteLast(s: State, id: nat, t: string)
    requires RequestsSound(s) && TokensSound(s) && ClaimsSound(s) && Enabled(s, Execute(id)) && t in s.holders
    ensures var n := Executed(s, id);
      t in n.last && n.last[t] in s.holders[t].claims && t in n.since && s.holders[t].floor <= n.since[t]
  {
    assert RequestSound(s, id) && HolderSound(s, t);
    if s.requests[id].Acquire? { assert AcquireSound(s, id); }
    if s.requests[id].Extend? { assert ExtendSound(s, id); }
  }

  lemma ExecuteHolders(s: State, id: nat, t: string)
    requires RequestsSound(s) && TokensSound(s) && ClaimsSound(s) && Enabled(s, Execute(id)) && t in s.holders
    ensures HolderSound(Executed(s, id), t)
  {
    var n := Executed(s, id);
    ExecuteLast(s, id, t);
    assert HolderSound(s, t);
    forall k | k in n.store.entries && n.store.entries[k].value == t ensures k == s.holders[t].key {
      ExecuteEntries(s, id, k);
      if s.requests[id].Acquire? { assert AcquireSound(s, id); }
    }
  }

  lemma ExecuteLatest(s: State, id: nat, t: string)
    requires ClaimsSound(s) && Enabled(s, Execute(id)) && RequestSound(s, id) && t in Executed(s, id).last
    ensures var n := Executed(s, id);
      && n.last[t] in n.executed && n.last[t] in n.requests && Grant(n.requests[n.last[t]], t)
      && t in n.since && n.requests[n.last[t]].sent <= n.since[t] <= n.store.now
  {
  }

  lemma ExecuteClaims(s: State, id: nat)
    requires RequestsSound(s) && TokensSound(s) && ClaimsSound(s) && Enabled(s, Execute(id))
    ensures ClaimsSound(Executed(s, id))
  {
    var n := Executed(s, id);
    forall i | i in n.requests && n.requests[i].Extend? ensures ExtendSound(n, i) {
      ExecuteExtends(s, id, i);
    }
    forall t | t in n.holders ensures HolderSound(n, t) {
      ExecuteHolders(s, id, t);
    }
    assert RequestSound(s, id);
    forall t | t in n.last ensures
      && n.last[t] in n.executed && n.last[t] in n.requests && Grant(n.requests[n.last[t]], t)
      && t in n.since && n.requests[n.last[t]].sent <= n.since[t] <= n.store.now
    {
      ExecuteLatest(s, id, t);
    }
  }

  lemma ExecuteStore(s: State, id: nat)
    requires RequestsSound(s) && ClaimsSound(s) && StoreSound(s) && Enabled(s, Execute(id))
    ensures StoreSound(Executed(s, id))
  {
    var n := Executed(s, id);
    forall t | t in n.last && n.last[t] in n.requests && t in n.since
      ensures GrantStored(n, t, n.requests[n.last[t]], n.since[t])
    {
      if Succeeds(s, s.requests[id]) && !s.requests[id].Release? && t == s.requests[id].token {
        ExecuteGrants(s, id);
      } else {
        ExecuteKeeps(s, id, t);
      }
    }
  }

  /** The new latest grant is in the store, from now for its whole ttl. */
  lemma ExecuteGrants(s: State, id: nat)
    requires RequestsSound(s) && Enabled(s, Execute(id)) && Succeeds(s, s.requests[id]) && !s.requests[id].Release?
    ensures GrantStored(Executed(s, id), s.requests[id].token, s.requests[id], s.store.now)
  {
    assert RequestSound(s, id);
  }

  /** Another grant's entry is not touched, and a later one of the same token would be the latest. */
  lemma ExecuteKeeps(s: State, id: nat, t: string)
    requires RequestsSound(s) && ClaimsSound(s) && StoreSound(s) && Enabled(s, Execute(id)) && t in s.last
    requires !(Succeeds(s, s.requests[id]) && !s.requests[id].Release? && t == s.requests[id].token)
    ensures s.last[t] in s.requests && t in s.since
    ensures GrantStored(Executed(s, id), t, s.requests[s.last[t]], s.since[t])
  {
    assert s.last[t] in s.executed && t in s.since;
    var g, since := s.requests[s.last[t]], s.since[t];
    assert Grant(g, t);
    assert GrantStored(s, t, g, since);
    if s.store.now < since + g.Span() && !Released(s, t) {
      assert RequestSound(s, id);
      GrantSpared(s, id, t);
    }
    StillStored(s, Executed(s, id), t, g, since);
  }

  lemma StillStored(s: State, n: State, t: string, g: Request, since: int)
    requires GrantStored(s, t, g, since) && n.holders == s.holders && n.store.now == s.store.now
    requires Grant(g, t) && g.WellFormed() && s.store.now < since + g.Span() && !Released(s, t) ==>
      g.key in n.store.entries && g.key in s.store.entries && n.store.entries[g.key] == s.store.entries[g.key]
    ensures GrantStored(n, t, g, since)
  {
  }

  lemma GrantSpared(s: State, id: nat, t: string)
    requires Enabled(s, Execute(id)) && RequestSound(s, id) && !Released(s, t) && t in s.last && s.last[t] in s.requests
    requires !(Succeeds(s, s.requests[id]) && !s.requests[id].Release? && t == s.requests[id].token)
    requires s.store.Stores(s.requests[s.last[t]].key, t)
    ensures var n, key := Executed(s, id).store, s.requests[s.last[t]].key;
      n.now == s.store.now && key in n.entries && n.entries[key] == s.store.entries[key]
  {
    EntrySpared(s.store, s.requests[id].Command(), s.requests[s.last[t]].key, t);
  }

  /** None of the three commands changes an entry that carries another token. */
  lemma EntrySpared(s: Store, c: Command, k: string, t: string)
    requires s.Stores(k, t) && (c.SetNX? || ((c.ExpireIf? || c.DelIf?) && (c.key != k || c.token != t)))
    ensures Serve(s, c).0.now == s.now
    ensures k in Serve(s, c).0.entries && Serve(s, c).0.entries[k] == s.entries[k]
  {
  }

  /** Requests and replies may vanish: what is known about the others stays. */
  lemma LoseInv(s: State, n: State)
    requires Inv(s)
    requires n == s.(waiting := n.waiting, replies := n.replies) && n.waiting <= s.waiting
    requires n.replies.Keys <= s.replies.Keys && forall i :: i in n.replies ==> n.replies[i] == s.replies[i]
    ensures Inv(n)
  {
    KeepRequests(s, n);
    KeepTokens(s, n);
    KeepClaims(s, n);
    KeepStore(s, n);
  }

  lemma ReceiveInv(s: State, id: nat)
    requires Inv(s) && Enabled(s, Receive(id))
    ensures Inv(Received(s, id))
  {
    var r := s.requests[id];
    var m := s.(replies := s.replies - {id});
    LoseInv(s, m);
    ReplySound(s, id);
    if s.replies[id] && r.Acquire? {
      ReceiveAcquire(m, id);
    } else if s.replies[id] && r.Extend? {
      ReceiveExtend(m, id);
    }
  }

  /** What a positive reply is about. */
  lemma ReplySound(s: State, id: nat)
    requires RequestsSound(s) && TokensSound(s) && ClaimsSound(s) && Enabled(s, Receive(id))
    ensures id in s.executed
    ensures var r := s.requests[id];
      && (s.replies[id] && r.Acquire? ==> r.token !in s.holders && r.token in s.last && s.last[r.token] == id)
      && (s.replies[id] && r.Extend? ==>
            && r.token in s.holders && r.token in s.last && s.last[r.token] !in r.settled
            && r.token in s.since && r.sent <= s.since[r.token])
  {
    var r := s.requests[id];
    if r.Acquire? { assert AcquireSound(s, id); }
    if r.Extend? { assert ExtendSound(s, id); }
  }

  lemma ReceiveAcquire(m: State, id: nat)
    requires Inv(m) && id in m.requests && m.requests[id].Acquire? && id !in m.replies && id in m.executed
    requires m.requests[id].token !in m.holders
    requires m.requests[id].token in m.last && m.last[m.requests[id].token] == id
    ensures var r := m.requests[id]; Inv(WithHolder(m, r.token, Holder(r.key, true, {id}, {id}, r.sent)))
  {
    var r := m.requests[id];
    var n := WithHolder(m, r.token, Holder(r.key, true, {id}, {id}, r.sent));
    NewHolder(m, id);
    KeepRequests(m, n);
    KeepTokens(m, n);
    KeepClaims(m, n);
    KeepStore(m, n);
  }

  lemma NewHolder(m: State, id: nat)
    requires Inv(m) && id in m.requests && m.requests[id].Acquire? && id !in m.replies && id in m.executed
    requires m.requests[id].token !in m.holders
    requires m.requests[id].token in m.last && m.last[m.requests[id].token] == id
    ensures var r := m.requests[id];
      var n := WithHolder(m, r.token, Holder(r.key, true, {id}, {id}, r.sent));
      KnownAs(n, r.token) && HolderSound(n, r.token)
  {
    var r := m.requests[id];
    forall i | i in m.requests && m.requests[i].Acquire? && m.requests[i].token == r.token ensures i == id {
      assert SameAcquire(m, i, id);
    }
    assert AcquireSound(m, id);
  }

  lemma ReceiveExtend(m: State, id: nat)
    requires Inv(m) && id in m.requests && m.requests[id].Extend? && id !in m.replies && id in m.executed
    requires m.requests[id].token in m.holders && m.requests[id].token in m.last
    requires m.last[m.requests[id].token] !in m.requests[id].settled
    requires m.requests[id].token in m.since && m.requests[id].sent <= m.since[m.requests[id].token]
    ensures var r := m.requests[id]; Inv(WithHolder(m, r.token, Informed(m.holders[r.token], id, r)))
  {
    var r := m.requests[id];
    var n := WithHolder(m, r.token, Informed(m.holders[r.token], id, r));
    assert RequestSound(m, id) && HolderSound(m, r.token) && ExtendSound(m, id);
    KeepRequests(m, n);
    KeepTokens(m, n);
    KeepStore(m, n);
    ClaimsSettled(m, id);
  }

  /** The owner of a handle may forget what was answered before a Refresh that succeeded was sent. */
  lemma ClaimsSettled(m: State, id: nat)
    requires ClaimsSound(m) && id in m.requests && m.requests[id].Extend? && id !in m.replies && id in m.executed
    requires m.requests[id].token in m.holders && m.requests[id].token in m.last
    requires m.last[m.requests[id].token] !in m.requests[id].settled
    requires m.requests[id].token in m.since && m.requests[id].sent <= m.since[m.requests[id].token]
    ensures var r := m.requests[id]; ClaimsSound(WithHolder(m, r.token, Informed(m.holders[r.token], id, r)))
  {
    var r := m.requests[id];
    var n := WithHolder(m, r.token, Informed(m.holders[r.token], id, r));
    assert ExtendSound(m, id);
    forall i | i in n.requests && n.requests[i].Extend? ensures ExtendSound(n, i) {
      assert ExtendSound(m, i);
    }
    forall u | u in n.holders ensures HolderSound(n, u) {
      assert HolderSound(m, u);
    }
  }

  lemma NextInv(s: State, e: Event)
    requires Inv(s) && Enabled(s, e)
    ensures Inv(Next(s, e))
  {
    match e
    case Tick(d) => TickInv(s, d);
    case SendAcquire(id, key, token, ttl) => SendAcquireInv(s, id, key, token, ttl);
    case SendExtend(id, token, ttl) => SendExtendInv(s, id, token, ttl);
    case SendRelease(id, token) => SendReleaseInv(s, id, token);
    case Execute(id) => ExecuteInv(s, id);
    case LoseRequest(id) => LoseInv(s, Next(s, e));
    case Receive(id) => ReceiveInv(s, id);
    case LoseReply(id) => LoseInv(s, Next(s, e));
  }

  lemma {:induction false} RunInv(s: State, events: seq<Event>)
    requires Inv(s) && Valid(s, events)
    ensures Inv(Run(s, events))
    decreases |events|
  {
    if events != [] {
      NextInv(s, events[0]);
      RunInv(Next(s, events[0]), events[1..]);
    }
  }

  lemma {:induction false} RunJoin(s: State, a: seq<Event>, b: seq<Event>)
    requires Valid(s, a) && Valid(Run(s, a), b)
    ensures Valid(s, a + b) && Run(s, a + b) == Run(Run(s, a), b)
    decreases |a|
  {
    if a == [] {
      assert a + b == b;
    } else {
      RunJoin(Next(s, a[0]), a[1..], b);
      assert (a + b)[1..] == a[1..] + b;
    }
  }

  lemma ReachableRun(s: State, events: seq<Event>)
    requires Reachable(s) && Valid(s, events)
    ensures Reachable(Run(s, events))
  {
    var s0, before :| Initial(s0) && Valid(s0, before) && Run(s0, before) == s;
    RunJoin(s0, before, events);
  }

  lemma ReachableNext(s: State, e: Event)
    requires Reachable(s) && Enabled(s, e)
    ensures Reachable(Next(s, e))
  {
    assert [e][1..] == [] && Valid(Next(s, e), []) && Valid(s, [e]);
    assert Run(s, [e]) == Run(Next(s, e), []);
    ReachableRun(s, [e]);
  }

  lemma ReachableInv(s: State)
    requires Reachable(s)
    ensures Inv(s)
  {
    var s0, events :| Initial(s0) && Valid(s0, events) && Run(s0, events) == s;
    InitialInv(s0);
    RunInv(s0, events);
  }

  // ---------------------------------------------------------------------------------------------
  // Lease exclusion
  // ---------------------------------------------------------------------------------------------

  lemma HeldIsStored(s: State, token: string)
    requires Reachable(s) && Holds(s, token)
    ensures s.store.Stores(s.holders[token].key, token)
  {
    ReachableInv(s);
    assert HolderSound(s, token);
    assert ClaimRuns(s, token, s.last[token], s.store.now + 1);
    var g := s.requests[s.last[token]];
    assert GrantStored(s, token, g, s.since[token]) && RequestSound(s, s.last[token]);
    if g.Acquire? {
      assert AcquireSound(s, s.last[token]);
    }
  }

  /** In every reachable state of every interleaving, at most one handle holds a key. */
  lemma LeaseExclusion(s: State, a: string, b: string)
    requires Reachable(s) && Holds(s, a) && Holds(s, b)
    requires s.holders[a].key == s.holders[b].key
    ensures a == b
  {
    HeldIsStored(s, a);
    HeldIsStored(s, b);
  }

  /** While a handle holds, whatever it has sent would succeed, and nobody else's request on the
      key, whenever it was sent, would change the entry. */
  lemma HolderProceeds(s: State, token: string, id: nat)
    requires Reachable(s) && Holds(s, token) && Enabled(s, Execute(id))
    requires s.requests[id].key == s.holders[token].key
    ensures s.requests[id].token == token ==> Succeeds(s, s.requests[id])
    ensures s.requests[id].token != token ==> !Succeeds(s, s.requests[id]) && Executed(s, id).store == s.store
  {
    HeldIsStored(s, token);
    if s.requests[id].Acquire? {
      AcquiredOnce(s, id);
    }
  }

  /** A TryLock still on its way was never granted, and has not stored its token. */
  lemma AcquiredOnce(s: State, id: nat)
    requires Reachable(s) && Enabled(s, Execute(id)) && s.requests[id].Acquire?
    ensures s.requests[id].token !in s.last && forall k :: !s.store.Stores(k, s.requests[id].token)
  {
    ReachableInv(s);
    assert AcquireSound(s, id);
  }

  /** The lease is not empty talk: a TryLock answered in time on a free key gives it. */
  lemma TryLockGivesLease(s: State, id: nat, key: string, token: string, ttl: int, d: nat)
    requires id !in s.requests && token !in s.used && 0 < ttl
    requires !s.store.Live(key) && d < Lifetime(ttl)
    ensures
      var events := [SendAcquire(id, key, token, ttl), Execute(id), Tick(d), Receive(id)];
      && Valid(s, events)
      && Holds(Run(s, events), token)
      && Run(s, events).holders == s.holders[token := Run(s, events).holders[token]]
      && Run(s, events).holders[token].key == key
      && Run(s, events).store.now == s.store.now + d
  {
    var s1 := Next(s, SendAcquire(id, key, token, ttl));
    var s2 := Next(s1, Execute(id));
    var s3 := Next(s2, Tick(d));
    var s4 := Next(s3, Receive(id));
    assert Valid(s4, []);
    assert Valid(s3, [Receive(id)]) && Run(s3, [Receive(id)]) == s4;
    assert [Tick(d), Receive(id)][1..] == [Receive(id)];
    assert Valid(s2, [Tick(d), Receive(id)]) && Run(s2, [Tick(d), Receive(id)]) == s4;
    assert [Execute(id), Tick(d), Receive(id)][1..] == [Tick(d), Receive(id)];
    assert Valid(s1, [Execute(id), Tick(d), Receive(id)]) && Run(s1, [Execute(id), Tick(d), Receive(id)]) == s4;
    assert [SendAcquire(id, key, token, ttl), Execute(id), Tick(d), Receive(id)][1..]
        == [Execute(id), Tick(d), Receive(id)];
  }

  // ---------------------------------------------------------------------------------------------
  // Dead handles
  // ---------------------------------------------------------------------------------------------

  /** The TryLock of this token was granted, and the token is in the store no longer. */
  ghost predicate Dead(s: State, token: string) {
    token in s.last && forall k :: !s.store.Stores(k, token)
  }

  lemma DeadStep(s: State, e: Event, token: string)
    requires Reachable(s) && Enabled(s, e) && Dead(s, token)
    ensures Dead(Next(s, e), token)
    ensures e.Execute? && s.requests[e.id].token == token ==>
              !Succeeds(s, s.requests[e.id]) && Next(s, e).store == s.store
  {
    if e.Execute? && s.requests[e.id].Acquire? {
      AcquiredOnce(s, e.id);
    }
    StaysAway(s, e, token);
  }

  lemma StaysAway(s: State, e: Event, token: string)
    requires Enabled(s, e) && Dead(s, token)
    requires e.Execute? && s.requests[e.id].Acquire? ==> s.requests[e.id].token != token
    ensures forall k :: !Next(s, e).store.Stores(k, token)
  {
    if e.Execute? {
      ServeTouchesOneKey(s.store, s.requests[e.id].Command());
    }
    forall k ensures !Next(s, e).store.Stores(k, token) {
      assert !s.store.Stores(k, token);
    }
  }

  /** How often an Unlock of this handle succeeds in a run. */
  function Unlocks(s: State, events: seq<Event>, token: string): nat
    requires Valid(s, events)
    decreases |events|
  {
    if events == [] then 0
    else
      var e := events[0];
      (if e.Execute? && s.requests[e.id].Release? && s.requests[e.id].token == token
          && Succeeds(s, s.requests[e.id]) then 1 else 0)
      + Unlocks(Next(s, e), events[1..], token)
  }

  /** How often a Refresh of this handle reports true in a run. */
  function Refreshes(s: State, events: seq<Event>, token: string): nat
    requires Valid(s, events)
    decreases |events|
  {
    if events == [] then 0
    else
      var e := events[0];
      (if e.Execute? && s.requests[e.id].Extend? && s.requests[e.id].token == token
          && Succeeds(s, s.requests[e.id]) then 1 else 0)
      + Refreshes(Next(s, e), events[1..], token)
  }

  /** Once a token is gone it stays gone, and its handle can do nothing any more. */
  lemma {:induction false} DeadForever(s: State, events: seq<Event>, token: string)
    requires Reachable(s) && Valid(s, events) && Dead(s, token)
    ensures Dead(Run(s, events), token)
    ensures Unlocks(s, events, token) == 0 && Refreshes(s, events, token) == 0
    decreases |events|
  {
    if events != [] {
      DeadStep(s, events[0], token);
      ReachableNext(s, events[0]);
      DeadForever(Next(s, events[0]), events[1..], token);
    }
  }

  lemma ReleaseKills(s: State, id: nat)
    requires Reachable(s) && Enabled(s, Execute(id)) && s.requests[id].Release? && Succeeds(s, s.requests[id])
    ensures Dead(Executed(s, id), s.requests[id].token)
  {
    var r := s.requests[id];
    ReachableInv(s);
    assert RequestSound(s, id) && HolderSound(s, r.token);
    ServeTouchesOneKey(s.store, r.Command());
  }

  lemma {:induction false} UnlockOnce(s: State, events: seq<Event>, token: string)
    requires Reachable(s) && Valid(s, events)
    ensures Unlocks(s, events, token) <= 1
    decreases |events|
  {
    if events != [] {
      var e := events[0];
      ReachableNext(s, e);
      if e.Execute? && s.requests[e.id].Release? && s.requests[e.id].token == token
         && Succeeds(s, s.requests[e.id]) {
        ReleaseKills(s, e.id);
        DeadForever(Next(s, e), events[1..], token);
      } else {
        UnlockOnce(Next(s, e), events[1..], token);
      }
    }
  }
}
