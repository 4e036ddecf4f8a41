/**
 How long a process may count on a lock of cache/lock.go: what a Refresh gives, what can still end
 a lease early, and exactly when the obvious way of keeping track of it is right.
 */
module LockLeases {
  import opened Options
  import opened Redis
  import opened LockProtocol

  /** The owner sends nothing. */
  predicate Silent(e: Event, token: string) {
    !(e.SendExtend? && e.token == token) && !(e.SendRelease? && e.token == token)
  }

  predicate Quiet(events: seq<Event>, token: string) {
    forall e :: e in events ==> Silent(e, token)
  }

  lemma {:induction false} TimeGoesOn(s: State, events: seq<Event>)
    requires Valid(s, events)
    ensures s.store.now <= Run(s, events).store.now
    decreases |events|
  {
    if events != [] {
      if events[0].Execute? {
        ServeTouchesOneKey(s.store, s.requests[events[0].id].Command());
      }
      TimeGoesOn(Next(s, events[0]), events[1..]);
    }
  }

  /** Only replies to its own pending Refreshes tell the owner anything. */
  lemma HolderSteady(s: State, e: Event, token: string)
    requires Reachable(s) && Enabled(s, e) && token in s.holders && Silent(e, token)
    requires !(e.Receive? && Pending(s.holders[token], e.id))
    ensures token in Next(s, e).holders && Next(s, e).holders[token] == s.holders[token]
  {
    if e.Receive? {
      ReachableInv(s);
      assert s.requests[e.id].Acquire? ==> AcquireSound(s, e.id);
      assert s.requests[e.id].Extend? ==> ExtendSound(s, e.id);
    }
  }

  // ---------------------------------------------------------------------------------------------
  // What a Refresh gives
  // ---------------------------------------------------------------------------------------------

  /** While the reply to `id` is outstanding its owner learns nothing else. */
  lemma {:induction false} Outstanding(s: State, events: seq<Event>, id: nat, token: string)
    requires Reachable(s) && Valid(s, events) && Quiet(events, token)
    requires id in s.requests && token in s.holders && s.holders[token].claims <= s.holders[token].answered + {id}
    requires id in Run(s, events).replies
    ensures var n := Run(s, events);
      id in n.requests && n.requests[id] == s.requests[id]
      && token in n.holders && n.holders[token] == s.holders[token]
    decreases |events|
  {
    if events != [] {
      var e := events[0];
      assert e in events;
      if e == Receive(id) {
        NoSecondReply(s, id);
        NeverAnswered(Next(s, e), events[1..], id);
        assert false;
      } else {
        HolderSteady(s, e, token);
        ReachableNext(s, e);
        Outstanding(Next(s, e), events[1..], id, token);
      }
    }
  }

  lemma NoSecondReply(s: State, id: nat)
    requires Reachable(s) && Enabled(s, Receive(id))
    ensures var n := Next(s, Receive(id)); id in n.requests && id !in n.waiting && id !in n.replies
  {
    ReachableInv(s);
  }

  lemma {:induction false} NeverAnswered(s: State, events: seq<Event>, id: nat)
    requires Valid(s, events) && id in s.requests && id !in s.waiting && id !in s.replies
    ensures id !in Run(s, events).replies
    decreases |events|
  {
    if events != [] {
      NeverAnswered(Next(s, events[0]), events[1..], id);
    }
  }

  /** When nothing is outstanding, nothing changes what the owner knows. */
  lemma {:induction false} NothingOutstanding(s: State, events: seq<Event>, id: nat, token: string)
    requires Reachable(s) && Valid(s, events) && Quiet(events, token)
    requires id in s.requests && token in s.holders && s.holders[token].claims <= s.holders[token].answered
    ensures var n := Run(s, events);
      id in n.requests && n.requests[id] == s.requests[id]
      && token in n.holders && n.holders[token] == s.holders[token]
    decreases |events|
  {
    if events != [] {
      assert events[0] in events;
      HolderSteady(s, events[0], token);
      ReachableNext(s, events[0]);
      NothingOutstanding(Next(s, events[0]), events[1..], id, token);
    }
  }

  lemma Renewed(s: State, id: nat, token: string, ttl: int)
    requires Reachable(s) && Enabled(s, SendExtend(id, token, ttl))
    requires s.holders[token].claims <= s.holders[token].answered
    ensures var n := Next(s, SendExtend(id, token, ttl));
      var h := Informed(n.holders[token], id, n.requests[id]);
      h.claims == {id} && h.floor == s.store.now
  {
    ReachableInv(s);
    assert HolderSound(s, token);
  }

  /** A Refresh sent when all earlier grants were answered, and answered with true: in every
      interleaving before and after the answer, the handle holds exactly until its lease ends. */
  lemma RefreshRenewsLease(s: State, id: nat, token: string, ttl: int, events: seq<Event>, later: seq<Event>)
    requires Reachable(s) && Enabled(s, SendExtend(id, token, ttl)) && s.holders[token].open
    requires s.holders[token].claims <= s.holders[token].answered
    requires var n := Next(s, SendExtend(id, token, ttl));
      && Valid(n, events) && Quiet(events, token)
      && Enabled(Run(n, events), Receive(id)) && Run(n, events).replies[id]
      && Valid(Received(Run(n, events), id), later) && Quiet(later, token)
    ensures var n := Run(Received(Run(Next(s, SendExtend(id, token, ttl)), events), id), later);
      Holds(n, token) <==> n.store.now < s.store.now + Truncated(ttl)
  {
    var n := Next(s, SendExtend(id, token, ttl));
    Renewed(s, id, token, ttl);
    ReachableNext(s, SendExtend(id, token, ttl));
    ReachableRun(n, events);
    Outstanding(n, events, id, token);
    var m := Run(n, events);
    ReachableNext(m, Receive(id));
    NothingOutstanding(Received(m, id), later, id, token);
    var z := Run(Received(m, id), later);
    assert z.holders[token].claims == {id};
    assert ClaimRuns(z, token, id, z.store.now + 1) <==> z.store.now < s.store.now + Truncated(ttl);
  }

  // ---------------------------------------------------------------------------------------------
  // What can still end a lease
  // ---------------------------------------------------------------------------------------------

  /** Whatever is delivered, lost or sent by others before `until`, the token stays at its key. */
  ghost predicate KeptUntil(s: State, token: string, until: int)
    requires token in s.holders
  {
    forall events :: Valid(s, events) && Quiet(events, token) && Run(s, events).store.now < until ==>
      Run(s, events).store.Stores(s.holders[token].key, token)
  }

  /** This request on its way, executed now or later, leaves the token there until then. */
  predicate Reaches(s: State, id: nat, token: string, until: int) {
    id in s.requests && s.requests[id].Extend? && s.requests[id].token == token && s.requests[id].WellFormed() ==>
      until <= s.store.now + s.requests[id].Span()
  }

  ghost predicate Safe(s: State, token: string, until: int) {
    && token in s.holders && s.holders[token].open
    && var key := s.holders[token].key;
    && s.store.Stores(key, token)
    && (s.store.entries[key].expiry.Some? ==> until <= s.store.entries[key].expiry.value)
    && forall id :: id in s.waiting ==> Reaches(s, id, token, until)
  }

  lemma SafeExecute(s: State, id: nat, token: string, until: int)
    requires Reachable(s) && Enabled(s, Execute(id)) && Safe(s, token, until) && s.store.now < until
    ensures Safe(Executed(s, id), token, until)
  {
    var r, n, key := s.requests[id], Executed(s, id), s.holders[token].key;
    OwnRequests(s, id, token);
    assert Reaches(s, id, token, until);
    ServeTouchesOneKey(s.store, r.Command());
    if !(r.Extend? && r.token == token) {
      EntrySpared(s.store, r.Command(), key, token);
    }
    forall i | i in n.waiting ensures Reaches(n, i, token, until) {
      assert Reaches(s, i, token, until);
    }
  }

  lemma OwnRequests(s: State, id: nat, token: string)
    requires Reachable(s) && Enabled(s, Execute(id)) && token in s.holders && s.holders[token].open
    ensures s.requests[id].token == token ==> s.requests[id].Extend? && s.requests[id].key == s.holders[token].key
  {
    ReachableInv(s);
    assert RequestSound(s, id);
    if s.requests[id].Acquire? { assert AcquireSound(s, id); }
  }

  lemma ReachableRequests(s: State)
    requires Reachable(s)
    ensures RequestsSound(s)
  {
    ReachableInv(s);
  }

  lemma SafeStep(s: State, e: Event, token: string, until: int)
    requires Reachable(s) && Enabled(s, e) && Silent(e, token) && Safe(s, token, until)
    requires s.store.now < until && Next(s, e).store.now < until
    ensures Safe(Next(s, e), token, until) && Next(s, e).holders[token].key == s.holders[token].key
  {
    var n := Next(s, e);
    if e.Execute? {
      SafeExecute(s, e.id, token, until);
    } else {
      SilentHolder(s, e, token);
      ReachableRequests(s);
      forall i | i in n.waiting ensures Reaches(n, i, token, until) {
        SilentRequests(s, e, token, i);
        if i in s.waiting { assert Reaches(s, i, token, until); }
      }
    }
  }

  /** A silent step leaves key and openness alone ... */
  lemma SilentHolder(s: State, e: Event, token: string)
    requires Reachable(s) && Enabled(s, e) && Silent(e, token) && token in s.holders
    ensures var n := Next(s, e);
      && token in n.holders && n.holders[token].key == s.holders[token].key
      && n.holders[token].open == s.holders[token].open
  {
    if e.Receive? {
      ReplyKnown(s, e.id);
    }
  }

  /** ... and adds no Refresh of the token. */
  lemma SilentRequests(s: State, e: Event, token: string, i: nat)
    requires RequestsSound(s) && Enabled(s, e) && Silent(e, token) && i in Next(s, e).waiting
    ensures var n := Next(s, e);
      && i in n.requests
      && (i in s.waiting ==> i in s.requests && n.requests[i] == s.requests[i])
      && (i !in s.waiting && n.requests[i].Extend? ==> n.requests[i].token != token)
  {
  }

  lemma {:induction false} SafeRun(s: State, events: seq<Event>, token: string, until: int)
    requires Reachable(s) && Valid(s, events) && Quiet(events, token) && Safe(s, token, until)
    requires Run(s, events).store.now < until
    ensures Run(s, events).store.Stores(s.holders[token].key, token)
    decreases |events|
  {
    TimeGoesOn(s, events);
    if events != [] {
      assert events[0] in events;
      TimeGoesOn(Next(s, events[0]), events[1..]);
      SafeStep(s, events[0], token, until);
      ReachableNext(s, events[0]);
      SafeRun(Next(s, events[0]), events[1..], token, until);
    }
  }

  lemma Step(s: State, e: Event, rest: seq<Event>)
    requires Enabled(s, e) && Valid(Next(s, e), rest)
    ensures Valid(s, [e] + rest) && Run(s, [e] + rest) == Run(Next(s, e), rest)
  {
    assert ([e] + rest)[1..] == rest;
  }

  /** Executed now, this Refresh lets the token go when its span is over. */
  lemma CutShort(s: State, id: nat, token: string) returns (events: seq<Event>)
    requires Reachable(s) && Enabled(s, Execute(id)) && s.requests[id].Extend? && s.requests[id].token == token
    requires s.store.Stores(s.requests[id].key, token)
    ensures Valid(s, events) && Quiet(events, token)
    ensures events == [Execute(id)] + [Tick(s.requests[id].Span())]
    ensures Run(s, events) == Next(Executed(s, id), Tick(s.requests[id].Span()))
    ensures !Run(s, events).store.Live(s.requests[id].key)
  {
    var d := s.requests[id].Span();
    var m := Executed(s, id);
    Step(m, Tick(d), []);
    Step(s, Execute(id), [Tick(d)]);
    events := [Execute(id)] + [Tick(d)];
    assert Run(m, [Tick(d)] + []) == Next(m, Tick(d)) && [Tick(d)] + [] == [Tick(d)];
  }

  lemma Expires(s: State, key: string, token: string) returns (events: seq<Event>)
    requires s.store.Stores(key, token) && s.store.entries[key].expiry.Some?
    ensures Valid(s, events) && Quiet(events, token)
    ensures Deliveries(events)
    ensures var n := Run(s, events); n.store.now == s.store.entries[key].expiry.value && !n.store.Live(key)
  {
    var d := s.store.entries[key].expiry.value - s.store.now;
    Step(s, Tick(d), []);
    events := [Tick(d)] + [];
    assert events == [Tick(d)];
  }

  /** Nothing but deliveries and the clock. */
  predicate Deliveries(events: seq<Event>) {
    forall e :: e in events ==> e.Execute? || e.Tick?
  }

  lemma NotKept(s: State, token: string, until: int) returns (events: seq<Event>)
    requires Reachable(s) && token in s.holders && s.holders[token].open
    requires s.store.Stores(s.holders[token].key, token) && s.store.now < until && !Safe(s, token, until)
    ensures Valid(s, events) && Quiet(events, token) && Deliveries(events)
    ensures Run(s, events).store.now < until && !Run(s, events).store.Live(s.holders[token].key)
  {
    var key := s.holders[token].key;
    if s.store.entries[key].expiry.Some? && s.store.entries[key].expiry.value < until {
      events := Expires(s, key, token);
    } else {
      var id :| id in s.waiting && !Reaches(s, id, token, until);
      OwnRequests(s, id, token);
      events := CutShort(s, id, token);
    }
  }

  /** A stored, open handle keeps its key until some instant, come what may, exactly if the entry
      expires no earlier and every Refresh of it on its way reaches that far. */
  lemma KeptUntilExactly(s: State, token: string, until: int)
    requires Reachable(s) && token in s.holders && s.holders[token].open
    requires s.store.Stores(s.holders[token].key, token) && s.store.now < until
    ensures KeptUntil(s, token, until) <==> Safe(s, token, until)
  {
    var key := s.holders[token].key;
    if Safe(s, token, until) {
      forall events | Valid(s, events) && Quiet(events, token) && Run(s, events).store.now < until
        ensures Run(s, events).store.Stores(key, token)
      {
        SafeRun(s, events, token, until);
      }
    } else {
      var events := NotKept(s, token, until);
      assert !Run(s, events).store.Stores(key, token);
    }
  }

  // ---------------------------------------------------------------------------------------------
  // The obvious lease
  // ---------------------------------------------------------------------------------------------

  /** From the latest successful reply, cut when a shorter Refresh is sent. */
  function NextUntil(s: State, e: Event, token: string, until: int): int
    requires Enabled(s, e)
  {
    match e
    case SendExtend(_, t, ttl) =>
      if t == token && s.store.now + Truncated(ttl) < until then s.store.now + Truncated(ttl) else until
    case Receive(id) =>
      var r := s.requests[id];
      if s.replies[id] && Grant(r, token) && r.WellFormed() then r.LeaseEnd() else until
    case _ => until
  }

  function ObviousLease(s: State, events: seq<Event>, token: string, until: int): int
    requires Valid(s, events)
    decreases |events|
  {
    if events == [] then until
    else ObviousLease(Next(s, events[0]), events[1..], token, NextUntil(s, events[0], token, until))
  }

  /** No unanswered grant is shorter than the Refresh to be sent, or lasts longer than it. */
  predicate SteadySend(s: State, token: string, ttl: int)
    requires token in s.holders && 0 < ttl
  {
    forall c :: c in s.holders[token].claims && c !in s.holders[token].answered ==> SteadyAfter(s, c, ttl)
  }

  predicate SteadyAfter(s: State, c: nat, ttl: int)
    requires 0 < ttl
  {
    c in s.requests && s.requests[c].WellFormed() && !s.requests[c].Release? ==>
      && Truncated(ttl) <= s.requests[c].Span()
      && s.requests[c].LeaseEnd() <= s.store.now + Truncated(ttl)
  }

  /** The owner keeps to that.  It can tell from what it has sent and received. */
  predicate Steady(s: State, events: seq<Event>, token: string)
    requires Valid(s, events)
    decreases |events|
  {
    events != [] ==>
      && (events[0].SendExtend? && events[0].token == token ==> SteadySend(s, token, events[0].ttl))
      && Steady(Next(s, events[0]), events[1..], token)
  }

  /** Should the reply to `id` be the next to arrive, the lease it announces is good for claim c. */
  predicate Matched(s: State, token: string, id: nat, c: nat)
    requires id in s.requests
  {
    var r := s.requests[id];
    r.Extend? && r.token == token && r.WellFormed() && (id in s.waiting || id in s.replies) && c !in r.settled ==>
      && c in s.requests && Grant(s.requests[c], token) && s.requests[c].WellFormed()
      && (r.Span() <= s.requests[c].Span() || r.LeaseEnd() <= s.requests[c].LeaseEnd())
  }

  ghost predicate LeaseKnown(s: State, token: string, until: int) {
    token in s.holders ==>
      && (forall c :: c in s.holders[token].claims ==> ClaimRuns(s, token, c, until))
      && (forall id, c :: id in s.requests && c in s.holders[token].claims ==> Matched(s, token, id, c))
  }

  lemma ClaimsAfterReceive(s: State, id: nat, token: string, until: int, c: nat)
    requires Reachable(s) && Enabled(s, Receive(id)) && LeaseKnown(s, token, until) && token in s.holders
    requires token in Received(s, id).holders && c in Received(s, id).holders[token].claims
    ensures ClaimRuns(Received(s, id), token, c, NextUntil(s, Receive(id), token, until))
  {
    ReplyKnown(s, id);
    assert ClaimRuns(s, token, c, until) && Matched(s, token, id, c);
  }

  lemma KnownAfterReceive(s: State, id: nat, token: string, until: int)
    requires Reachable(s) && Enabled(s, Receive(id)) && LeaseKnown(s, token, until)
    ensures LeaseKnown(Received(s, id), token, NextUntil(s, Receive(id), token, until))
  {
    var n, next := Received(s, id), NextUntil(s, Receive(id), token, until);
    ReplyKnown(s, id);
    if token in s.holders {
      forall c | c in n.holders[token].claims ensures ClaimRuns(n, token, c, next) {
        ClaimsAfterReceive(s, id, token, until, c);
      }
      forall i, c | i in n.requests && c in n.holders[token].claims ensures Matched(n, token, i, c) {
        assert Matched(s, token, i, c);
      }
    } else if token in n.holders {
      forall i, c | i in n.requests && c in n.holders[token].claims ensures Matched(n, token, i, c) {
        NoExtendYet(s, token, i);
      }
    }
  }

  lemma ReplyKnown(s: State, id: nat)
    requires Reachable(s) && Enabled(s, Receive(id))
    ensures s.requests[id].WellFormed()
    ensures s.requests[id].Acquire? ==> s.requests[id].token !in s.holders
    ensures s.requests[id].Extend? ==> s.requests[id].token in s.holders
  {
    ReachableInv(s);
    assert RequestSound(s, id);
    if s.requests[id].Acquire? { assert AcquireSound(s, id); }
  }

  lemma NoExtendYet(s: State, token: string, id: nat)
    requires Reachable(s) && token !in s.holders && id in s.requests
    ensures s.requests[id].Extend? ==> s.requests[id].token != token
  {
    ReachableInv(s);
    assert RequestSound(s, id);
  }

  lemma KnownAfterSend(s: State, id: nat, token: string, ttl: int, until: int)
    requires Reachable(s) && Enabled(s, SendExtend(id, token, ttl)) && SteadySend(s, token, ttl)
    requires LeaseKnown(s, token, until)
    ensures var e := SendExtend(id, token, ttl); LeaseKnown(Next(s, e), token, NextUntil(s, e, token, until))
  {
    var e := SendExtend(id, token, ttl);
    var n, next := Next(s, e), NextUntil(s, e, token, until);
    forall c | c in n.holders[token].claims ensures ClaimRuns(n, token, c, next) {
      if c != id { assert ClaimRuns(s, token, c, until); }
    }
    forall i, c | i in n.requests && c in n.holders[token].claims ensures Matched(n, token, i, c) {
      if c != id { assert ClaimRuns(s, token, c, until); }
      if i == id && c != id && c !in s.holders[token].answered {
        assert SteadyAfter(s, c, ttl);
      } else if i != id && c != id {
        assert Matched(s, token, i, c);
      } else if i != id {
        PendingClaim(s, token, i);
        if Pending(s.holders[token], i) { assert SteadyAfter(s, i, ttl); }
      }
    }
  }

  lemma PendingClaim(s: State, token: string, i: nat)
    requires Reachable(s) && i in s.requests && token in s.holders
    ensures s.requests[i].Extend? && s.requests[i].token == token && (i in s.waiting || i in s.replies) ==>
              Pending(s.holders[token], i)
  {
    ReachableInv(s);
    if s.requests[i].Extend? { assert ExtendSound(s, i); }
  }

  lemma KnownQuiet(s: State, e: Event, token: string, until: int)
    requires Reachable(s) && Enabled(s, e) && LeaseKnown(s, token, until)
    requires !e.Receive? && !(e.SendExtend? && e.token == token)
    ensures LeaseKnown(Next(s, e), token, until)
  {
    var n := Next(s, e);
    if token in n.holders {
      ReachableRequests(s);
      forall c | c in n.holders[token].claims ensures ClaimRuns(n, token, c, until) {
        assert ClaimRuns(s, token, c, until);
      }
      forall i, c | i in n.requests && c in n.holders[token].claims ensures Matched(n, token, i, c) {
        assert ClaimRuns(s, token, c, until);
        if i in s.requests { assert Matched(s, token, i, c); }
      }
    }
  }

  lemma {:induction false} KnownRun(s: State, events: seq<Event>, token: string, until: int)
    requires Reachable(s) && Valid(s, events) && LeaseKnown(s, token, until) && Steady(s, events, token)
    ensures LeaseKnown(Run(s, events), token, ObviousLease(s, events, token, until))
    decreases |events|
  {
    if events != [] {
      var e := events[0];
      match e {
        case Receive(id) => KnownAfterReceive(s, id, token, until);
        case SendExtend(id, t, ttl) =>
          if t == token { KnownAfterSend(s, id, token, ttl, until); } else { KnownQuiet(s, e, token, until); }
        case _ => KnownQuiet(s, e, token, until);
      }
      ReachableNext(s, e);
      KnownRun(Next(s, e), events[1..], token, NextUntil(s, e, token, until));
    }
  }

  lemma InitialReachable(s: State)
    requires Initial(s)
    ensures Reachable(s)
  {
    assert Valid(s, []) && Run(s, []) == s;
  }

  /** For a steady owner the obvious lease is a lease, in every run, whatever is late or lost. */
  lemma SteadyLeaseSafe(s: State, events: seq<Event>, token: string)
    requires Initial(s) && Valid(s, events) && Steady(s, events, token)
    requires token in Run(s, events).holders && Run(s, events).holders[token].open
    requires Run(s, events).store.now < ObviousLease(s, events, token, s.store.now)
    ensures Holds(Run(s, events), token)
  {
    InitialReachable(s);
    KnownRun(s, events, token, s.store.now);
    forall c | c in Run(s, events).holders[token].claims
      ensures ClaimRuns(Run(s, events), token, c, Run(s, events).store.now + 1)
    {
      assert ClaimRuns(Run(s, events), token, c, ObviousLease(s, events, token, s.store.now));
    }
  }

  /** So no two steady owners count on one key at a time. */
  lemma SteadyExclusion(s: State, events: seq<Event>, a: string, b: string)
    requires Initial(s) && Valid(s, events) && Steady(s, events, a) && Steady(s, events, b)
    requires var n := Run(s, events);
      && a in n.holders && n.holders[a].open && n.store.now < ObviousLease(s, events, a, s.store.now)
      && b in n.holders && n.holders[b].open && n.store.now < ObviousLease(s, events, b, s.store.now)
      && n.holders[a].key == n.holders[b].key
    ensures a == b
  {
    SteadyLeaseSafe(s, events, a);
    SteadyLeaseSafe(s, events, b);
    InitialReachable(s);
    ReachableRun(s, events);
    LeaseExclusion(Run(s, events), a, b);
  }

  // ---------------------------------------------------------------------------------------------
  // Where it fails
  // ---------------------------------------------------------------------------------------------

  lemma {:induction false} ObviousJoin(s: State, a: seq<Event>, b: seq<Event>, token: string, until: int)
    requires Valid(s, a) && Valid(Run(s, a), b)
    ensures Valid(s, a + b) && Run(s, a + b) == Run(Run(s, a), b)
    ensures ObviousLease(s, a + b, token, until)
         == ObviousLease(Run(s, a), b, token, ObviousLease(s, a, token, until))
    decreases |a|
  {
    RunJoin(s, a, b);
    if a == [] {
      assert a + b == b;
    } else {
      ObviousJoin(Next(s, a[0]), a[1..], b, token, NextUntil(s, a[0], token, until));
      assert (a + b)[1..] == a[1..] + b;
    }
  }

  /** Of two Refreshes on their way one is executed and answered, then the other, which is shorter:
      before the lease announced by the answer is over, the key is free. */
  lemma Overtaken(s: State, x: nat, y: nat, token: string, until: int) returns (events: seq<Event>)
    requires Reachable(s) && token in s.holders && s.holders[token].open && x != y
    requires Enabled(s, Execute(x)) && s.requests[x].Extend? && s.requests[x].token == token
    requires Enabled(s, Execute(y)) && s.requests[y].Extend? && s.requests[y].token == token
    requires s.store.Stores(s.holders[token].key, token)
    requires s.store.now + s.requests[y].Span() < s.requests[x].LeaseEnd()
    ensures events == [Execute(x), Receive(x), Execute(y), Tick(s.requests[y].Span())]
    ensures Valid(s, events) && ObviousLease(s, events, token, until) == s.requests[x].LeaseEnd()
    ensures var n := Run(s, events);
      && n.store.now == s.store.now + s.requests[y].Span() && !n.store.Live(s.holders[token].key)
      && token in n.holders && n.holders[token].open && n.holders[token].key == s.holders[token].key
      && n.used == s.used && n.requests == s.requests
  {
    OwnRequests(s, x, token);
    OwnRequests(s, y, token);
    SentBefore(s, x);
    var s1 := Executed(s, x);
    var s2 := Received(s1, x);
    assert s2.store.Stores(s.holders[token].key, token);
    ReachableNext(s, Execute(x));
    ReachableNext(s1, Receive(x));
    var tail := CutShort(s2, y, token);
    var d := s.requests[y].Span();
    var s3 := Executed(s2, y);
    StepObvious(s3, Tick(d), [], token, s.requests[x].LeaseEnd());
    StepObvious(s2, Execute(y), [Tick(d)] + [], token, s.requests[x].LeaseEnd());
    assert tail == [Execute(y)] + ([Tick(d)] + []);
    StepObvious(s1, Receive(x), tail, token, until);
    StepObvious(s, Execute(x), [Receive(x)] + tail, token, until);
    events := [Execute(x)] + ([Receive(x)] + tail);
  }

  lemma SentBefore(s: State, id: nat)
    requires Reachable(s) && id in s.requests
    ensures s.requests[id].sent <= s.store.now
  {
    ReachableInv(s);
    assert RequestSound(s, id);
  }

  lemma StepObvious(s: State, e: Event, rest: seq<Event>, token: string, until: int)
    requires Enabled(s, e) && Valid(Next(s, e), rest)
    ensures Valid(s, [e] + rest) && Run(s, [e] + rest) == Run(Next(s, e), rest)
    ensures ObviousLease(s, [e] + rest, token, until)
         == ObviousLease(Next(s, e), rest, token, NextUntil(s, e, token, until))
  {
    assert ([e] + rest)[1..] == rest;
  }

  /** Another process's TryLock says nothing to the owner. */
  lemma OthersLock(s: State, id: nat, key: string, other: string, token: string, until: int)
    requires id !in s.requests && other !in s.used && other != token && !s.store.Live(key)
    ensures var events := [SendAcquire(id, key, other, MILLISECOND), Execute(id), Tick(0), Receive(id)];
      Valid(s, events) && ObviousLease(s, events, token, until) == until
  {
    var s1 := Next(s, SendAcquire(id, key, other, MILLISECOND));
    var s2 := Next(s1, Execute(id));
    var s3 := Next(s2, Tick(0));
    assert s3.requests[id].token == other;
    StepObvious(s3, Receive(id), [], token, until);
    StepObvious(s2, Tick(0), [Receive(id)] + [], token, until);
    StepObvious(s1, Execute(id), [Tick(0)] + ([Receive(id)] + []), token, until);
    var all := [Execute(id)] + ([Tick(0)] + ([Receive(id)] + []));
    StepObvious(s, SendAcquire(id, key, other, MILLISECOND), all, token, until);
    assert [SendAcquire(id, key, other, MILLISECOND)] + all
        == [SendAcquire(id, key, other, MILLISECOND), Execute(id), Tick(0), Receive(id)];
  }

  lemma HandlesUsed(s: State)
    requires Reachable(s)
    ensures s.holders.Keys <= s.used
  {
    ReachableInv(s);
    TokensUsed(s);
  }

  /** Where the key is free while the obvious lease runs, another process takes it. */
  lemma ThenTaken(s: State, fall: seq<Event>, token: string, until: int, id: nat, other: string)
    returns (events: seq<Event>)
    requires Valid(s, fall) && Reachable(s)
    requires var m := Run(s, fall);
      && token in m.holders && m.holders[token].open && !m.store.Live(m.holders[token].key)
      && m.store.now < ObviousLease(s, fall, token, until) && id !in m.requests && other !in m.used
    ensures Valid(s, events) && forall e :: e in events && e.SendExtend? ==> e in fall
    ensures Lost(s, events, token, until, other) && Run(s, events).holders[token] == Run(s, fall).holders[token]
  {
    var m := Run(s, fall);
    var key := m.holders[token].key;
    ReachableRun(s, fall);
    HandlesUsed(m);
    TryLockGivesLease(m, id, key, other, MILLISECOND, 0);
    OthersLock(m, id, key, other, token, ObviousLease(s, fall, token, until));
    var take := [SendAcquire(id, key, other, MILLISECOND), Execute(id), Tick(0), Receive(id)];
    ObviousJoin(s, fall, take, token, until);
    events := fall + take;
  }

  /** At the end the obvious lease of the one still runs, and the other holds the key. */
  predicate Lost(s: State, events: seq<Event>, token: string, until: int, other: string)
    requires Valid(s, events)
  {
    var n := Run(s, events);
    && token in n.holders && n.holders[token].open
    && n.store.now < ObviousLease(s, events, token, until)
    && Holds(n, other) && n.holders[other].key == n.holders[token].key
  }

  predicate OwnRefresh(s: State, c: nat, token: string) {
    c in s.requests && s.requests[c].Extend? && s.requests[c].token == token && s.requests[c].WellFormed()
  }

  /** What makes it safe to send a Refresh while this one is on its way, or its reply is. */
  predicate SafeBeside(s: State, c: nat, ttl: int)
    requires 0 < ttl
  {
    c in s.requests && s.requests[c].Extend? && s.requests[c].WellFormed() ==>
      && (c in s.waiting ==> SteadyAfter(s, c, ttl))
      && (c in s.replies && s.replies[c] ==> s.requests[c].LeaseEnd() <= s.store.now + Truncated(ttl))
  }

  /** A Refresh sent against that: the key is free while the obvious lease runs. */
  lemma SentBeside(s: State, token: string, c: nat, id: nat, ttl: int, until: int) returns (events: seq<Event>)
    requires Reachable(s) && token in s.holders && s.holders[token].open
    requires s.store.Stores(s.holders[token].key, token)
    requires OwnRefresh(s, c, token) && Enabled(s, SendExtend(id, token, ttl)) && !SafeBeside(s, c, ttl)
    ensures var n, u := Next(s, SendExtend(id, token, ttl)), NextUntil(s, SendExtend(id, token, ttl), token, until);
      && Valid(n, events) && Quiet(events, token) && (forall e :: e in events ==> !e.SendExtend?)
      && Run(n, events).store.now < ObviousLease(n, events, token, u)
      && token in Run(n, events).holders && Run(n, events).holders[token].open
      && Run(n, events).holders[token].key == s.holders[token].key
      && !Run(n, events).store.Live(s.holders[token].key)
      && Run(n, events).requests == n.requests && Run(n, events).used == n.used
  {
    var send := SendExtend(id, token, ttl);
    var n, u := Next(s, send), NextUntil(s, send, token, until);
    ReachableNext(s, send);
    ReachableRequests(s);
    assert n.requests[c] == s.requests[c];
    if c in s.waiting && !SteadyAfter(s, c, ttl) {
      var first := if s.requests[c].Span() < Truncated(ttl) then id else c;
      var second := if s.requests[c].Span() < Truncated(ttl) then c else id;
      events := Overtaken(n, first, second, token, u);
    } else {
      events := ReplyOvertaken(n, c, id, token, u);
    }
  }

  /** The reply to a Refresh is on its way when another, which ends earlier, is executed. */
  lemma ReplyOvertaken(s: State, x: nat, y: nat, token: string, until: int) returns (events: seq<Event>)
    requires Reachable(s) && token in s.holders && s.holders[token].open && x != y
    requires Enabled(s, Receive(x)) && s.replies[x] && OwnRefresh(s, x, token)
    requires Enabled(s, Execute(y)) && OwnRefresh(s, y, token)
    requires s.store.Stores(s.holders[token].key, token)
    requires s.store.now + s.requests[y].Span() < s.requests[x].LeaseEnd()
    ensures events == [Receive(x), Execute(y), Tick(s.requests[y].Span())]
    ensures Valid(s, events) && ObviousLease(s, events, token, until) == s.requests[x].LeaseEnd()
    ensures var n := Run(s, events);
      && n.store.now == s.store.now + s.requests[y].Span() && !n.store.Live(s.holders[token].key)
      && token in n.holders && n.holders[token].open && n.holders[token].key == s.holders[token].key
      && n.used == s.used && n.requests == s.requests
  {
    OwnRequests(s, y, token);
    var s2 := Received(s, x);
    ReachableNext(s, Receive(x));
    var tail := CutShort(s2, y, token);
    var d := s.requests[y].Span();
    var s3 := Executed(s2, y);
    StepObvious(s3, Tick(d), [], token, s.requests[x].LeaseEnd());
    StepObvious(s2, Execute(y), [Tick(d)] + [], token, s.requests[x].LeaseEnd());
    assert tail == [Execute(y)] + ([Tick(d)] + []);
    StepObvious(s, Receive(x), tail, token, until);
    events := [Receive(x)] + tail;
  }

  /** ... and another process can hold it then. */
  lemma UnsteadyFails(s: State, token: string, c: nat, id: nat, ttl: int, id': nat, other: string, until: int)
    returns (events: seq<Event>)
    requires Reachable(s) && token in s.holders && s.holders[token].open
    requires s.store.Stores(s.holders[token].key, token)
    requires OwnRefresh(s, c, token) && Enabled(s, SendExtend(id, token, ttl)) && !SafeBeside(s, c, ttl)
    requires id' !in s.requests && id' != id && other !in s.used
    ensures Valid(s, events) && forall e :: e in events && e.SendExtend? ==> e == SendExtend(id, token, ttl)
    ensures Lost(s, events, token, until, other) && Run(s, events).holders[token].key == s.holders[token].key
  {
    var send := SendExtend(id, token, ttl);
    ReachableNext(s, send);
    var n, u := Next(s, send), NextUntil(s, send, token, until);
    var fall := SentBeside(s, token, c, id, ttl, until);
    var rest := ThenTaken(n, fall, token, u, id', other);
    StepObvious(s, send, rest, token, until);
    events := [send] + rest;
  }

  // ---------------------------------------------------------------------------------------------
  // Exactly when one more Refresh is safe
  // ---------------------------------------------------------------------------------------------

  /** If the owner sends nothing more, the obvious lease is kept. */
  ghost predicate Unbroken(s: State, token: string, until: int)
    requires token in s.holders
  {
    forall events :: Valid(s, events) && Quiet(events, token)
                     && Run(s, events).store.now < ObviousLease(s, events, token, until) ==>
      Run(s, events).store.Stores(s.holders[token].key, token)
  }

  ghost predicate Good(s: State, token: string, until: int) {
    until <= s.store.now || Safe(s, token, until)
  }

  /** What the reply to a Refresh on its way would announce: the others on their way reach that far,
      if it can still succeed. */
  ghost predicate GoodOnce(s: State, token: string, r: nat)
    requires token in s.holders && OwnRefresh(s, r, token)
  {
    || s.requests[r].LeaseEnd() <= s.store.now
    || !s.store.Stores(s.holders[token].key, token)
    || forall w :: w in s.waiting ==> Reaches(s, w, token, s.requests[r].LeaseEnd())
  }

  /** The current lease and every one a reply may announce are safe. */
  ghost predicate AllGood(s: State, token: string, until: int)
    requires token in s.holders
  {
    && s.holders[token].open && Good(s, token, until)
    && (forall r :: r in s.replies && s.replies[r] && OwnRefresh(s, r, token) ==>
          Good(s, token, s.requests[r].LeaseEnd()))
    && (forall r :: r in s.waiting && OwnRefresh(s, r, token) ==> GoodOnce(s, token, r))
  }

  lemma GoodStep(s: State, e: Event, token: string, until: int)
    requires Reachable(s) && Enabled(s, e) && Silent(e, token) && Good(s, token, until)
    ensures Good(Next(s, e), token, until)
  {
    assert Valid(Next(s, e), []) && [e][1..] == [] && Valid(s, [e]);
    TimeGoesOn(s, [e]);
    if Next(s, e).store.now < until {
      SafeStep(s, e, token, until);
    }
  }

  /** A granted token that is not at its key is gone for good. */
  lemma GoneForGood(s: State, e: Event, token: string)
    requires Reachable(s) && Enabled(s, e) && token in s.holders
    requires !s.store.Stores(s.holders[token].key, token)
    ensures !Next(s, e).store.Stores(s.holders[token].key, token)
  {
    ReachableInv(s);
    assert HolderSound(s, token);
    assert Dead(s, token);
    DeadStep(s, e, token);
  }

  lemma GoodOnceStep(s: State, e: Event, token: string, r: nat)
    requires Reachable(s) && Enabled(s, e) && Silent(e, token) && token in s.holders
    requires r in s.waiting && OwnRefresh(s, r, token) && GoodOnce(s, token, r)
    ensures token in Next(s, e).holders && OwnRefresh(Next(s, e), r, token) && GoodOnce(Next(s, e), token, r)
  {
    var n := Next(s, e);
    SilentHolder(s, e, token);
    ReachableRequests(s);
    assert n.requests[r] == s.requests[r];
    assert Valid(n, []) && [e][1..] == [] && Valid(s, [e]);
    TimeGoesOn(s, [e]);
    if !s.store.Stores(s.holders[token].key, token) {
      GoneForGood(s, e, token);
    } else if s.store.now < s.requests[r].LeaseEnd() {
      forall w | w in n.waiting ensures Reaches(n, w, token, s.requests[r].LeaseEnd()) {
        SilentRequests(s, e, token, w);
        if w in s.waiting { assert Reaches(s, w, token, s.requests[r].LeaseEnd()); }
      }
    }
  }

  /** A Refresh that is executed makes good what its reply will announce. */
  lemma NewReply(s: State, r: nat, token: string)
    requires Reachable(s) && Enabled(s, Execute(r)) && OwnRefresh(s, r, token)
    requires token in s.holders && s.holders[token].open && GoodOnce(s, token, r)
    ensures Executed(s, r).replies[r] ==> Good(Executed(s, r), token, s.requests[r].LeaseEnd())
  {
    var n, until := Executed(s, r), s.requests[r].LeaseEnd();
    OwnRequests(s, r, token);
    SentBefore(s, r);
    if n.replies[r] && s.store.now < until {
      forall w | w in n.waiting ensures Reaches(n, w, token, until) {
        assert Reaches(s, w, token, until);
      }
    }
  }

  lemma AllGoodStep(s: State, e: Event, token: string, until: int)
    requires Reachable(s) && Enabled(s, e) && Silent(e, token) && token in s.holders && AllGood(s, token, until)
    ensures token in Next(s, e).holders && Next(s, e).holders[token].key == s.holders[token].key
    ensures AllGood(Next(s, e), token, NextUntil(s, e, token, until))
  {
    var n := Next(s, e);
    SilentHolder(s, e, token);
    ReachableRequests(s);
    CurrentGood(s, e, token, until);
    forall r | r in n.replies && n.replies[r] && OwnRefresh(n, r, token)
      ensures Good(n, token, n.requests[r].LeaseEnd())
    {
      assert OwnRefresh(s, r, token) && n.requests[r] == s.requests[r];
      if e == Execute(r) {
        NewReply(s, r, token);
      } else {
        GoodStep(s, e, token, s.requests[r].LeaseEnd());
      }
    }
    forall r | r in n.waiting && OwnRefresh(n, r, token) ensures GoodOnce(n, token, r) {
      SilentRequests(s, e, token, r);
      GoodOnceStep(s, e, token, r);
    }
  }

  lemma CurrentGood(s: State, e: Event, token: string, until: int)
    requires Reachable(s) && Enabled(s, e) && Silent(e, token) && token in s.holders && AllGood(s, token, until)
    ensures Good(Next(s, e), token, NextUntil(s, e, token, until))
  {
    GoodStep(s, e, token, until);
    if e.Receive? {
      ReplyKnown(s, e.id);
      if s.replies[e.id] && OwnRefresh(s, e.id, token) {
        GoodStep(s, e, token, s.requests[e.id].LeaseEnd());
      }
    }
  }

  lemma {:induction false} AllGoodRun(s: State, events: seq<Event>, token: string, until: int)
    requires Reachable(s) && Valid(s, events) && Quiet(events, token) && token in s.holders && AllGood(s, token, until)
    ensures Run(s, events).store.now < ObviousLease(s, events, token, until) ==>
              Run(s, events).store.Stores(s.holders[token].key, token)
    decreases |events|
  {
    if events != [] {
      assert events[0] in events;
      AllGoodStep(s, events[0], token, until);
      ReachableNext(s, events[0]);
      AllGoodRun(Next(s, events[0]), events[1..], token, NextUntil(s, events[0], token, until));
    }
  }

  lemma {:induction false} DeliveriesTellNothing(s: State, events: seq<Event>, token: string, until: int)
    requires Valid(s, events) && Deliveries(events)
    ensures ObviousLease(s, events, token, until) == until
    decreases |events|
  {
    if events != [] {
      assert events[0] in events;
      DeliveriesTellNothing(Next(s, events[0]), events[1..], token, until);
    }
  }

  /** A lease that is not good can be broken. */
  lemma Breaks(s: State, token: string, until: int) returns (events: seq<Event>)
    requires Reachable(s) && token in s.holders && s.holders[token].open
    requires s.store.Stores(s.holders[token].key, token) && !AllGood(s, token, until)
    ensures Valid(s, events) && Quiet(events, token)
    ensures Run(s, events).store.now < ObviousLease(s, events, token, until)
    ensures !Run(s, events).store.Stores(s.holders[token].key, token)
  {
    if !Good(s, token, until) {
      events := NotKept(s, token, until);
      DeliveriesTellNothing(s, events, token, until);
    } else if r :| r in s.replies && s.replies[r] && OwnRefresh(s, r, token)
                   && !Good(s, token, s.requests[r].LeaseEnd()) {
      events := ReplyBreaks(s, r, token, until);
    } else {
      var r :| r in s.waiting && OwnRefresh(s, r, token) && !GoodOnce(s, token, r);
      var w :| w in s.waiting && !Reaches(s, w, token, s.requests[r].LeaseEnd());
      SentBefore(s, r);
      events := Overtaken(s, r, w, token, until);
    }
  }

  lemma SafeBefore(s: State, r: nat, token: string, until: int)
    requires Reachable(s) && Enabled(s, Receive(r)) && token in s.holders
    ensures Safe(Received(s, r), token, until) ==> Safe(s, token, until)
  {
    SilentHolder(s, Receive(r), token);
    if Safe(Received(s, r), token, until) {
      forall w | w in s.waiting ensures Reaches(s, w, token, until) {
        assert Reaches(Received(s, r), w, token, until);
      }
    }
  }

  lemma ReplyBreaks(s: State, r: nat, token: string, until: int) returns (events: seq<Event>)
    requires Reachable(s) && token in s.holders && s.holders[token].open
    requires s.store.Stores(s.holders[token].key, token)
    requires r in s.replies && s.replies[r] && OwnRefresh(s, r, token) && !Good(s, token, s.requests[r].LeaseEnd())
    ensures Valid(s, events) && Quiet(events, token)
    ensures Run(s, events).store.now < ObviousLease(s, events, token, until)
    ensures !Run(s, events).store.Stores(s.holders[token].key, token)
  {
    var n, end := Received(s, r), s.requests[r].LeaseEnd();
    ReachableNext(s, Receive(r));
    SilentHolder(s, Receive(r), token);
    SafeBefore(s, r, token, end);
    var rest := NotKept(n, token, end);
    DeliveriesTellNothing(n, rest, token, end);
    StepObvious(s, Receive(r), rest, token, until);
    events := [Receive(r)] + rest;
  }

  /** If the owner sends nothing more, the obvious lease of a stored, open handle is kept exactly if
      it and every lease a reply may still announce are safe. */
  lemma UnbrokenExactly(s: State, token: string, until: int)
    requires Reachable(s) && token in s.holders && s.holders[token].open
    requires s.store.Stores(s.holders[token].key, token)
    ensures Unbroken(s, token, until) <==> AllGood(s, token, until)
  {
    if AllGood(s, token, until) {
      forall events | Valid(s, events) && Quiet(events, token)
                      && Run(s, events).store.now < ObviousLease(s, events, token, until)
        ensures Run(s, events).store.Stores(s.holders[token].key, token)
      {
        AllGoodRun(s, events, token, until);
      }
    } else {
      var events := Breaks(s, token, until);
      assert !Run(s, events).store.Stores(s.holders[token].key, token);
    }
  }

  /** On top of an obvious lease that is kept if nothing is sent, one more Refresh breaks it in some
      run exactly if a Refresh on its way is shorter or lasts longer, or a positive reply on its way
      announces more. */
  lemma SendExactly(s: State, token: string, id: nat, ttl: int, until: int)
    requires Reachable(s) && token in s.holders && s.holders[token].open
    requires s.store.Stores(s.holders[token].key, token) && Unbroken(s, token, until)
    requires Enabled(s, SendExtend(id, token, ttl))
    ensures var e := SendExtend(id, token, ttl);
      Unbroken(Next(s, e), token, NextUntil(s, e, token, until))
      <==> forall c :: OwnRefresh(s, c, token) ==> SafeBeside(s, c, ttl)
  {
    var e := SendExtend(id, token, ttl);
    var n, u := Next(s, e), NextUntil(s, e, token, until);
    ReachableNext(s, e);
    UnbrokenExactly(s, token, until);
    if c :| OwnRefresh(s, c, token) && !SafeBeside(s, c, ttl) {
      var events := SentBeside(s, token, c, id, ttl, until);
      assert !Run(n, events).store.Stores(s.holders[token].key, token);
    } else {
      SendKeepsGood(s, token, id, ttl, until);
      UnbrokenExactly(n, token, u);
    }
  }

  lemma SendKeepsGood(s: State, token: string, id: nat, ttl: int, until: int)
    requires Reachable(s) && token in s.holders && s.store.Stores(s.holders[token].key, token)
    requires Enabled(s, SendExtend(id, token, ttl)) && AllGood(s, token, until)
    requires forall c :: OwnRefresh(s, c, token) ==> SafeBeside(s, c, ttl)
    ensures var e := SendExtend(id, token, ttl); AllGood(Next(s, e), token, NextUntil(s, e, token, until))
  {
    var e := SendExtend(id, token, ttl);
    var n, u := Next(s, e), NextUntil(s, e, token, until);
    ReachableRequests(s);
    SentGood(s, token, id, ttl, until, u);
    forall r | r in n.replies && n.replies[r] && OwnRefresh(n, r, token)
      ensures Good(n, token, n.requests[r].LeaseEnd())
    {
      assert n.requests[r] == s.requests[r] && SafeBeside(s, r, ttl);
      SentGood(s, token, id, ttl, s.requests[r].LeaseEnd(), s.requests[r].LeaseEnd());
    }
    forall r | r in n.waiting && OwnRefresh(n, r, token) ensures GoodOnce(n, token, r) {
      forall w | w in n.waiting && n.store.now < n.requests[r].LeaseEnd()
        ensures Reaches(n, w, token, n.requests[r].LeaseEnd())
      {
        if r != id {
          assert SafeBeside(s, r, ttl) && GoodOnce(s, token, r);
          if w != id { assert Reaches(s, w, token, s.requests[r].LeaseEnd()); }
        } else if w != id && OwnRefresh(s, w, token) {
          assert SafeBeside(s, w, ttl);
        }
      }
    }
  }

  /** A lease that ends no later than the new Refresh stays good. */
  lemma SentGood(s: State, token: string, id: nat, ttl: int, until: int, u: int)
    requires RequestsSound(s) && Good(s, token, until) && Enabled(s, SendExtend(id, token, ttl))
    requires u <= until && u <= s.store.now + Truncated(ttl)
    ensures Good(Next(s, SendExtend(id, token, ttl)), token, u)
  {
    var n := Next(s, SendExtend(id, token, ttl));
    if s.store.now < u {
      forall w | w in n.waiting ensures Reaches(n, w, token, u) {
        if w != id { assert Reaches(s, w, token, until); }
      }
    }
  }

  // ---------------------------------------------------------------------------------------------
  // Exactly when it is a lease
  // ---------------------------------------------------------------------------------------------

  ghost predicate Uses(events: seq<Event>, token: string, ttls: iset<int>) {
    forall e :: e in events && e.SendExtend? && e.token == token ==> e.ttl in ttls
  }

  /** While the obvious lease runs, the token is at its key. */
  predicate Respected(s: State, events: seq<Event>, token: string)
    requires Valid(s, events)
  {
    var n := Run(s, events);
    token in n.holders && n.holders[token].open && n.store.now < ObviousLease(s, events, token, s.store.now) ==>
      n.store.Stores(n.holders[token].key, token)
  }

  /** For owners that refresh with these ttls the obvious lease is respected in every run. */
  ghost predicate ObviousLeaseWorks(ttls: iset<int>) {
    forall s, events, token :: Initial(s) && Valid(s, events) && Uses(events, token, ttls) ==>
      Respected(s, events, token)
  }

  ghost predicate OneSpan(ttls: iset<int>) {
    forall a, b :: a in ttls && b in ttls && 0 < a && 0 < b ==> Truncated(a) == Truncated(b)
  }

  /** What was sent so far has the ttls, and an unanswered claim is a Refresh. */
  ghost predicate SentWith(s: State, token: string, ttls: iset<int>) {
    && (forall id :: id in s.requests && s.requests[id].Extend? && s.requests[id].token == token ==>
          s.requests[id].ttl in ttls)
    && (token in s.holders ==> forall c :: c in s.holders[token].claims ==> RefreshOrAnswered(s, token, c))
  }

  predicate RefreshOrAnswered(s: State, token: string, c: nat)
    requires token in s.holders
  {
    c in s.requests && s.requests[c].token == token && (s.requests[c].Extend? || c in s.holders[token].answered)
  }

  lemma SentWithStep(s: State, e: Event, token: string, ttls: iset<int>)
    requires Reachable(s) && Enabled(s, e) && SentWith(s, token, ttls)
    requires e.SendExtend? && e.token == token ==> e.ttl in ttls
    ensures SentWith(Next(s, e), token, ttls)
  {
    var n := Next(s, e);
    ReachableRequests(s);
    if e.Receive? { ReplyKnown(s, e.id); }
    if token in n.holders {
      forall c | c in n.holders[token].claims ensures RefreshOrAnswered(n, token, c) {
        if token in s.holders && c in s.holders[token].claims { assert RefreshOrAnswered(s, token, c); }
      }
    }
  }

  lemma OneSpanSteady(s: State, token: string, ttl: int, ttls: iset<int>)
    requires Reachable(s) && SentWith(s, token, ttls) && OneSpan(ttls) && token in s.holders
    requires 0 < ttl && ttl in ttls
    ensures SteadySend(s, token, ttl)
  {
    forall c | c in s.holders[token].claims && c !in s.holders[token].answered ensures SteadyAfter(s, c, ttl) {
      assert RefreshOrAnswered(s, token, c);
      SentBefore(s, c);
    }
  }

  lemma {:induction false} OneSpanRun(s: State, events: seq<Event>, token: string, ttls: iset<int>)
    requires Reachable(s) && Valid(s, events) && SentWith(s, token, ttls) && Uses(events, token, ttls) && OneSpan(ttls)
    ensures Steady(s, events, token)
    decreases |events|
  {
    if events != [] {
      var e := events[0];
      assert e in events;
      if e.SendExtend? && e.token == token {
        OneSpanSteady(s, token, e.ttl, ttls);
      }
      SentWithStep(s, e, token, ttls);
      ReachableNext(s, e);
      OneSpanRun(Next(s, e), events[1..], token, ttls);
    }
  }

  /** The obvious lease is a lease, whatever is late or lost, exactly for owners whose Refreshes all
      ask for the same number of milliseconds. */
  lemma ObviousLeaseExactly(ttls: iset<int>)
    ensures ObviousLeaseWorks(ttls) <==> OneSpan(ttls)
  {
    if OneSpan(ttls) {
      forall s, events, token | Initial(s) && Valid(s, events) && Uses(events, token, ttls)
        ensures Respected(s, events, token)
      {
        OneSpanWorks(s, events, token, ttls);
      }
    } else {
      var a, b :| a in ttls && b in ttls && 0 < a && 0 < b && Truncated(a) < Truncated(b);
      var s, events := ObviousLeaseFails(a, b);
      assert Initial(s) && Valid(s, events) && Uses(events, "a", ttls);
      InitialReachable(s);
      ReachableRun(s, events);
      HeldIsStored(Run(s, events), "b");
      assert !Respected(s, events, "a");
    }
  }

  lemma OneSpanWorks(s: State, events: seq<Event>, token: string, ttls: iset<int>)
    requires Initial(s) && Valid(s, events) && Uses(events, token, ttls) && OneSpan(ttls)
    ensures Respected(s, events, token)
  {
    var n := Run(s, events);
    InitialReachable(s);
    OneSpanRun(s, events, token, ttls);
    if token in n.holders && n.holders[token].open && n.store.now < ObviousLease(s, events, token, s.store.now) {
      SteadyLeaseSafe(s, events, token);
      ReachableRun(s, events);
      HeldIsStored(n, token);
    }
  }

  function Start(): State {
    State(Store(0, map[]), {}, map[], {}, map[], map[], {}, map[], map[])
  }

  /** "a" holds "k". */
  function Locked(): State {
    State(Store(0, map["k" := Entry("a", Some(MILLISECOND))]), {"a"}, map[0 := Acquire("k", "a", 0, MILLISECOND)],
          {}, map[], map["a" := Holder("k", true, {0}, {0}, 0)], {0}, map["a" := 0], map["a" := 0])
  }

  lemma Locking() returns (events: seq<Event>)
    ensures Valid(Start(), events) && Run(Start(), events) == Locked()
    ensures forall e :: e in events ==> !e.SendExtend?
  {
    var s1 := Next(Start(), SendAcquire(0, "k", "a", MILLISECOND));
    var s2 := Next(s1, Execute(0));
    assert s2.store == Locked().store && s2.requests == Locked().requests;
    assert Next(s2, Receive(0)) == Locked();
    Step(s2, Receive(0), []);
    Step(s1, Execute(0), [Receive(0)] + []);
    events := [SendAcquire(0, "k", "a", MILLISECOND)] + ([Execute(0)] + ([Receive(0)] + []));
    Step(Start(), SendAcquire(0, "k", "a", MILLISECOND), [Execute(0)] + ([Receive(0)] + []));
  }

  /** It has sent a Refresh. */
  lemma Refreshing(ttl: int) returns (events: seq<Event>)
    requires 0 < ttl
    ensures Valid(Start(), events) && forall e :: e in events && e.SendExtend? ==> e.ttl == ttl
    ensures Run(Start(), events) == Next(Locked(), SendExtend(1, "a", ttl))
  {
    var before := Locking();
    var send := SendExtend(1, "a", ttl);
    Step(Locked(), send, []);
    RunJoin(Start(), before, [send] + []);
    events := before + ([send] + []);
  }

  /** A shorter Refresh overtaken by a longer one: the longer is answered, the shorter executed last.
      The obvious lease of "a" still runs while "b" holds the key. */
  lemma ObviousLeaseFails(short: int, long: int) returns (s: State, events: seq<Event>)
    requires 0 < short && 0 < long && Truncated(short) < Truncated(long)
    ensures Initial(s) && Valid(s, events) && Uses(events, "a", iset{short, long})
    ensures var n := Run(s, events);
      && Holds(n, "b") && n.holders["b"].key == "k"
      && "a" in n.holders && n.holders["a"].key == "k" && n.holders["a"].open
      && n.store.now < ObviousLease(s, events, "a", s.store.now)
  {
    s := Start();
    var before := Refreshing(short);
    var m := Run(s, before);
    InitialReachable(s);
    ReachableRun(s, before);
    assert m.requests[1] == Extend("k", "a", 0, short, {0}) && m.store.Stores("k", "a");
    assert !SafeBeside(m, 1, long);
    var after := UnsteadyFails(m, "a", 1, 2, long, 3, "b", ObviousLease(s, before, "a", s.store.now));
    ObviousJoin(s, before, after, "a", s.store.now);
    events := before + after;
  }
}
