/**
 cache/json.go: the JSON helpers, and RememberJSON as a protocol of many concurrent callers.

 Encoding is a parameter; the source of truth behind `load` changes while calls are under way.
 Whoever else uses Redis is free on every other key.
 */
module CacheAside {
  import opened Options
  import opened Redis

  /** What json.Marshal refuses encodes to None. */
  datatype Codec = Codec(encode: string -> Option<string>, decode: string -> Option<string>)

  ghost predicate RoundTrips(c: Codec) {
    forall v :: c.encode(v).Some? ==> c.decode(c.encode(v).value) == Some(v)
  }

  // ---------------------------------------------------------------------------------------------
  // The operations
  // ---------------------------------------------------------------------------------------------

  datatype Error = CacheMiss | Transport | Malformed | LoadFailed | Unencodable

  method SetJSON(client: Server, c: Codec, key: string, value: string, ttl: int, d: Delivery)
    returns (err: Option<Error>)
    modifies client
    ensures err == Some(Unencodable) <==> c.encode(value).None?
    ensures c.encode(value).Some? ==> err == if d.Answered? then None else Some(Transport)
    ensures d.RequestLost? || c.encode(value).None? ==> client.store == old(client.store)
    ensures !d.RequestLost? && c.encode(value).Some? ==>
              client.store == old(client.store).(entries := old(client.store).entries
                [key := Entry(c.encode(value).value, ExpiryOfSet(old(client.store), key, ttl))])
  {
    if c.encode(value).None? {
      return Some(Unencodable);
    }
    var r := client.Call(Set(key, c.encode(value).value, ttl), d);
    return if r.None? then Some(Transport) else None;
  }

  method GetJSON(client: Server, c: Codec, key: string, d: Delivery)
    returns (v: string, err: Option<Error>)
    modifies client
    ensures client.store == old(client.store)
    ensures err == Some(Transport) <==> !d.Answered?
    ensures err == Some(CacheMiss) <==> d.Answered? && !client.store.Live(key)
    ensures err.None? <==> d.Answered? && client.store.Live(key)
                           && c.decode(client.store.entries[key].value) == Some(v)
    ensures err == Some(Malformed) ==> d.Answered? && client.store.Live(key)
                                       && c.decode(client.store.entries[key].value).None?
    ensures err.None? || (err.value in {CacheMiss, Transport, Malformed} && v == "")
  {
    v := "";
    var r := client.Call(Get(key), d);
    if r.None? {
      return v, Some(Transport);
    }
    if r.value.found.None? {
      return v, Some(CacheMiss);
    }
    var out := c.decode(r.value.found.value);
    if out.None? {
      return v, Some(Malformed);
    }
    return out.value, None;
  }

  /** `load` is what the caller's function yields (None: it fails), `meanwhile` the store when it
      is done.  Without an error the value is either what the cache held or what was loaded, and in
      the latter case it is stored. */
  method RememberJSON(client: Server, c: Codec, key: string, ttl: int, load: Option<string>,
                      meanwhile: Store, fetch: Delivery, save: Delivery)
    returns (v: string, err: Option<Error>)
    requires client.store.now <= meanwhile.now
    modifies client
    ensures
      var hit := fetch.Answered? && old(client.store).Live(key)
                 && c.decode(old(client.store).entries[key].value).Some?;
      var miss := fetch.Answered? && !old(client.store).Live(key);
      && (err.None? <==> hit || (miss && load.Some? && c.encode(load.value).Some? && save.Answered?))
      && (!fetch.Answered? ==> err == Some(Transport))
      && (fetch.Answered? && !miss && !hit ==> err == Some(Malformed))
      && (miss && load.None? ==> err == Some(LoadFailed))
      && (miss && load.Some? && c.encode(load.value).None? ==> err == Some(Unencodable))
      && (miss && load.Some? && c.encode(load.value).Some? && !save.Answered? ==> err == Some(Transport))
      && (!hit && !miss ==> v == "")
      && (hit ==> c.decode(old(client.store).entries[key].value) == Some(v))
      && (!miss ==> client.store == old(client.store))
      && (miss && load.Some? ==> v == load.value)
      && (miss && (load.None? || c.encode(load.value).None? || save.RequestLost?) ==> client.store == meanwhile)
      && (miss && load.Some? && c.encode(v).Some? && !save.RequestLost? ==>
            client.store == meanwhile.(entries := meanwhile.entries
              [key := Entry(c.encode(v).value, ExpiryOfSet(meanwhile, key, ttl))]))
  {
    v, err := GetJSON(client, c, key, fetch);
    if err.None? {
      return v, None;
    }
    if err != Some(CacheMiss) {
      return v, err;
    }
    client.Elapse(meanwhile);
    if load.None? {
      return "", Some(LoadFailed);
    }
    v := load.value;
    err := SetJSON(client, c, key, v, ttl, save);
  }

  // ---------------------------------------------------------------------------------------------
  // The protocol
  // ---------------------------------------------------------------------------------------------

  /** `delay` bounds the time from reading the source to the SET being executed. */
  datatype Params = Params(key: string, ttl: int, delay: nat, codec: Codec)

  datatype Outcome = Hit(value: string, at: int) | Fresh(value: string) | Failed

  /** One call of RememberJSON: GET sent, missed, loaded at a time, finished. */
  datatype Phase = Asked | Missed | Loaded(value: string, at: int) | Finished(outcome: Outcome)

  /** `seen` is history: every value read from the source, and when. */
  datatype State = State(store: Store, source: string, calls: map<nat, Phase>, seen: set<(string, int)>)

  datatype Event =
    | Tick(d: nat)
    | Change(source: string)
    | Elsewhere(key: string, entry: Option<Entry>)
    | Start(id: nat)
    | ServeGet(id: nat)
    | Load(id: nat)
    | ServeSet(id: nat, answered: bool)
    | Fail(id: nat)

  predicate Enabled(p: Params, s: State, e: Event) {
    match e
    case Tick(_) => true
    case Change(_) => true
    case Elsewhere(k, _) => k != p.key
    case Start(id) => id !in s.calls
    case ServeGet(id) => id in s.calls && s.calls[id].Asked?
    case Load(id) => id in s.calls && s.calls[id].Missed?
    case ServeSet(id, _) =>
      id in s.calls && s.calls[id].Loaded? && s.store.now <= s.calls[id].at + p.delay
    case Fail(id) => id in s.calls && !s.calls[id].Finished?
  }

  function Next(p: Params, s: State, e: Event): State
    requires Enabled(p, s, e)
  {
    match e
    case Tick(d) => s.(store := s.store.(now := s.store.now + d))
    case Change(v) => s.(source := v)
    case Elsewhere(k, entry) =>
      s.(store := s.store.(entries :=
        if entry.Some? then s.store.entries[k := entry.value] else s.store.entries - {k}))
    case Start(id) => s.(calls := s.calls[id := Asked])
    case ServeGet(id) =>
      var (store, reply) := Serve(s.store, Get(p.key));
      var phase :=
        if reply.found.None? then Missed
        else
          var out := p.codec.decode(reply.found.value);
          Finished(if out.None? then Failed else Hit(out.value, s.store.now));
      s.(store := store, calls := s.calls[id := phase])
    case Load(id) =>
      s.(calls := s.calls[id := Loaded(s.source, s.store.now)],
         seen := s.seen + {(s.source, s.store.now)})
    case ServeSet(id, answered) =>
      var v := s.calls[id].value;
      if p.codec.encode(v).None? then s.(calls := s.calls[id := Finished(Failed)])
      else
        s.(store := Serve(s.store, Set(p.key, p.codec.encode(v).value, p.ttl)).0,
           calls := s.calls[id := Finished(if answered then Fresh(v) else Failed)])
    case Fail(id) => s.(calls := s.calls[id := Finished(Failed)])
  }

  predicate Initial(p: Params, s: State) {
    !s.store.Live(p.key) && s.calls == map[] && s.seen == {}
  }

  predicate Valid(p: Params, s: State, events: seq<Event>)
    decreases |events|
  {
    events == [] || (Enabled(p, s, events[0]) && Valid(p, Next(p, s, events[0]), events[1..]))
  }

  function Run(p: Params, s: State, events: seq<Event>): State
    requires Valid(p, s, events)
    decreases |events|
  {
    if events == [] then s else Run(p, Next(p, s, events[0]), events[1..])
  }

  /** The value was read from the source at some time t, and `until` is within what is allowed. */
  ghost predicate ReadSince(s: State, v: string, from: int, until: int) {
    exists t :: (v, t) in s.seen && from < t <= until
  }

  ghost predicate CallSound(p: Params, s: State, c: Phase) {
    match c
    case Loaded(v, at) => (v, at) in s.seen && at <= s.store.now
    case Finished(Hit(v, at)) =>
      && (exists t :: (v, t) in s.seen && t <= at)
      && (0 < p.ttl ==> ReadSince(s, v, at - p.delay - Lifetime(p.ttl), at))
    case _ => true
  }

  ghost predicate EntrySound(p: Params, s: State) {
    s.store.Live(p.key) ==>
      exists v, t :: (v, t) in s.seen && t <= s.store.now
        && Some(s.store.entries[p.key].value) == p.codec.encode(v)
        && (0 < p.ttl ==>
              s.store.entries[p.key].expiry.Some?
              && s.store.entries[p.key].expiry.value <= t + p.delay + Lifetime(p.ttl))
  }

  ghost predicate Inv(p: Params, s: State) {
    EntrySound(p, s) && forall id :: id in s.calls ==> CallSound(p, s, s.calls[id])
  }

  lemma NextInv(p: Params, s: State, e: Event)
    requires RoundTrips(p.codec) && Inv(p, s) && Enabled(p, s, e)
    ensures Inv(p, Next(p, s, e))
  {
    var n := Next(p, s, e);
    assert s.seen <= n.seen;
    EntryStep(p, s, e);
    forall id | id in n.calls ensures CallSound(p, n, n.calls[id]) {
      if id in s.calls { assert CallSound(p, s, s.calls[id]); }
      if e == ServeGet(id) && s.store.Live(p.key) {
        var v, t :| (v, t) in s.seen && t <= s.store.now && Some(s.store.entries[p.key].value) == p.codec.encode(v)
          && (0 < p.ttl ==>
                s.store.entries[p.key].expiry.Some?
                && s.store.entries[p.key].expiry.value <= t + p.delay + Lifetime(p.ttl));
        assert p.codec.decode(p.codec.encode(v).value) == Some(v);
        assert (v, t) in n.seen;
      }
    }
  }

  lemma EntryStep(p: Params, s: State, e: Event)
    requires Inv(p, s) && Enabled(p, s, e)
    ensures EntrySound(p, Next(p, s, e))
  {
    var n := Next(p, s, e);
    match e
    case ServeSet(id, _) =>
      var v, at := s.calls[id].value, s.calls[id].at;
      assert CallSound(p, s, s.calls[id]);
      assert (v, at) in n.seen;
    case _ =>
      if n.store.Live(p.key) {
        assert n.store.entries[p.key] == s.store.entries[p.key];
      }
  }

  lemma {:induction false} RunInv(p: Params, s: State, events: seq<Event>)
    requires RoundTrips(p.codec) && Inv(p, s) && Valid(p, s, events)
    ensures Inv(p, Run(p, s, events))
    decreases |events|
  {
    if events != [] {
      NextInv(p, s, events[0]);
      RunInv(p, Next(p, s, events[0]), events[1..]);
    }
  }

  /** Every hit, in every interleaving, returns a value the source had less than ttl + delay ago
      (a ttl below one millisecond counts as one millisecond). */
  lemma BoundedStaleness(p: Params, s: State, events: seq<Event>, id: nat)
    requires RoundTrips(p.codec) && 0 < p.ttl
    requires Initial(p, s) && Valid(p, s, events)
    requires id in Run(p, s, events).calls
    requires Run(p, s, events).calls[id].Finished? && Run(p, s, events).calls[id].outcome.Hit?
    ensures
      var hit := Run(p, s, events).calls[id].outcome;
      && ReadSince(Run(p, s, events), hit.value, hit.at - p.delay - Lifetime(p.ttl), hit.at)
      && (MILLISECOND <= p.ttl ==> ReadSince(Run(p, s, events), hit.value, hit.at - p.delay - p.ttl, hit.at))
  {
    RunInv(p, s, events);
    assert CallSound(p, Run(p, s, events), Run(p, s, events).calls[id]);
  }

  ghost predicate AllSeen(s: State, v: string) {
    && s.source == v
    && (forall r :: r in s.seen ==> r.0 == v)
    && (forall id :: id in s.calls && s.calls[id].Loaded? ==> s.calls[id].value == v)
    && (forall id :: id in s.calls && s.calls[id].Finished? && s.calls[id].outcome.Fresh? ==>
          s.calls[id].outcome.value == v)
  }

  lemma {:induction false} ConstantRun(p: Params, s: State, events: seq<Event>, v: string)
    requires Valid(p, s, events) && AllSeen(s, v)
    requires forall e :: e in events ==> !e.Change?
    ensures AllSeen(Run(p, s, events), v)
    decreases |events|
  {
    if events != [] {
      assert events[0] in events;
      ConstantRun(p, Next(p, s, events[0]), events[1..], v);
    }
  }

  /** While the source does not change, the cache cannot be told from loading directly. */
  lemma ConstantSource(p: Params, s: State, events: seq<Event>, id: nat)
    requires RoundTrips(p.codec) && Initial(p, s) && Valid(p, s, events)
    requires forall e :: e in events ==> !e.Change?
    requires id in Run(p, s, events).calls
    requires Run(p, s, events).calls[id].Finished? && !Run(p, s, events).calls[id].outcome.Failed?
    ensures Run(p, s, events).calls[id].outcome.value == s.source
  {
    ConstantRun(p, s, events, s.source);
    RunInv(p, s, events);
    assert CallSound(p, Run(p, s, events), Run(p, s, events).calls[id]);
  }

  lemma Cons(p: Params, s: State, e: Event, rest: seq<Event>)
    requires Enabled(p, s, e) && Valid(p, Next(p, s, e), rest)
    ensures Valid(p, s, [e] + rest) && Run(p, s, [e] + rest) == Run(p, Next(p, s, e), rest)
  {
    assert ([e] + rest)[1..] == rest;
  }

  /** The ttl is what bounds staleness: without a positive one a hit can be as old as you like. */
  lemma UnboundedWithoutTtl(p: Params, age: nat) returns (s: State, events: seq<Event>)
    requires RoundTrips(p.codec) && p.ttl <= 0 && p.codec.encode("old").Some?
    ensures Initial(p, s) && Valid(p, s, events)
    ensures 1 in Run(p, s, events).calls && Run(p, s, events).calls[1] == Finished(Hit("old", age))
    ensures Run(p, s, events).source == "new"
    ensures !ReadSince(Run(p, s, events), "old", 0, age)
  {
    s := State(Store(0, map[]), "old", map[], {});
    var v := p.codec.encode("old").value;
    assert p.codec.decode(v) == Some("old");
    var s1 := Next(p, s, Start(0));
    var s2 := Next(p, s1, ServeGet(0));
    var s3 := Next(p, s2, Load(0));
    var s4 := Next(p, s3, ServeSet(0, true));
    var s5 := Next(p, s4, Change("new"));
    var s6 := Next(p, s5, Tick(age));
    assert s6.store.Read(p.key) == Some(v);
    var s7 := Next(p, s6, Start(1));
    var s8 := Next(p, s7, ServeGet(1));
    assert s8.seen == {("old", 0)};
    assert s8.calls[1] == Finished(Hit("old", age));
    Cons(p, s7, ServeGet(1), []);
    Cons(p, s6, Start(1), [ServeGet(1)]);
    var tail := [Tick(age)] + ([Start(1)] + [ServeGet(1)]);
    Cons(p, s5, Tick(age), [Start(1)] + [ServeGet(1)]);
    Cons(p, s4, Change("new"), tail);
    Cons(p, s3, ServeSet(0, true), [Change("new")] + tail);
    Cons(p, s2, Load(0), [ServeSet(0, true)] + ([Change("new")] + tail));
    Cons(p, s1, ServeGet(0), [Load(0)] + ([ServeSet(0, true)] + ([Change("new")] + tail)));
    Cons(p, s, Start(0), [ServeGet(0)] + ([Load(0)] + ([ServeSet(0, true)] + ([Change("new")] + tail))));
    events := [Start(0)] + ([ServeGet(0)] + ([Load(0)] + ([ServeSet(0, true)] + ([Change("new")] + tail))));
  }
}
