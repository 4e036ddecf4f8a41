/**
 session/session.go: one-time OAuth states and the token blacklist, two key families in one store.

 The hash is a parameter: hexadecimal, never empty, no two inputs alike.
 */
module Session {
  import opened Options
  import opened Redis
  import opened Text

  datatype Config = Config(keyPrefix: string, stateTtl: int, blacklistPrefix: string)

  const TEN_MINUTES := 600_000 * MILLISECOND
  const ONE_DAY := 86_400_000 * MILLISECOND

  /** NewManager's defaults; `stateTtl` is the parsed duration, with what does not parse as 0. */
  function WithDefaults(c: Config): Config {
    var prefix := if c.keyPrefix == "" then "aisphere:session" else c.keyPrefix;
    Config(prefix,
           if c.stateTtl <= 0 then TEN_MINUTES else c.stateTtl,
           if c.blacklistPrefix == "" then prefix + ":blacklist" else c.blacklistPrefix)
  }

  predicate IsHex(c: char) {
    '0' <= c <= '9' || 'a' <= c <= 'f'
  }

  ghost predicate IsHash(hash: string -> string) {
    && (forall s :: hash(s) != "")
    && (forall s, c :: c in hash(s) ==> IsHex(c))
    && (forall s, t :: hash(s) == hash(t) ==> s == t)
  }

  function StatePrefix(c: Config): string {
    TrimSuffix(c.keyPrefix, ':') + ":oauth_state:"
  }

  function RevokedPrefix(c: Config): string {
    TrimSuffix(c.blacklistPrefix, ':') + ":"
  }

  function StateKey(c: Config, state: string): string {
    StatePrefix(c) + state
  }

  function RevokedKey(c: Config, hash: string -> string, token: string): string {
    RevokedPrefix(c) + hash(token)
  }

  /** The text of the keys: a colon at the end of a prefix makes no difference. */
  lemma KeyTexts(prefix: string, c: Config, hash: string -> string, text: string)
    requires !EndsIn(prefix, ':')
    ensures c.keyPrefix in [prefix, prefix + ":"] ==> StateKey(c, text) == prefix + ":oauth_state:" + text
    ensures c.blacklistPrefix in [prefix, prefix + ":"] ==> RevokedKey(c, hash, text) == prefix + ":" + hash(text)
  {
    assert (prefix + ":")[..|prefix|] == prefix;
  }

  // ---------------------------------------------------------------------------------------------
  // The two key families
  // ---------------------------------------------------------------------------------------------

  /** Whether an OAuth state, as it arrives from outside, can name a blacklist key. */
  predicate Separated(c: Config) {
    !(StatePrefix(c) <= RevokedPrefix(c))
  }

  /** The families can meet exactly when the state prefix begins the blacklist prefix; then every
      revocation can be deleted by verifying a suitable state. */
  lemma FamiliesMeet(c: Config, hash: string -> string, token: string)
    requires IsHash(hash)
    ensures Separated(c) <==> forall st :: StateKey(c, st) != RevokedKey(c, hash, token)
    ensures !Separated(c) ==>
              exists st :: !Blank(st) && forall s: Store ::
                !Serve(s, GetDel(StateKey(c, st))).0.Live(RevokedKey(c, hash, token))
  {
    var p, b, h := StatePrefix(c), RevokedPrefix(c), hash(token);
    if !Separated(c) {
      var st := b[|p|..] + h;
      assert StateKey(c, st) == RevokedKey(c, hash, token);
      assert h[0] in st && IsHex(h[0]);
    } else {
      forall st ensures StateKey(c, st) != RevokedKey(c, hash, token) {
        StateNamesNoHash(c, hash, token, st);
      }
    }
  }

  lemma StateNamesNoHash(c: Config, hash: string -> string, token: string, st: string)
    requires IsHash(hash) && Separated(c)
    ensures StateKey(c, st) != RevokedKey(c, hash, token)
  {
    var p, b, h := StatePrefix(c), RevokedPrefix(c), hash(token);
    assert (p + st)[..|p|] == p;
    if |b| < |p| {
      var i := |p| - 1;
      assert (p + st)[i] == ':';
      if i < |b + h| {
        assert (b + h)[i] == h[i - |b|];
        assert IsHex(h[i - |b|]);
      }
    } else {
      assert (b + h)[..|p|] == b[..|p|];
    }
  }

  /** Without a blacklist prefix of its own, every key prefix keeps the families apart. */
  lemma DefaultsSeparated(c: Config)
    requires c.blacklistPrefix == ""
    ensures Separated(WithDefaults(c))
  {
    var d := WithDefaults(c);
    var p, b := StatePrefix(d), RevokedPrefix(d);
    var k := TrimSuffix(d.keyPrefix, ':');
    assert TrimSuffix(d.blacklistPrefix, ':') == d.keyPrefix + ":blacklist";
    assert p[|k| + 1] == 'o';
    if d.keyPrefix == k {
      assert b[|k| + 1] == 'b';
    } else {
      assert d.keyPrefix == k + ":";
      assert b[|k| + 1] == ':';
    }
  }

  lemma StateKeyInjective(c: Config, s: string, t: string)
    ensures StateKey(c, s) == StateKey(c, t) <==> s == t
  {
    assert StateKey(c, s)[|StatePrefix(c)|..] == s;
    assert StateKey(c, t)[|StatePrefix(c)|..] == t;
  }

  lemma RevokedKeyInjective(c: Config, hash: string -> string, s: string, t: string)
    requires IsHash(hash)
    ensures RevokedKey(c, hash, s) == RevokedKey(c, hash, t) <==> s == t
  {
    assert RevokedKey(c, hash, s)[|RevokedPrefix(c)|..] == hash(s);
    assert RevokedKey(c, hash, t)[|RevokedPrefix(c)|..] == hash(t);
  }

  // ---------------------------------------------------------------------------------------------
  // The operations
  // ---------------------------------------------------------------------------------------------

  datatype Error = NilRedis | NoRandom | Transport | StateMismatch

  class Manager {
    const rdb: Server?
    const cfg: Config
    const hash: string -> string

    constructor (rdb: Server?, cfg: Config, hash: string -> string)
      ensures this.rdb == rdb && this.cfg == WithDefaults(cfg) && this.hash == hash
      // What is configured is kept; the rest is ten minutes, and prefixes derived from the key prefix.
      ensures this.cfg.stateTtl == if 0 < cfg.stateTtl then cfg.stateTtl else 600_000_000_000
      ensures cfg.keyPrefix != "" ==> this.cfg.keyPrefix == cfg.keyPrefix
      ensures cfg.keyPrefix == "" ==> this.cfg.keyPrefix == "aisphere:session"
      ensures cfg.blacklistPrefix != "" ==> this.cfg.blacklistPrefix == cfg.blacklistPrefix
      ensures cfg.blacklistPrefix == "" ==> this.cfg.blacklistPrefix == this.cfg.keyPrefix + ":blacklist"
      ensures cfg.blacklistPrefix == "" ==> Separated(this.cfg)
    {
      this.rdb, this.cfg, this.hash := rdb, WithDefaults(cfg), hash;
      if cfg.blacklistPrefix == "" {
        DefaultsSeparated(cfg);
      }
    }

    /** `random` is the new state, None when the random source fails. */
    method NewState(subject: string, random: Option<string>, d: Delivery)
      returns (state: string, err: Option<Error>)
      requires 0 < cfg.stateTtl
      modifies rdb
      ensures rdb == null ==> err == Some(NilRedis)
      ensures err.Some? ==> state == ""
      ensures rdb != null && random.None? ==> err == Some(NoRandom) && rdb.store == old(rdb.store)
      ensures rdb != null && random.Some? ==>
                && (err == if d.Answered? then None else Some(Transport))
                && (err.None? ==> state == random.value)
                && rdb.store == if d.RequestLost? then old(rdb.store) else
                     old(rdb.store).(entries := old(rdb.store).entries[StateKey(cfg, random.value) :=
                       Entry(subject, Some(old(rdb.store).now + Lifetime(cfg.stateTtl)))])
    {
      if rdb == null {
        return "", Some(NilRedis);
      }
      if random.None? {
        return "", Some(NoRandom);
      }
      var r := rdb.Call(Set(StateKey(cfg, random.value), subject, cfg.stateTtl), d);
      if r.None? {
        return "", Some(Transport);
      }
      return random.value, None;
    }

    /** Success hands out what was stored and takes it away, for good and for every other caller. */
    method VerifyState(state: string, d: Delivery) returns (subject: string, err: Option<Error>)
      modifies rdb
      ensures rdb == null ==> err == Some(NilRedis)
      ensures err.Some? ==> subject == ""
      ensures rdb != null && Blank(state) ==> err == Some(StateMismatch) && rdb.store == old(rdb.store)
      ensures rdb != null && !Blank(state) ==>
                var key := StateKey(cfg, state);
                && (err.None? <==> d.Answered? && old(rdb.store).Live(key))
                && (err.None? ==> old(rdb.store).Stores(key, subject))
                && (err == Some(StateMismatch) <==> d.Answered? && !old(rdb.store).Live(key))
                && (err == Some(Transport) <==> !d.Answered?)
                && (!d.RequestLost? ==> !rdb.store.Live(key))
                && (d.RequestLost? || !old(rdb.store).Live(key) ==> rdb.store == old(rdb.store))
                && (forall k :: k != key ==> rdb.store.Read(k) == old(rdb.store).Read(k))
    {
      subject := "";
      if rdb == null {
        return subject, Some(NilRedis);
      }
      TrimSpaceTrims(state);
      if TrimSpace(state) == "" {
        return subject, Some(StateMismatch);
      }
      ServeTouchesOneKey(rdb.store, GetDel(StateKey(cfg, state)));
      var r := rdb.Call(GetDel(StateKey(cfg, state)), d);
      if r.None? {
        return subject, Some(Transport);
      }
      if r.value.found.None? {
        return subject, Some(StateMismatch);
      }
      return r.value.found.value, None;
    }

    method RevokeToken(token: string, ttl: int, d: Delivery) returns (err: Option<Error>)
      modifies rdb
      ensures rdb == null ==> err == Some(NilRedis)
      ensures rdb != null && Blank(token) ==> err.None? && rdb.store == old(rdb.store)
      ensures rdb != null && !Blank(token) ==>
                && (err == if d.Answered? then None else Some(Transport))
                // For the time asked for, or for a day.
                && (0 < ttl ==> RevocationLife(ttl) == Lifetime(ttl))
                && (ttl <= 0 ==> RevocationLife(ttl) == 86_400_000_000_000)
                && rdb.store == if d.RequestLost? then old(rdb.store) else
                     old(rdb.store).(entries := old(rdb.store).entries[RevokedKey(cfg, hash, token) :=
                       Entry("1", Some(old(rdb.store).now + RevocationLife(ttl)))])
    {
      if rdb == null {
        return Some(NilRedis);
      }
      TrimSpaceTrims(token);
      if TrimSpace(token) == "" {
        return None;
      }
      var r := rdb.Call(Set(RevokedKey(cfg, hash, token), "1", RevocationTtl(ttl)), d);
      return if r.None? then Some(Transport) else None;
    }

    method IsRevoked(token: string, d: Delivery) returns (revoked: bool, err: Option<Error>)
      modifies rdb
      ensures rdb != null ==> rdb.store == old(rdb.store)
      ensures rdb == null || Blank(token) ==> !revoked && err.None?
      ensures rdb != null && !Blank(token) ==>
                && (err == if d.Answered? then None else Some(Transport))
                && (revoked <==> d.Answered? && rdb.store.Live(RevokedKey(cfg, hash, token)))
    {
      if rdb == null {
        return false, None;
      }
      TrimSpaceTrims(token);
      if TrimSpace(token) == "" {
        return false, None;
      }
      var r := rdb.Call(Exists(RevokedKey(cfg, hash, token)), d);
      if r.None? {
        return false, Some(Transport);
      }
      return r.value.ok, None;
    }
  }

  function RevocationTtl(ttl: int): int {
    if ttl <= 0 then ONE_DAY else ttl
  }

  /** How long the marker of a revocation stays. */
  function RevocationLife(ttl: int): int {
    Lifetime(RevocationTtl(ttl))
  }

  // ---------------------------------------------------------------------------------------------
  // The protocol
  // ---------------------------------------------------------------------------------------------

  datatype Params = Params(cfg: Config, hash: string -> string)

  ghost predicate Proper(p: Params) {
    IsHash(p.hash) && Separated(p.cfg) && 0 < p.cfg.stateTtl
  }

  datatype Request =
    | New(state: string, subject: string)
    | Verify(state: string)
    | Revoke(token: string, ttl: int)

  /** `until` is when the state expires, known once its SET was executed. */
  datatype Issue = Issue(subject: string, until: Option<int>)

  datatype Verdict = Verified(state: string, subject: string, at: int)

  /** History: every state ever issued, every successful verification in order of execution, and
      for every token until when its latest executed revocation lasts. */
  datatype State = State(
    store: Store,
    waiting: map<nat, Request>,
    issued: map<string, Issue>,
    verdicts: seq<Verdict>,
    revokedUntil: map<string, int>)

  datatype Event =
    | Tick(d: nat)
    | Send(id: nat, r: Request)
    | Execute(id: nat)
    | Lose(id: nat)

  /** NewState draws fresh states; everyone may verify any text and revoke any token. */
  predicate Enabled(s: State, e: Event) {
    match e
    case Tick(_) => true
    case Send(id, New(state, _)) => id !in s.waiting && state !in s.issued
    case Send(id, _) => id !in s.waiting
    case Execute(id) => id in s.waiting
    case Lose(id) => id in s.waiting
  }

  function Executed(p: Params, s: State, r: Request): State
    requires 0 < p.cfg.stateTtl
  {
    match r
    case New(state, subject) =>
      s.(store := Serve(s.store, Set(StateKey(p.cfg, state), subject, p.cfg.stateTtl)).0,
         issued := s.issued[state := Issue(subject, Some(s.store.now + Lifetime(p.cfg.stateTtl)))])
    case Verify(state) =>
      var (store, reply) := Serve(s.store, GetDel(StateKey(p.cfg, state)));
      s.(store := store,
         verdicts := if reply.found.None? then s.verdicts
                     else s.verdicts + [Verified(state, reply.found.value, s.store.now)])
    case Revoke(token, ttl) =>
      s.(store := Serve(s.store, Set(RevokedKey(p.cfg, p.hash, token), "1", RevocationTtl(ttl))).0,
         revokedUntil := s.revokedUntil[token := s.store.now + RevocationLife(ttl)])
  }

  function Next(p: Params, s: State, e: Event): State
    requires 0 < p.cfg.stateTtl && Enabled(s, e)
  {
    match e
    case Tick(d) => s.(store := s.store.(now := s.store.now + d))
    case Send(id, r) =>
      s.(waiting := s.waiting[id := r],
         issued := if r.New? then s.issued[r.state := Issue(r.subject, None)] else s.issued)
    case Execute(id) => Executed(p, s, s.waiting[id]).(waiting := s.waiting - {id})
    case Lose(id) => s.(waiting := s.waiting - {id})
  }

  ghost predicate Initial(p: Params, s: State) {
    && s.waiting == map[] && s.issued == map[] && s.verdicts == [] && s.revokedUntil == map[]
    && (forall st :: !s.store.Live(StateKey(p.cfg, st)))
    && (forall t :: !s.store.Live(RevokedKey(p.cfg, p.hash, t)))
  }

  predicate Valid(p: Params, s: State, events: seq<Event>)
    requires 0 < p.cfg.stateTtl
    decreases |events|
  {
    events == [] || (Enabled(s, events[0]) && Valid(p, Next(p, s, events[0]), events[1..]))
  }

  function Run(p: Params, s: State, events: seq<Event>): State
    requires 0 < p.cfg.stateTtl && Valid(p, s, events)
    decreases |events|
  {
    if events == [] then s else Run(p, Next(p, s, events[0]), events[1..])
  }

  ghost predicate Placed(s: State, st: string) {
    st in s.issued && s.issued[st].until.Some?
  }

  ghost predicate StateSound(p: Params, s: State, st: string) {
    var key := StateKey(p.cfg, st);
    && (s.store.Live(key) <==> Redeemable(s, st))
    && (s.store.Live(key) ==> s.store.entries[key] == Entry(s.issued[st].subject, s.issued[st].until))
  }

  /** Stored, not expired, and never verified before. */
  predicate Redeemable(s: State, st: string) {
    && st in s.issued && s.issued[st].until.Some? && s.store.now < s.issued[st].until.value
    && forall i :: 0 <= i < |s.verdicts| ==> s.verdicts[i].state != st
  }

  ghost predicate TokenSound(p: Params, s: State, t: string) {
    var key := RevokedKey(p.cfg, p.hash, t);
    && (s.store.Live(key) <==> t in s.revokedUntil && s.store.now < s.revokedUntil[t])
    && (s.store.Live(key) ==> s.store.entries[key].expiry == Some(s.revokedUntil[t]))
  }

  ghost predicate VerdictSound(s: State, v: Verdict) {
    Placed(s, v.state) && v.subject == s.issued[v.state].subject && v.at < s.issued[v.state].until.value
  }

  ghost predicate WaitingSound(s: State) {
    && (forall id :: id in s.waiting && s.waiting[id].New? ==>
          s.waiting[id].state in s.issued
          && s.issued[s.waiting[id].state] == Issue(s.waiting[id].subject, None))
    && (forall i, j ::
          (i in s.waiting && j in s.waiting && s.waiting[i].New? && s.waiting[j].New?
           && s.waiting[i].state == s.waiting[j].state) ==> i == j)
  }

  ghost predicate VerdictsSound(s: State) {
    && (forall v :: v in s.verdicts ==> VerdictSound(s, v))
    && (forall i, j :: 0 <= i < j < |s.verdicts| ==> s.verdicts[i].state != s.verdicts[j].state)
  }

  ghost predicate Inv(p: Params, s: State) {
    && (forall st :: StateSound(p, s, st))
    && (forall t :: TokenSound(p, s, t))
    && WaitingSound(s) && VerdictsSound(s)
  }

  /** What a command on one family does to the keys of both. */
  lemma FamilyFrame(p: Params, st: string, t: string, st': string, t': string)
    requires Proper(p)
    ensures StateKey(p.cfg, st) != RevokedKey(p.cfg, p.hash, t)
    ensures StateKey(p.cfg, st) == StateKey(p.cfg, st') <==> st == st'
    ensures RevokedKey(p.cfg, p.hash, t) == RevokedKey(p.cfg, p.hash, t') <==> t == t'
  {
    StateNamesNoHash(p.cfg, p.hash, t, st);
    StateKeyInjective(p.cfg, st, st');
    RevokedKeyInjective(p.cfg, p.hash, t, t');
  }

  lemma ExecuteState(p: Params, s: State, id: nat, st: string)
    requires Proper(p) && id in s.waiting && WaitingSound(s) && VerdictsSound(s)
    requires StateSound(p, s, st) && (s.waiting[id].Verify? ==> StateSound(p, s, s.waiting[id].state))
    ensures StateSound(p, Next(p, s, Execute(id)), st)
  {
    var r, n := s.waiting[id], Next(p, s, Execute(id));
    FamilyFrame(p, st, if r.Revoke? then r.token else "", if r.Revoke? then st else r.state, "");
    if r.New? {
      NeverVerified(s, id);
    }
    assert forall i :: 0 <= i < |s.verdicts| ==> s.verdicts[i] == n.verdicts[i];
    if r.Verify? && s.store.Live(StateKey(p.cfg, r.state)) {
      assert n.verdicts[|s.verdicts|].state == r.state;
    }
  }

  /** A state whose SET is still on its way was not verified. */
  lemma NeverVerified(s: State, id: nat)
    requires id in s.waiting && s.waiting[id].New? && WaitingSound(s) && VerdictsSound(s)
    ensures forall i :: 0 <= i < |s.verdicts| ==> s.verdicts[i].state != s.waiting[id].state
  {
    forall i | 0 <= i < |s.verdicts| ensures s.verdicts[i].state != s.waiting[id].state {
      assert VerdictSound(s, s.verdicts[i]);
    }
  }

  lemma ExecuteToken(p: Params, s: State, id: nat, t: string)
    requires Proper(p) && id in s.waiting && TokenSound(p, s, t)
    ensures TokenSound(p, Next(p, s, Execute(id)), t)
  {
    var r := s.waiting[id];
    FamilyFrame(p, if r.Revoke? then "" else r.state, t, "", if r.Revoke? then r.token else t);
  }

  lemma ExecuteVerdicts(p: Params, s: State, id: nat)
    requires Proper(p) && id in s.waiting && WaitingSound(s) && VerdictsSound(s)
    requires s.waiting[id].Verify? ==> StateSound(p, s, s.waiting[id].state)
    ensures WaitingSound(Next(p, s, Execute(id))) && VerdictsSound(Next(p, s, Execute(id)))
  {
    var n := Next(p, s, Execute(id));
    if s.waiting[id].New? {
      NeverVerified(s, id);
    }
    forall v | v in n.verdicts ensures VerdictSound(n, v) {
      if v in s.verdicts { assert VerdictSound(s, v); }
    }
  }

  lemma ExecuteInv(p: Params, s: State, id: nat)
    requires Proper(p) && Inv(p, s) && id in s.waiting
    ensures Inv(p, Next(p, s, Execute(id)))
  {
    var r, n := s.waiting[id], Next(p, s, Execute(id));
    if r.Verify? {
      assert StateSound(p, s, r.state);
    }
    forall st ensures StateSound(p, n, st) {
      assert StateSound(p, s, st);
      ExecuteState(p, s, id, st);
    }
    forall t ensures TokenSound(p, n, t) {
      assert TokenSound(p, s, t);
      ExecuteToken(p, s, id, t);
    }
    ExecuteVerdicts(p, s, id);
  }

  lemma NextInv(p: Params, s: State, e: Event)
    requires Proper(p) && Inv(p, s) && Enabled(s, e)
    ensures Inv(p, Next(p, s, e))
  {
    var n := Next(p, s, e);
    if e.Execute? {
      ExecuteInv(p, s, e.id);
    } else {
      forall st ensures StateSound(p, n, st) {
        assert StateSound(p, s, st);
      }
      forall t ensures TokenSound(p, n, t) {
        assert TokenSound(p, s, t);
      }
      forall v | v in n.verdicts ensures VerdictSound(n, v) {
        assert VerdictSound(s, v);
      }
    }
  }

  lemma {:induction false} RunInv(p: Params, s: State, events: seq<Event>)
    requires Proper(p) && Inv(p, s) && Valid(p, s, events)
    ensures Inv(p, Run(p, s, events))
    decreases |events|
  {
    if events != [] {
      NextInv(p, s, events[0]);
      RunInv(p, Next(p, s, events[0]), events[1..]);
    }
  }

  /** In every interleaving a state verifies at most once, before it expires, for its subject. */
  lemma StatesAreOneTime(p: Params, s: State, events: seq<Event>, i: nat, j: nat)
    requires Proper(p) && Initial(p, s) && Valid(p, s, events)
    requires i < |Run(p, s, events).verdicts| && j < |Run(p, s, events).verdicts|
    ensures
      var n := Run(p, s, events);
      var v := n.verdicts[i];
      && v.state in n.issued && v.subject == n.issued[v.state].subject
      && n.issued[v.state].until.Some? && v.at < n.issued[v.state].until.value
      && (v.state == n.verdicts[j].state ==> i == j)
  {
    RunInv(p, s, events);
    var n := Run(p, s, events);
    assert VerdictSound(n, n.verdicts[i]);
  }

  /** ... and until then it would: VerifyState succeeds exactly on a stored, unexpired state that
      nobody verified, no matter what was revoked in between. */
  lemma VerifiesExactly(p: Params, s: State, events: seq<Event>, st: string)
    requires Proper(p) && Initial(p, s) && Valid(p, s, events)
    ensures
      var n := Run(p, s, events);
      Serve(n.store, GetDel(StateKey(p.cfg, st))).1
        == Value(if Redeemable(n, st) then Some(n.issued[st].subject) else None)
  {
    RunInv(p, s, events);
    assert StateSound(p, Run(p, s, events), st);
  }

  /** In every interleaving a token is reported revoked exactly while its latest revocation lasts. */
  lemma RevokedExactly(p: Params, s: State, events: seq<Event>, token: string)
    requires Proper(p) && Initial(p, s) && Valid(p, s, events)
    ensures
      var n := Run(p, s, events);
      Serve(n.store, Exists(RevokedKey(p.cfg, p.hash, token))).1
        == Flag(token in n.revokedUntil && n.store.now < n.revokedUntil[token])
  {
    RunInv(p, s, events);
    assert TokenSound(p, Run(p, s, events), token);
  }
}
