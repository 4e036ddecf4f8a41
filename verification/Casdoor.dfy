/**
 casdoor/policy.go over retry/retry.go and callWithContext: policy writes against a remote store,
 with retries, cancellation, calls that apply and still report an error, calls that outlive their
 caller, and other writers running between any two of our steps.
 */
module Casdoor {
  import opened Options
  import opened Casbin
  import opened Permission
  import opened Text

  datatype Outcome =
    | Done
    | Failed          // an error reported by the remote call
    | Cancelled       // ctx.Err()
    | Panicked        // ctx.Done() on a nil context
    | BadConfig
    | Rejected(why: Permission.Error)

  datatype RetryPolicy = RetryPolicy(attempts: int, backoff: int)

  function Attempts(p: RetryPolicy): (n: nat)
    ensures 1 <= n && (1 <= p.attempts ==> n == p.attempts)
  {
    if p.attempts <= 0 then 1 else p.attempts
  }

  datatype Call = Write(op: Op) | GetPolicies

  /** What becomes of one remote call: whether it takes effect before its caller goes on, whether it
      reports an error all the same, and whether a cancelled caller goes on without its answer. */
  datatype Fate = Fate(executed: bool, failed: bool, abandoned: bool)

  /** A context.Context: `done` once cancelled; `flying` counts the goroutines started under it
      whose remote call has not come back, `late` the calls started when it was cancelled already. */
  class Context {
    var done: bool
    var flying: nat
    ghost var late: nat

    constructor ()
      ensures !done && flying == 0 && late == 0
    {
      done, flying, late := false, 0, 0;
    }

    /** At most one call is ever under way, and it is left behind only by a cancellation. */
    predicate Valid()
      reads this
    {
      flying <= 1 && (flying == 1 ==> done)
    }
  }

  /** The Casdoor server.  `log` lists every write that took effect, ours or not.  `orphans` are
      calls nobody waits for; each may still take effect.  Unless `exclusive`, others write too.
      `fates` says what becomes of each of our calls, in the order they are made. */
  class Remote {
    const exclusive: bool
    const fates: nat -> Fate
    ghost const initial: set<Rule>
    var rules: set<Rule>
    var orphans: set<Op>
    var calls: nat
    ghost var log: seq<Op>

    constructor (rules: set<Rule>, exclusive: bool, fates: nat -> Fate)
      ensures Valid() && this.rules == initial == rules && this.exclusive == exclusive && this.fates == fates
      ensures log == [] && orphans == {} && calls == 0
    {
      this.rules, this.exclusive, this.initial, this.fates := rules, exclusive, rules, fates;
      orphans, calls, log := {}, 0, [];
    }

    ghost predicate Valid()
      reads this
    {
      rules == Replay(initial, log)
    }

    /** Call n answers without an error. */
    predicate Succeeds(n: nat) {
      fates(n).executed && !fates(n).failed
    }

    predicate NoneSucceeds(from: nat, to: int) {
      forall i: nat :: from <= i < to ==> !Succeeds(i)
    }

    /** The log from a point on: all writes of ours are in `ours`, and without other writers
        everything else is an orphan. */
    ghost predicate Since(before: seq<Op>, orphansBefore: set<Op>, ours: set<Op>)
      reads this
    {
      && before <= log
      && (exclusive ==> Only(log[|before|..], ours + orphansBefore))
      && (exclusive ==> orphans <= orphansBefore + ours)
    }

    /** What came in since `before` came in until `mid` or after it. */
    lemma Onward(before: seq<Op>, mid: seq<Op>, orphansBefore: set<Op>, ours: set<Op>)
      requires before <= mid <= log
      requires exclusive ==> Only(mid[|before|..], ours + orphansBefore) && orphans <= orphansBefore + ours
      requires exclusive ==> Only(log[|mid|..], ours + orphansBefore)
      ensures Since(before, orphansBefore, ours)
      ensures forall op :: op in log[|mid|..] ==> op in log[|before|..]
    {
      assert log[|before|..] == mid[|before|..] + log[|mid|..];
    }

    lemma Rebase(before: seq<Op>)
      requires Valid() && before <= log
      ensures rules == Replay(Replay(initial, before), log[|before|..])
    {
      assert log == before + log[|before|..];
      ReplayConcat(initial, before, log[|before|..]);
    }

    /** Other writers and orphaned calls take their turn, and the caller may be cancelled. */
    method Others(ctx: Context?)
      requires Valid()
      modifies this`rules, this`log, ctx
      ensures Valid() && Since(old(log), old(orphans), {})
      ensures ctx != null ==> (old(ctx.done) ==> ctx.done) && ctx.flying == old(ctx.flying) && ctx.late == old(ctx.late)
    {
      var writes: seq<Op> := *;
      if exclusive && !(forall op | op in writes :: op in orphans) {
        writes := [];
      }
      ReplayConcat(initial, log, writes);
      rules := Replay(rules, writes);
      log := log + writes;
      if ctx != null && !ctx.done {
        ctx.done := *;
      }
    }

    method Land(op: Op)
      requires Valid()
      modifies this`rules, this`log
      ensures Valid() && log == old(log) + [op]
    {
      assert (log + [op])[..|log|] == log;
      rules := Effect(rules, op);
      log := log + [op];
    }

    /** All rules, in some order. */
    method Enumerate() returns (list: seq<Rule>)
      ensures SetOf(list) == rules
    {
      list := [];
      var rest := rules;
      while rest != {}
        invariant rest <= rules && SetOf(list) == rules - rest
        decreases rest
      {
        var r :| r in rest;
        rest := rest - {r};
        assert SetOf(list + [r]) == SetOf(list) + {r};
        list := list + [r];
      }
    }

    /** The goroutine of callWithContext, as far as it gets before its caller goes on: it may have
        made its call, with other writers before and after. */
    method Attempt(ctx: Context?, c: Call, executed: bool) returns (list: seq<Rule>)
      requires Valid()
      modifies this`rules, this`log, ctx
      ensures Valid() && Since(old(log), old(orphans), if c.Write? && executed then {c.op} else {})
      ensures executed && c.Write? ==> c.op in log[|old(log)|..]
      ensures executed && c.GetPolicies? ==>
                exists j :: |old(log)| <= j <= |log| && SetOf(list) == Replay(initial, log[..j])
      ensures ctx != null ==>
                (old(ctx.done) ==> ctx.done) && ctx.flying == old(ctx.flying) && ctx.late == old(ctx.late)
    {
      list := [];
      Others(ctx);
      ghost var moment := |log|;
      if executed {
        match c
        case Write(op) => Land(op);
        case GetPolicies => list := Enumerate();
      }
      ghost var now := log;
      Others(ctx);
      assert now == log[..|now|];
      if executed && c.Write? {
        assert c.op == log[|old(log)|..][moment - |old(log)|];
      }
      if executed && c.GetPolicies? {
        assert log[..moment] == now;
      }
    }

    /** callWithContext around one remote call.  No error means the call took effect meanwhile, or,
        for a listing, that the result is what was stored at some moment meanwhile. */
    method CallWithContext(ctx: Context?, c: Call) returns (out: Outcome, list: seq<Rule>)
      requires Valid() && (ctx != null ==> ctx.Valid() && ctx.flying == 0)
      modifies this, ctx
      ensures Valid() && (ctx != null ==> ctx.Valid())
      ensures calls == old(calls) + 1
      ensures out in {Done, Failed, Cancelled}
      ensures Since(old(log), old(orphans), if c.Write? then {c.op} else {})
      ensures out.Done? && c.Write? ==> c.op in log[|old(log)|..]
      ensures out.Done? && c.GetPolicies? ==>
                exists j :: |old(log)| <= j <= |log| && SetOf(list) == Replay(initial, log[..j])
      ensures fates(old(calls)).executed && c.Write? ==> c.op in log[|old(log)|..]
      // The answer, unless the context is cancelled and the answer comes too late.
      ensures out.Cancelled? <==> ctx != null && ctx.done && fates(old(calls)).abandoned
      ensures out.Done? <==> !out.Cancelled? && Succeeds(old(calls))
      ensures out.Cancelled? <==> ctx != null && ctx.flying == 1
      ensures orphans == old(orphans) +
                         if out.Cancelled? && c.Write? && !fates(old(calls)).executed then {c.op} else {}
      ensures ctx != null ==> (old(ctx.done) ==> ctx.done) && ctx.late == old(ctx.late) + if old(ctx.done) then 1 else 0
    {
      var fate := fates(calls);
      calls := calls + 1;
      if ctx != null && ctx.done {
        ctx.late := ctx.late + 1;
      }
      list := Attempt(ctx, c, fate.executed);
      if ctx != null && ctx.done && fate.abandoned {
        ctx.flying := 1;
        if !fate.executed && c.Write? {
          orphans := orphans + {c.op};
        }
        return Cancelled, list;
      }
      out := if fate.executed && !fate.failed then Done else Failed;
    }
  }

  /** retry.Do around callWithContext. */
  method Do(remote: Remote, ctx: Context?, p: RetryPolicy, c: Call) returns (out: Outcome, list: seq<Rule>)
    requires remote.Valid() && (ctx != null ==> ctx.Valid())
    modifies remote, ctx
    ensures remote.Valid() && (ctx != null ==> ctx.Valid())
    ensures remote.Since(old(remote.log), old(remote.orphans), if c.Write? then {c.op} else {})
    // Call after call until one succeeds, and not more than there are attempts.
    ensures old(remote.calls) <= remote.calls <= old(remote.calls) + Attempts(p)
    ensures remote.NoneSucceeds(old(remote.calls), remote.calls - 1)
    ensures out.Done? ==> old(remote.calls) < remote.calls && remote.Succeeds(remote.calls - 1)
    ensures out.Failed? ==> remote.calls == old(remote.calls) + Attempts(p)
    ensures !out.Done? && (ctx == null || ctx.flying == 0) ==> remote.NoneSucceeds(old(remote.calls), remote.calls)
    ensures out.Cancelled? && remote.calls == old(remote.calls) + Attempts(p) ==> ctx != null && ctx.flying == 1
    ensures out in {Done, Failed, Cancelled, Panicked}
    ensures out.Done? && c.Write? ==> c.op in remote.log[|old(remote.log)|..]
    ensures out.Done? && c.GetPolicies? ==>
              exists j :: |old(remote.log)| <= j <= |remote.log|
                          && SetOf(list) == Replay(remote.initial, remote.log[..j])
    ensures out.Cancelled? ==> ctx != null && ctx.done
    ensures !out.Cancelled? ==> remote.orphans == old(remote.orphans) && (ctx != null ==> ctx.flying == 0)
    ensures out.Panicked? ==> Unbackable(ctx, p)
    ensures Unbackable(ctx, p) ==> (out.Done? || out.Panicked?) && remote.calls == old(remote.calls) + 1
    ensures ctx != null ==> (old(ctx.done) ==> ctx.done && out.Cancelled? && remote.calls == old(remote.calls))
    // No attempt is ever started under a context that is cancelled already.
    ensures ctx != null ==> ctx.late == old(ctx.late)
  {
    var attempts := Attempts(p);
    ghost var ours := if c.Write? then {c.op} else {};
    ghost var start, orphans := remote.log, remote.orphans;
    out, list := Done, [];
    for i := 0 to attempts
      invariant remote.Valid() && (ctx != null ==> ctx.Valid())
      invariant remote.Since(start, orphans, ours)
      invariant remote.calls == old(remote.calls) + i
      invariant 0 < i ==> out in {Failed, Cancelled}
      invariant remote.NoneSucceeds(old(remote.calls), remote.calls - 1)
      invariant ctx == null || ctx.flying == 0 ==> remote.NoneSucceeds(old(remote.calls), remote.calls)
      invariant 0 < i ==> (out.Cancelled? <==> ctx != null && ctx.flying == 1)
      invariant i == 0 || !out.Cancelled? ==> remote.orphans == orphans
      invariant 0 < i && Unbackable(ctx, p) ==> attempts == 1
      invariant 0 < i && out.Cancelled? ==> ctx.done
      invariant ctx != null && old(ctx.done) ==> ctx.done && i == 0
      invariant ctx != null ==> ctx.late == old(ctx.late)
    {
      if ctx != null && ctx.done {
        return Cancelled, list;
      }
      ghost var mid := remote.log;
      out, list := remote.CallWithContext(ctx, c);
      remote.Onward(start, mid, orphans, ours);
      if out.Done? {
        return Done, list;
      }
      if i == attempts - 1 || p.backoff <= 0 {
        continue;
      }
      if ctx == null {
        return Panicked, list;
      }
      ghost var waiting := remote.log;
      remote.Others(ctx);
      remote.Onward(start, waiting, orphans, ours);
      var timer: bool := *;
      if ctx.done && !timer {
        return Cancelled, list;
      }
    }
  }

  /** A nil context together with a back-off: the first failure is a nil dereference. */
  predicate Unbackable(ctx: Context?, p: RetryPolicy) {
    ctx == null && 1 < p.attempts && 0 < p.backoff
  }

  // ---------------------------------------------------------------------------------------------
  // The adapter
  // ---------------------------------------------------------------------------------------------

  class Adapter {
    const remote: Remote
    const policy: RetryPolicy
    const enforcer: string   // policy_enforcer or enforcer_id, trimmed

    constructor (remote: Remote, policy: RetryPolicy, enforcer: string)
      ensures this.remote == remote && this.policy == policy && this.enforcer == enforcer
    {
      this.remote, this.policy, this.enforcer := remote, policy, enforcer;
    }

    /** How an operation may end.  A remote error is the last of as many failed calls as the policy
        asks for; unless cancelled, no call is left behind; a cancelled context starts none. */
    twostate predicate Accounted(ctx: Context?, out: Outcome)
      reads remote, ctx
    {
      && old(remote.calls) <= remote.calls
      && (ctx != null ==> ctx.Valid() && ctx.late == old(ctx.late))
      && (ctx != null && old(ctx.done) ==> ctx.done && remote.calls == old(remote.calls))
      && (out.Cancelled? ==> ctx != null && ctx.done)
      && (!out.Cancelled? ==> remote.orphans == old(remote.orphans))
      && (out.Failed? ==> old(remote.calls) + Attempts(policy) <= remote.calls
                          && remote.NoneSucceeds(remote.calls - Attempts(policy), remote.calls))
      && (out.Panicked? ==> Unbackable(ctx, policy) && old(remote.calls) < remote.calls
                            && !remote.Succeeds(remote.calls - 1))
      && (out.BadConfig? ==> enforcer == "")
    }

    /** addPolicy and removePolicy: one write, retried. */
    method WritePolicy(ctx: Context?, op: Op) returns (out: Outcome)
      requires remote.Valid() && (ctx != null ==> ctx.Valid())
      modifies remote, ctx
      ensures remote.Valid() && remote.Since(old(remote.log), old(remote.orphans), {op}) && Accounted(ctx, out)
      // Tried until one call succeeds, and as often as the policy allows.
      ensures remote.calls <= old(remote.calls) + Attempts(policy)
      ensures remote.NoneSucceeds(old(remote.calls), remote.calls - 1)
      ensures out.Done? ==> old(remote.calls) < remote.calls && remote.Succeeds(remote.calls - 1)
      ensures out.Failed? ==> remote.calls == old(remote.calls) + Attempts(policy)
      ensures out.Cancelled? && ctx.flying == 0 ==> remote.NoneSucceeds(old(remote.calls), remote.calls)
      ensures out.Done? ==> op in remote.log[|old(remote.log)|..]
      ensures out.BadConfig? <==> enforcer == ""
      ensures out.BadConfig? ==> remote.calls == old(remote.calls) && remote.log == old(remote.log)
      ensures !out.Rejected?
      // With nobody else writing: nothing, or just this write, even if it is still under way.
      ensures remote.exclusive && old(remote.orphans) == {} ==>
                && remote.rules in {old(remote.rules), Effect(old(remote.rules), op)}
                && (out.Done? ==> remote.rules == Effect(old(remote.rules), op))
                && remote.orphans <= {op}
                && forall landed: seq<Op> :: Only(landed, remote.orphans) ==>
                     Replay(remote.rules, landed) in {old(remote.rules), Effect(old(remote.rules), op)}
    {
      if enforcer == "" {
        assert remote.log[|remote.log|..] == [];
        SettlesLate(remote.rules, [], op);
        return BadConfig;
      }
      var list;
      out, list := Do(remote, ctx, policy, Write(op));
      ghost var ext := remote.log[|old(remote.log)|..];
      assert remote.log == old(remote.log) + ext;
      ReplayConcat(remote.initial, old(remote.log), ext);
      if remote.exclusive && old(remote.orphans) == {} {
        assert {op} + {} == {op};
        SettlesLate(old(remote.rules), ext, op);
      }
    }

    /** What a sequence of writes has left behind since the log was `before`. */
    ghost predicate Wrote(before: seq<Op>, orphans: set<Op>, ops: seq<Op>, done: nat)
      reads remote
    {
      && before <= remote.log && done <= |ops|
      && (forall k :: 0 <= k < done ==> ops[k] in remote.log[|before|..])
      && (remote.exclusive ==>
            && Only(remote.log[|before|..], SetOf(Reached(ops, done)) + orphans)
            && remote.orphans <= SetOf(Reached(ops, done)) + orphans)
    }

    /** What a sequence of writes comes to: `done` of them succeeded, in order. */
    twostate predicate Ran(ops: seq<Op>, out: Outcome, done: nat)
      reads remote
    {
      && !out.Rejected? && (out.Done? <==> done == |ops|)
      && (out.BadConfig? <==> enforcer == "" && ops != [])
      && Wrote(old(remote.log), old(remote.orphans), ops, done)
    }

    /** The loop of GrantRole, Revoke and DeleteResourcePoliciesEx: write after write, stopping at
        the first one that does not succeed.  `done` counts those that did. */
    method WriteEach(ctx: Context?, ops: seq<Op>) returns (out: Outcome, ghost done: nat)
      requires remote.Valid() && (ctx != null ==> ctx.Valid())
      modifies remote, ctx
      ensures remote.Valid() && Accounted(ctx, out) && Ran(ops, out, done)
    {
      done := 0;
      ghost var start, orphans := remote.log, remote.orphans;
      for i := 0 to |ops|
        invariant remote.Valid() && (ctx != null ==> ctx.Valid() && ctx.late == old(ctx.late))
        invariant remote.orphans == orphans && done == i && old(remote.calls) <= remote.calls
        invariant 0 < i ==> enforcer != ""
        invariant 0 < i && ctx != null ==> !old(ctx.done)
        invariant ctx != null && old(ctx.done) ==> ctx.done && remote.calls == old(remote.calls)
        invariant start <= remote.log
        invariant forall k :: 0 <= k < i ==> ops[k] in remote.log[|start|..]
        invariant remote.exclusive ==> Only(remote.log[|start|..], SetOf(ops[..i]) + orphans)
      {
        ghost var mid := remote.log;
        out := WritePolicy(ctx, ops[i]);
        assert ops[i] in ops[..i + 1] && forall x :: x in ops[..i] ==> x in ops[..i + 1];
        remote.Onward(start, mid, orphans, SetOf(ops[..i + 1]));
        if !out.Done? {
          return;
        }
        done := i + 1;
      }
      out := Done;
      assert ops[..|ops|] == ops;
    }

    /** With nobody else writing and nothing left over, the log is the progress of these writes. */
    lemma WroteAlone(before: seq<Op>, ops: seq<Op>, done: nat)
      requires remote.Valid() && remote.exclusive && Wrote(before, {}, ops, done)
      ensures Progress(remote.log[|before|..], ops, done)
      ensures remote.rules == Replay(Replay(remote.initial, before), remote.log[|before|..])
    {
      remote.Rebase(before);
      assert SetOf(Reached(ops, done)) + {} == SetOf(Reached(ops, done));
    }

    method GrantRole(ctx: Context?, grant: Grant, mapper: Mapper) returns (out: Outcome, ghost done: nat)
      requires remote.Valid() && (ctx != null ==> ctx.Valid())
      modifies remote, ctx
      ensures remote.Valid() && Accounted(ctx, out)
      ensures RolePlan(mapper, grant).Err? ==>
                out == Rejected(RolePlan(mapper, grant).error) && remote.log == old(remote.log)
      ensures RolePlan(mapper, grant).Ok? ==>
                var rules := RolePlan(mapper, grant).value;
                && Ran(Adds(rules), out, done)
                && (remote.exclusive && old(remote.orphans) == {} ==>
                      Granted(old(remote.rules), remote.rules, rules, done))
    {
      done := 0;
      var g := NormalizeGrant(grant);
      if g.Err? {
        return Rejected(g.error), 0;
      }
      var actions := mapper(g.value.resource, g.value.role, g.value.actions);
      if actions.Err? {
        return Rejected(actions.error), 0;
      }
      var rules := RulesFor(g.value, actions.value);
      out, done := WriteEach(ctx, Adds(rules));
      if remote.exclusive && old(remote.orphans) == {} {
        WroteAlone(old(remote.log), Adds(rules), done);
        AddProgress(old(remote.rules), remote.log[|old(remote.log)|..], rules, done);
      }
    }

    method Grant(ctx: Context?, grant: Grant, mapper: Mapper) returns (out: Outcome, ghost done: nat)
      requires remote.Valid() && (ctx != null ==> ctx.Valid())
      modifies remote, ctx
      ensures remote.Valid() && Accounted(ctx, out)
      ensures Plan(mapper, grant).Err? ==>
                out == Rejected(Plan(mapper, grant).error) && remote.log == old(remote.log)
      ensures Plan(mapper, grant).Ok? ==>
                var rules := Plan(mapper, grant).value;
                && Ran(Adds(rules), out, done)
                && (remote.exclusive && old(remote.orphans) == {} ==>
                      Granted(old(remote.rules), remote.rules, rules, done))
    {
      done := 0;
      var g := NormalizeGrant(grant);
      if g.Err? {
        return Rejected(g.error), 0;
      }
      if g.value.action == "" {
        NormalizeTwice(grant);
        out, done := GrantRole(ctx, g.value, mapper);
        return;
      }
      var rules := RulesFor(g.value, [g.value.action]);
      out, done := WriteEach(ctx, Adds(rules));
      if remote.exclusive && old(remote.orphans) == {} {
        WroteAlone(old(remote.log), Adds(rules), done);
        AddProgress(old(remote.rules), remote.log[|old(remote.log)|..], rules, done);
      }
    }

    method Share(ctx: Context?, req: ShareRequest, mapper: Mapper) returns (out: Outcome, ghost done: nat)
      requires remote.Valid() && (ctx != null ==> ctx.Valid())
      modifies remote, ctx
      ensures remote.Valid() && Accounted(ctx, out)
      ensures NormalizeShare(req).Err? ==>
                out == Rejected(NormalizeShare(req).error) && remote.log == old(remote.log)
      // The rules shared are those that Revoke addresses for the grant the request stands for.
      ensures NormalizeShare(req).Ok? && Plan(mapper, ShareAsGrant(req)).Err? ==>
                out == Rejected(Plan(mapper, ShareAsGrant(req)).error) && remote.log == old(remote.log)
      ensures NormalizeShare(req).Ok? && Plan(mapper, ShareAsGrant(req)).Ok? ==>
                var rules := Plan(mapper, ShareAsGrant(req)).value;
                && Ran(Adds(rules), out, done)
                && (remote.exclusive && old(remote.orphans) == {} ==>
                      Granted(old(remote.rules), remote.rules, rules, done))
    {
      done := 0;
      var g := NormalizeShare(req);
      if g.Err? {
        return Rejected(g.error), 0;
      }
      ShareRevocable(mapper, req);
      NormalizeTwice(ShareAsGrant(req));
      out, done := GrantRole(ctx, g.value, mapper);
    }

    method Revoke(ctx: Context?, grant: Grant, mapper: Mapper) returns (out: Outcome, ghost done: nat)
      requires remote.Valid() && (ctx != null ==> ctx.Valid())
      modifies remote, ctx
      ensures remote.Valid() && Accounted(ctx, out)
      ensures Plan(mapper, grant).Err? ==>
                out == Rejected(Plan(mapper, grant).error) && remote.log == old(remote.log)
      ensures Plan(mapper, grant).Ok? ==>
                var rules := Plan(mapper, grant).value;
                && Ran(Removes(rules), out, done)
                && (remote.exclusive && old(remote.orphans) == {} ==>
                      Revoked(old(remote.rules), remote.rules, rules, done))
                // Nothing that is under way brings a rule back, exactly if no call left behind adds one.
                && (remote.exclusive && out.Done? ==>
                      (Final(remote.rules, remote.orphans, rules) <==> !Revived(remote.orphans, rules)))
    {
      done := 0;
      var g := NormalizeGrant(grant);
      if g.Err? {
        return Rejected(g.error), 0;
      }
      var actions := [g.value.action];
      if g.value.action == "" {
        var expanded := mapper(g.value.resource, g.value.role, g.value.actions);
        if expanded.Err? {
          return Rejected(expanded.error), 0;
        }
        actions := expanded.value;
      }
      var rules := RulesFor(g.value, actions);
      out, done := WriteEach(ctx, Removes(rules));
      if remote.exclusive && out.Done? {
        remote.Rebase(old(remote.log));
        RevokeFinal(old(remote.rules), remote.log[|old(remote.log)|..], remote.orphans, rules);
      }
      if remote.exclusive && old(remote.orphans) == {} {
        WroteAlone(old(remote.log), Removes(rules), done);
        RemoveProgress(old(remote.rules), remote.log[|old(remote.log)|..], rules, done);
      }
    }

    /** List: the p-rules that match, as they were at some moment of the call. */
    method List(ctx: Context?, filter: Filter) returns (out: Outcome, grants: seq<Listed>)
      requires remote.Valid() && (ctx != null ==> ctx.Valid())
      modifies remote, ctx
      ensures remote.Valid() && Accounted(ctx, out) && !out.Rejected?
      ensures remote.Since(old(remote.log), old(remote.orphans), {})
      ensures out.BadConfig? <==> enforcer == ""
      ensures out.Done? ==>
                exists j :: |old(remote.log)| <= j <= |remote.log|
                  && forall g :: g in grants <==> Lists(Replay(remote.initial, remote.log[..j]), filter, g)
    {
      if enforcer == "" {
        assert remote.log[|remote.log|..] == [];
        return BadConfig, [];
      }
      var rules;
      out, rules := Do(remote, ctx, policy, GetPolicies);
      grants := [];
      if !out.Done? {
        return;
      }
      for i := 0 to |rules|
        invariant forall g :: g in grants <==>
          exists k :: 0 <= k < i && Matches(rules[k], filter) && g == AsListed(rules[k])
      {
        var r := rules[i];
        if r.ptype != "p" {
          continue;
        }
        if filter.subject != "" && filter.subject != r.v0 {
          continue;
        }
        if filter.resource != "" && filter.resource != r.v1 {
          continue;
        }
        if filter.action != "" && filter.action != r.v2 {
          continue;
        }
        grants := grants + [AsListed(r)];
      }
      ghost var j :| |old(remote.log)| <= j <= |remote.log| && SetOf(rules) == Replay(remote.initial, remote.log[..j]);
      forall g ensures g in grants <==> Lists(Replay(remote.initial, remote.log[..j]), filter, g) {
        if r :| r in SetOf(rules) && Matches(r, filter) && g == AsListed(r) {
          ghost var k :| 0 <= k < |rules| && rules[k] == r;
        }
        if k :| 0 <= k < |rules| && Matches(rules[k], filter) && g == AsListed(rules[k]) {
          assert rules[k] in SetOf(rules);
        }
      }
    }

    method DeleteResourcePoliciesEx(ctx: Context?, resource: string) returns (out: Outcome)
      requires remote.Valid() && (ctx != null ==> ctx.Valid())
      modifies remote, ctx
      ensures remote.Valid() && Accounted(ctx, out)
      ensures old(remote.log) <= remote.log
      ensures resource == "" <==> out == Rejected(EmptyResource)
      ensures resource == "" ==> remote.log == old(remote.log)
      ensures out.BadConfig? <==> resource != "" && enforcer == ""
      // Success, in any company: what is left of the resource came in after the snapshot.
      ensures out.Done? ==> Swept(old(remote.rules), remote.log[|old(remote.log)|..], remote.rules, resource)
      // All we ever send, now or later, is removals of three-field policies of this resource.
      ensures remote.exclusive ==>
                && (forall op :: op in remote.log[|old(remote.log)|..] ==>
                      op in old(remote.orphans) || CleanupOp(op, resource))
                && (forall op :: op in remote.orphans ==> op in old(remote.orphans) || CleanupOp(op, resource))
      // Alone, possibly after failed runs of the same cleanup: exactly these are gone, or some.
      ensures remote.exclusive && (forall op :: op in old(remote.orphans) ==> CleanupOp(op, resource)) ==>
                && Kept(old(remote.rules), resource) <= remote.rules <= old(remote.rules)
                && (out.Done? ==> remote.rules == Kept(old(remote.rules), resource))
    {
      ghost var start, before, orphans := remote.log, remote.rules, remote.orphans;
      if resource == "" {
        assert remote.log[|start|..] == [];
        return Rejected(EmptyResource);
      }
      var grants;
      out, grants := List(ctx, Filter("", resource, ""));
      ghost var mid := remote.log;
      remote.Rebase(start);
      assert {} + orphans == orphans;
      if remote.exclusive {
        AloneFrame(before, mid[|start|..], orphans, resource);
      }
      if !out.Done? {
        return;
      }
      ghost var j :| |start| <= j <= |mid| && Snapshot(Replay(remote.initial, mid[..j]), grants, resource);
      var rules := seq(|grants|, i requires 0 <= i < |grants| =>
        Policy(grants[i].subject, grants[i].resource, grants[i].action));
      ghost var done;
      out, done := WriteEach(ctx, Removes(rules));
      SweepEnds(start, mid, j, orphans, grants, rules, done, resource);
    }

    /** What the cleanup has come to once it listed at j, the log was `mid`, and `done` removals are made. */
    lemma SweepEnds(start: seq<Op>, mid: seq<Op>, j: nat, orphans: set<Op>, grants: seq<Listed>,
                    rules: seq<Rule>, done: nat, resource: string)
      requires remote.Valid() && start <= mid && |start| <= j <= |mid| && resource != ""
      requires Snapshot(Replay(remote.initial, mid[..j]), grants, resource) && AsRules(grants, rules)
      requires remote.exclusive ==> Only(mid[|start|..], orphans)
      requires Wrote(mid, orphans, Removes(rules), done)
      ensures
        var before, ext := Replay(remote.initial, start), remote.log[|start|..];
        && (done == |rules| ==> Swept(before, ext, remote.rules, resource))
        && (remote.exclusive ==> forall op :: op in ext || op in remote.orphans ==>
              op in orphans || CleanupOp(op, resource))
        && (remote.exclusive && (forall op :: op in orphans ==> CleanupOp(op, resource)) ==>
              && Kept(before, resource) <= remote.rules <= before
              && (done == |rules| ==> remote.rules == Kept(before, resource)))
    {
      var before, ext := Replay(remote.initial, start), remote.log[|start|..];
      remote.Rebase(start);
      assert ext == mid[|start|..] + remote.log[|mid|..];
      SweepOps(Replay(remote.initial, mid[..j]), grants, rules, resource);
      if remote.exclusive {
        CleanupOps(mid[|start|..], remote.log[|mid|..], orphans, Removes(rules), done, resource);
        AloneFrame(before, ext, orphans, resource);
      }
      if done == |rules| {
        SweepSucceeds(remote.initial, start, mid, remote.log, j, grants, rules, resource);
      }
    }
  }

  // ---------------------------------------------------------------------------------------------
  // Granting and revoking
  // ---------------------------------------------------------------------------------------------

  /** Whatever of the calls left behind still lands, none of the rules comes back. */
  ghost predicate Final(stored: set<Rule>, orphans: set<Op>, rules: seq<Rule>) {
    forall landed: seq<Op> :: Only(landed, orphans) ==> SetOf(rules) !! Replay(stored, landed)
  }

  /** A call left behind adds one of the rules. */
  ghost predicate Revived(orphans: set<Op>, rules: seq<Rule>) {
    exists r :: r in rules && Add(r) in orphans
  }

  lemma RevokeFinal(before: set<Rule>, log: seq<Op>, orphans: set<Op>, rules: seq<Rule>)
    requires Only(log, SetOf(Removes(rules)) + orphans)
    requires forall k :: 0 <= k < |rules| ==> Removes(rules)[k] in log
    ensures Final(Replay(before, log), orphans, rules) <==> !Revived(orphans, rules)
  {
    var stored := Replay(before, log);
    if r :| r in rules && Add(r) in orphans {
      assert Only([Add(r)], orphans) && [Add(r)][..0] == [];
      assert r in Replay(stored, [Add(r)]);
      assert r in SetOf(rules);
    } else {
      forall landed: seq<Op>, r | Only(landed, orphans) && r in SetOf(rules) ensures r !in Replay(stored, landed) {
        StaysOut(before, log, landed, orphans, rules, r);
      }
    }
  }

  lemma StaysOut(before: set<Rule>, log: seq<Op>, landed: seq<Op>, orphans: set<Op>, rules: seq<Rule>, r: Rule)
    requires Only(log, SetOf(Removes(rules)) + orphans) && Only(landed, orphans) && !Revived(orphans, rules)
    requires (forall k :: 0 <= k < |rules| ==> Removes(rules)[k] in log) && r in rules
    ensures r !in Replay(Replay(before, log), landed)
  {
    var k :| 0 <= k < |rules| && rules[k] == r;
    assert Removes(rules)[k] == Remove(r) && Remove(r) in log + landed;
    ReplayConcat(before, log, landed);
    ReplayOneWay(before, log + landed, Remove(r));
  }

  lemma {:induction false} OthersStay(before: set<Rule>, log: seq<Op>, rules: seq<Rule>)
    requires forall op :: op in log ==> op.rule in rules
    ensures Replay(before, log) - SetOf(rules) == before - SetOf(rules)
  {
    if log != [] {
      assert log[|log| - 1] in log;
      OthersStay(before, log[..|log| - 1], rules);
    }
  }

  /** Grant and then Revoke of one grant, with nobody else writing.  However the Grant went, no other
      rule is touched, and a Revoke that succeeds leaves the initial store without the rules, now and
      for good, exactly if the Grant left no call behind that adds one of them. */
  method GrantThenRevoke(a: Adapter, granting: Context?, revoking: Context?, grant: Grant, mapper: Mapper)
    returns (g: Outcome, r: Outcome)
    requires a.remote.Valid() && a.remote.exclusive && a.remote.orphans == {}
    requires (granting != null ==> granting.Valid()) && (revoking != null ==> revoking.Valid())
    modifies a.remote, granting, revoking
    ensures a.remote.Valid()
    ensures Plan(mapper, grant).Err? ==> g.Rejected? && r.Rejected? && a.remote.rules == old(a.remote.rules)
    ensures Plan(mapper, grant).Ok? ==>
              var rules := Plan(mapper, grant).value;
              var kept := old(a.remote.rules) - SetOf(rules);
              && a.remote.rules - SetOf(rules) == kept
              && (r.Done? && !g.Cancelled? ==> a.remote.orphans == {})
              && (r.Done? ==> (Final(a.remote.rules, a.remote.orphans, rules) <==> !Revived(a.remote.orphans, rules)))
              && (r.Done? && !Revived(a.remote.orphans, rules) ==> a.remote.rules == kept)
  {
    ghost var start, initial, done := a.remote.log, a.remote.rules, 0;
    g, done := a.Grant(granting, grant, mapper);
    ghost var mid, behind := a.remote.log, a.remote.orphans;
    ghost var granted := done;
    r, done := a.Revoke(revoking, grant, mapper);
    if Plan(mapper, grant).Ok? {
      ghost var rules := Plan(mapper, grant).value;
      a.remote.Rebase(start);
      OnlyTheRules(start, mid, a.remote.log, behind, rules, granted, done);
      OthersStay(initial, a.remote.log[|start|..], rules);
      if r.Done? && !Revived(a.remote.orphans, rules) {
        FinalNow(a.remote.rules, a.remote.orphans, rules);
      }
    }
  }

  lemma FinalNow(stored: set<Rule>, orphans: set<Op>, rules: seq<Rule>)
    requires Final(stored, orphans, rules)
    ensures stored - SetOf(rules) == stored
  {
    assert Only([], orphans) && Replay(stored, []) == stored;
  }

  /** Grant and Revoke of the same rules write no other rule. */
  lemma OnlyTheRules(start: seq<Op>, mid: seq<Op>, log: seq<Op>, behind: set<Op>, rules: seq<Rule>, g: nat, r: nat)
    requires start <= mid <= log && g <= |rules| && r <= |rules|
    requires Only(mid[|start|..], SetOf(Reached(Adds(rules), g)) + {})
    requires behind <= SetOf(Reached(Adds(rules), g)) + {}
    requires Only(log[|mid|..], SetOf(Reached(Removes(rules), r)) + behind)
    ensures forall op :: op in log[|start|..] ==> op.rule in rules
  {
    assert log[|start|..] == mid[|start|..] + log[|mid|..];
    forall op | op in SetOf(Reached(Adds(rules), g)) ensures op.rule in rules {
      var i :| 0 <= i < |Reached(Adds(rules), g)| && Reached(Adds(rules), g)[i] == op;
      assert op == Add(rules[i]);
    }
    forall op | op in SetOf(Reached(Removes(rules), r)) ensures op.rule in rules {
      var i :| 0 <= i < |Reached(Removes(rules), r)| && Reached(Removes(rules), r)[i] == op;
      assert op == Remove(rules[i]);
    }
  }

  // ---------------------------------------------------------------------------------------------
  // Deleting the policies of a resource
  // ---------------------------------------------------------------------------------------------

  /** Cleaning up again and again until it succeeds, as docs/PERMISSION_LIFECYCLE.md asks of callers:
      with nobody else writing, whatever lands late, nothing that must be kept is ever lost, and the
      first success ends in exactly that, for good. */
  method DeleteUntilDone(a: Adapter, resource: string, tries: nat) returns (out: Outcome)
    requires a.remote.Valid() && a.remote.exclusive && resource != ""
    requires forall op :: op in a.remote.orphans ==> CleanupOp(op, resource)
    modifies a.remote
    ensures a.remote.Valid() && Kept(old(a.remote.rules), resource) <= a.remote.rules <= old(a.remote.rules)
    ensures out.Done? ==>
              && a.remote.rules == Kept(old(a.remote.rules), resource)
              && forall landed: seq<Op> :: Only(landed, a.remote.orphans) ==>
                   Replay(a.remote.rules, landed) == a.remote.rules
  {
    out := Failed;
    for i := 0 to tries
      invariant a.remote.Valid() && !out.Done?
      invariant Kept(old(a.remote.rules), resource) <= a.remote.rules <= old(a.remote.rules)
      invariant forall op :: op in a.remote.orphans ==> CleanupOp(op, resource)
    {
      ghost var before, log := a.remote.rules, a.remote.log;
      a.remote.Others(null);
      a.remote.Rebase(log);
      CleanupFrame(before, a.remote.log[|log|..], resource);
      KeptWithin(old(a.remote.rules), before, a.remote.rules, resource);
      ghost var landed := a.remote.rules;
      var ctx := new Context();
      out := a.DeleteResourcePoliciesEx(ctx, resource);
      KeptWithin(old(a.remote.rules), landed, a.remote.rules, resource);
      if out.Done? {
        CleanFinal(a.remote.rules, a.remote.orphans, resource);
        return;
      }
    }
  }

  lemma KeptWithin(a: set<Rule>, b: set<Rule>, c: set<Rule>, resource: string)
    requires Kept(a, resource) <= b <= a && Kept(b, resource) <= c <= b
    ensures Kept(a, resource) <= c <= a && Kept(b, resource) == Kept(a, resource)
  {
  }

  lemma CleanFinal(rules: set<Rule>, orphans: set<Op>, resource: string)
    requires Kept(rules, resource) == rules && forall op :: op in orphans ==> CleanupOp(op, resource)
    ensures forall landed: seq<Op> :: Only(landed, orphans) ==> Replay(rules, landed) == rules
  {
    forall landed: seq<Op> | Only(landed, orphans) ensures Replay(rules, landed) == rules {
      CleanupFrame(rules, landed, resource);
    }
  }

  /** From some step of the log on, everything of the resource that is there now was added. */
  ghost predicate Swept(before: set<Rule>, log: seq<Op>, after: set<Rule>, resource: string) {
    exists j :: SweptAfter(before, log, j, resource)
      && forall r :: r in after && PolicyOf(r, resource) && ThreeField(r) ==> AddedSince(before, log, j, r)
  }

  lemma Concluded(before: set<Rule>, log: seq<Op>, j: nat, resource: string)
    requires SweptAfter(before, log, j, resource)
    ensures Swept(before, log, Replay(before, log), resource)
    ensures (forall op :: op in log ==> CleanupOp(op, resource)) ==> Replay(before, log) == Kept(before, resource)
  {
    Survivors(before, log, j, resource);
    assert log + [] == log;
    if forall op :: op in log ==> CleanupOp(op, resource) {
      ConvergentCleanup(before, log, j, [], resource);
    }
  }

  /** The log was `start`, was `mid` after List, and now has all removals. */
  lemma SweepSucceeds(initial: set<Rule>, start: seq<Op>, mid: seq<Op>, log: seq<Op>, j: nat,
                      grants: seq<Listed>, rules: seq<Rule>, resource: string)
    requires start <= mid <= log && |start| <= j <= |mid|
    requires Snapshot(Replay(initial, mid[..j]), grants, resource) && AsRules(grants, rules)
    requires forall k :: 0 <= k < |rules| ==> Removes(rules)[k] in log[|mid|..]
    ensures
      var before, ext := Replay(initial, start), log[|start|..];
      && Swept(before, ext, Replay(before, ext), resource)
      && ((forall op :: op in ext ==> CleanupOp(op, resource)) ==> Replay(before, ext) == Kept(before, resource))
  {
    var before, ext := Replay(initial, start), log[|start|..];
    assert mid[..|start|] == start && ext == mid[|start|..] + log[|mid|..];
    SnapshotFrom(initial, mid, |start|, j);
    SweepComplete(before, mid[|start|..], log[|mid|..], j - |start|, grants, rules, resource);
    Concluded(before, ext, j - |start|, resource);
  }

  ghost predicate Lists(stored: set<Rule>, filter: Filter, g: Listed) {
    exists r :: r in stored && Matches(r, filter) && g == AsListed(r)
  }

  /** What List hands to the cleanup. */
  ghost predicate Snapshot(stored: set<Rule>, grants: seq<Listed>, resource: string) {
    forall g :: g in grants <==> Lists(stored, Filter("", resource, ""), g)
  }

  ghost predicate AsRules(grants: seq<Listed>, rules: seq<Rule>) {
    && |rules| == |grants|
    && forall i :: 0 <= i < |rules| ==>
         rules[i] == Policy(grants[i].subject, grants[i].resource, grants[i].action)
  }

  lemma SweepOps(stored: set<Rule>, grants: seq<Listed>, rules: seq<Rule>, resource: string)
    requires resource != "" && Snapshot(stored, grants, resource) && AsRules(grants, rules)
    ensures forall op :: op in Removes(rules) ==> CleanupOp(op, resource)
  {
    forall i | 0 <= i < |grants| ensures CleanupOp(Removes(rules)[i], resource) {
      assert grants[i] in grants;
    }
  }

  lemma CleanupOps(listing: seq<Op>, writing: seq<Op>, orphans: set<Op>, ops: seq<Op>, done: nat, resource: string)
    requires Only(listing, orphans) && Only(writing, SetOf(Reached(ops, done)) + orphans)
    requires forall op :: op in ops ==> CleanupOp(op, resource)
    ensures forall op :: op in listing + writing ==> op in orphans || CleanupOp(op, resource)
    ensures forall op :: op in SetOf(Reached(ops, done)) ==> CleanupOp(op, resource)
  {
  }

  lemma AloneFrame(before: set<Rule>, log: seq<Op>, orphans: set<Op>, resource: string)
    requires forall op :: op in log ==> op in orphans || CleanupOp(op, resource)
    ensures (forall op :: op in orphans ==> CleanupOp(op, resource)) ==>
              Kept(before, resource) <= Replay(before, log) <= before
  {
    if forall op :: op in orphans ==> CleanupOp(op, resource) {
      CleanupFrame(before, log, resource);
    }
  }

  /** Every three-field policy of the snapshot was listed, and what was listed was removed. */
  lemma SweepComplete(before: set<Rule>, listing: seq<Op>, writing: seq<Op>, j: nat,
                      grants: seq<Listed>, rules: seq<Rule>, resource: string)
    requires j <= |listing| && Snapshot(Replay(before, listing[..j]), grants, resource) && AsRules(grants, rules)
    requires forall k :: 0 <= k < |rules| ==> Removes(rules)[k] in writing
    ensures SweptAfter(before, listing + writing, j, resource)
  {
    var log := listing + writing;
    assert log[..j] == listing[..j];
    forall r | r in Replay(before, log[..j]) && PolicyOf(r, resource) && ThreeField(r)
      ensures exists i :: j <= i < |log| && log[i] == Remove(r)
    {
      assert Matches(r, Filter("", resource, ""));
      assert Lists(Replay(before, log[..j]), Filter("", resource, ""), AsListed(r));
      var k :| 0 <= k < |grants| && grants[k] == AsListed(r);
      assert Removes(rules)[k] == Remove(r);
      var i :| 0 <= i < |writing| && writing[i] == Remove(r);
      assert log[|listing| + i] == Remove(r);
    }
  }

  lemma Survivors(initial: set<Rule>, log: seq<Op>, j: nat, resource: string)
    requires SweptAfter(initial, log, j, resource)
    ensures forall r :: r in Replay(initial, log) && PolicyOf(r, resource) && ThreeField(r) ==>
              AddedSince(initial, log, j, r)
  {
    forall r | r in Replay(initial, log) && PolicyOf(r, resource) && ThreeField(r)
      ensures AddedSince(initial, log, j, r)
    {
      SurvivorsAreNew(initial, log, j, resource, r);
    }
  }

  datatype Filter = Filter(subject: string, resource: string, action: string)

  datatype Listed = Listed(subject: string, resource: string, action: string)

  predicate Matches(r: Rule, f: Filter) {
    r.ptype == "p" && (f.subject == "" || f.subject == r.v0) && (f.resource == "" || f.resource == r.v1)
    && (f.action == "" || f.action == r.v2)
  }

  function AsListed(r: Rule): Listed {
    Listed(r.v0, r.v1, r.v2)
  }

  /** A listing in terms of the stored fields: an empty filter field lets everything through. */
  lemma ListsFields(stored: set<Rule>, f: Filter, g: Listed)
    ensures Lists(stored, f, g)
       <==> f.subject in ["", g.subject] && f.resource in ["", g.resource] && f.action in ["", g.action]
            && exists v3, v4, v5 :: Rule("p", g.subject, g.resource, g.action, v3, v4, v5) in stored
  {
    if Lists(stored, f, g) {
      var r :| r in stored && Matches(r, f) && g == AsListed(r);
      assert Rule("p", g.subject, g.resource, g.action, r.v3, r.v4, r.v5) in stored;
    }
    if v3, v4, v5 :| Rule("p", g.subject, g.resource, g.action, v3, v4, v5) in stored {
      assert AsListed(Rule("p", g.subject, g.resource, g.action, v3, v4, v5)) == g;
    }
  }

  function RulesFor(g: Grant, actions: seq<string>): (rules: seq<Rule>)
    ensures |rules| == |actions|
    ensures forall i :: 0 <= i < |rules| ==> rules[i] == Policy(g.subject, g.resource, actions[i])
  {
    seq(|actions|, i requires 0 <= i < |actions| => Policy(g.subject, g.resource, actions[i]))
  }

  /** The rules a grant stands for, the same for Grant and for Revoke. */
  function Plan(mapper: Mapper, grant: Grant): Result<seq<Rule>, Permission.Error> {
    var g := NormalizeGrant(grant);
    if g.Err? then Err(g.error)
    else
      var actions := Addressed(mapper, g.value);
      if actions.Err? then Err(actions.error) else Ok(RulesFor(g.value, actions.value))
  }

  /** The rules GrantRole writes. */
  function RolePlan(mapper: Mapper, grant: Grant): Result<seq<Rule>, Permission.Error> {
    var g := NormalizeGrant(grant);
    if g.Err? then Err(g.error)
    else
      var actions := RoleAddressed(mapper, g.value);
      if actions.Err? then Err(actions.error) else Ok(RulesFor(g.value, actions.value))
  }

  /** The rules of a grant: its action, or else what the mapper makes of resource, role and custom
      actions, each as a rule of three fields for the grant's subject and resource. */
  lemma PlanFields(mapper: Mapper, grant: Grant)
    ensures
      var n := NormalizeGrant(grant);
      var mapped := mapper(grant.resource, TrimSpace(grant.role), grant.actions);
      var plan, rolePlan := Plan(mapper, grant), RolePlan(mapper, grant);
      && (n.Err? ==> plan == rolePlan == Err(n.error))
      && (n.Ok? && !Blank(grant.action) ==>
            plan == Ok([Rule("p", n.value.subject, grant.resource, TrimSpace(grant.action), "", "", "")]))
      && (n.Ok? && Blank(grant.action) ==> plan == rolePlan)
      && (n.Ok? && mapped.Err? ==> rolePlan == Err(mapped.error))
      && (n.Ok? && mapped.Ok? ==>
            && rolePlan.Ok? && |rolePlan.value| == |mapped.value|
            && forall i :: 0 <= i < |mapped.value| ==>
                 rolePlan.value[i] == Rule("p", n.value.subject, grant.resource, mapped.value[i], "", "", ""))
  {
    TrimSpaceTrims(grant.action);
    if NormalizeGrant(grant).Ok? {
      NormalizedFields(grant);
    }
    if NormalizeGrant(grant).Ok? && !Blank(grant.action) {
      assert RulesFor(NormalizeGrant(grant).value, [TrimSpace(grant.action)])
          == [Policy(NormalizeGrant(grant).value.subject, grant.resource, TrimSpace(grant.action))];
    }
  }

  lemma SettlesLate(before: set<Rule>, log: seq<Op>, op: Op)
    requires Only(log, {op})
    ensures Replay(before, log) == if log == [] then before else Effect(before, op)
    ensures forall landed: seq<Op>, late :: late <= {op} && Only(landed, late) ==>
              Replay(Replay(before, log), landed) in {before, Effect(before, op)}
  {
    Settles(before, log, op);
    assert Effect(Effect(before, op), op) == Effect(before, op);
    forall landed: seq<Op>, late | late <= {op} && Only(landed, late)
      ensures Replay(Replay(before, log), landed) in {before, Effect(before, op)}
    {
      assert Only(landed, {op});
      Settles(Replay(before, log), landed, op);
    }
  }
}
