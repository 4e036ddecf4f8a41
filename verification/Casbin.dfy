/** The remote rule store: a set of Casbin rules, and what a history of writes makes of it. */
module Casbin {
  datatype Rule = Rule(ptype: string, v0: string, v1: string, v2: string, v3: string, v4: string, v5: string)

  datatype Op = Add(rule: Rule) | Remove(rule: Rule)

  /** The rule addPolicy and removePolicy name: three fields, the rest empty. */
  function Policy(subject: string, resource: string, action: string): Rule {
    Rule("p", subject, resource, action, "", "", "")
  }

  predicate ThreeField(r: Rule) {
    r.v3 == "" && r.v4 == "" && r.v5 == ""
  }

  predicate PolicyOf(r: Rule, resource: string) {
    r.ptype == "p" && r.v1 == resource
  }

  /** Adding a rule that is there and removing one that is not are no-ops. */
  function Effect(rules: set<Rule>, op: Op): set<Rule> {
    match op
    case Add(r) => rules + {r}
    case Remove(r) => rules - {r}
  }

  function Replay(rules: set<Rule>, log: seq<Op>): set<Rule> {
    if log == [] then rules else Effect(Replay(rules, log[..|log| - 1]), log[|log| - 1])
  }

  ghost predicate Only(log: seq<Op>, ops: set<Op>) {
    forall op :: op in log ==> op in ops
  }

  lemma {:induction false} ReplayConcat(rules: set<Rule>, a: seq<Op>, b: seq<Op>)
    ensures Replay(rules, a + b) == Replay(Replay(rules, a), b)
  {
    if b == [] {
      assert a + b == a;
    } else {
      assert (a + b)[..|a + b| - 1] == a + b[..|b| - 1];
      ReplayConcat(rules, a, b[..|b| - 1]);
    }
  }

  /** A rule the history never names is where it was. */
  lemma {:induction false} ReplayUntouched(rules: set<Rule>, log: seq<Op>, r: Rule)
    requires forall op :: op in log ==> op.rule != r
    ensures r in Replay(rules, log) <==> r in rules
  {
    if log != [] {
      ReplayUntouched(rules, log[..|log| - 1], r);
    }
  }

  /** If all writes to a rule go one way, one is enough and more make no difference. */
  lemma {:induction false} ReplayOneWay(rules: set<Rule>, log: seq<Op>, op: Op)
    requires op in log && forall e :: e in log && e.rule == op.rule ==> e == op
    ensures op.rule in Replay(rules, log) <==> op.Add?
  {
    var n := |log| - 1;
    if log[n] != op {
      assert op in log[..n];
      ReplayOneWay(rules, log[..n], op);
    }
  }

  /** Whatever is done to one rule alone, in any order and with any repetition of a single write:
      the store is as before, or that write took effect. */
  lemma Settles(rules: set<Rule>, log: seq<Op>, op: Op)
    requires Only(log, {op})
    ensures Replay(rules, log) == if log == [] then rules else Effect(rules, op)
  {
    forall r ensures r in Replay(rules, log) <==> r in (if log == [] then rules else Effect(rules, op)) {
      if r == op.rule && log != [] {
        assert log[0] in log;
        ReplayOneWay(rules, log, op);
      } else {
        ReplayUntouched(rules, log, r);
      }
    }
  }

  // ---------------------------------------------------------------------------------------------
  // Adding or removing a list of rules, rule by rule
  // ---------------------------------------------------------------------------------------------

  function Adds(rules: seq<Rule>): (ops: seq<Op>)
    ensures |ops| == |rules| && forall i :: 0 <= i < |ops| ==> ops[i] == Add(rules[i])
  {
    seq(|rules|, i requires 0 <= i < |rules| => Add(rules[i]))
  }

  function Removes(rules: seq<Rule>): (ops: seq<Op>)
    ensures |ops| == |rules| && forall i :: 0 <= i < |ops| ==> ops[i] == Remove(rules[i])
  {
    seq(|rules|, i requires 0 <= i < |rules| => Remove(rules[i]))
  }

  function SetOf<T>(s: seq<T>): set<T> {
    set x | x in s
  }

  /** The part of a list a run can have reached when `done` items succeeded: one more. */
  function Reached<T>(s: seq<T>, done: nat): seq<T> {
    if done < |s| then s[..done + 1] else s
  }

  /** What a run over `ops` can have left in the log: the first `done` ones happened, the next one
      may have, and none beyond. */
  ghost predicate Progress(log: seq<Op>, ops: seq<Op>, done: nat) {
    && done <= |ops|
    && (forall i :: 0 <= i < done ==> ops[i] in log)
    && Only(log, SetOf(Reached(ops, done)))
  }

  ghost predicate Granted(before: set<Rule>, after: set<Rule>, rules: seq<Rule>, done: nat) {
    done <= |rules| && before + SetOf(rules[..done]) <= after <= before + SetOf(Reached(rules, done))
  }

  ghost predicate Revoked(before: set<Rule>, after: set<Rule>, rules: seq<Rule>, done: nat) {
    done <= |rules| && before - SetOf(Reached(rules, done)) <= after <= before - SetOf(rules[..done])
  }

  /** A run of Adds that stops at rule `done` has added the rules before it and touched no other
      rule but possibly that one. */
  lemma AddProgress(before: set<Rule>, log: seq<Op>, rules: seq<Rule>, done: nat)
    requires Progress(log, Adds(rules), done)
    ensures Granted(before, Replay(before, log), rules, done)
  {
    forall r ensures
      && (r in before || r in rules[..done] ==> r in Replay(before, log))
      && (r in Replay(before, log) ==> r in before || r in Reached(rules, done))
    {
      if Add(r) in log {
        ReplayOneWay(before, log, Add(r));
        var i :| 0 <= i < |Reached(Adds(rules), done)| && Reached(Adds(rules), done)[i] == Add(r);
        assert Reached(rules, done)[i] == r;
      } else {
        ReplayUntouched(before, log, r);
      }
    }
  }

  /** The same for a run of Removes. */
  lemma RemoveProgress(before: set<Rule>, log: seq<Op>, rules: seq<Rule>, done: nat)
    requires Progress(log, Removes(rules), done)
    ensures Revoked(before, Replay(before, log), rules, done)
  {
    forall r ensures
      && (r in Replay(before, log) ==> r in before && r !in rules[..done])
      && (r in before && r !in Reached(rules, done) ==> r in Replay(before, log))
    {
      if Remove(r) in log {
        ReplayOneWay(before, log, Remove(r));
        var i :| 0 <= i < |Reached(Removes(rules), done)| && Reached(Removes(rules), done)[i] == Remove(r);
        assert Reached(rules, done)[i] == r;
      } else {
        ReplayUntouched(before, log, r);
      }
    }
  }

  // ---------------------------------------------------------------------------------------------
  // Deleting the policies of a resource
  // ---------------------------------------------------------------------------------------------

  /** Rule r came into the store at some step of the log from `from` on. */
  ghost predicate AddedSince(initial: set<Rule>, log: seq<Op>, from: nat, r: Rule) {
    exists i :: from <= i < |log| && log[i] == Add(r) && r !in Replay(initial, log[..i])
  }

  /** Who was out at step `from` and is in at the end must have come in between. */
  lemma {:induction false} CameBack(initial: set<Rule>, log: seq<Op>, from: nat, r: Rule)
    requires from <= |log| && r !in Replay(initial, log[..from]) && r in Replay(initial, log)
    ensures AddedSince(initial, log, from, r)
  {
    var n := |log| - 1;
    assert log[..|log|] == log;
    if r in Replay(initial, log[..n]) {
      assert log[..n][..from] == log[..from];
      CameBack(initial, log[..n], from, r);
      var i :| from <= i < n && log[..n][i] == Add(r) && r !in Replay(initial, log[..n][..i]);
      assert log[..n][..i] == log[..i];
      assert log[i] == Add(r);
    }
  }

  lemma AddedEarlier(initial: set<Rule>, log: seq<Op>, from: nat, earlier: nat, r: Rule)
    requires AddedSince(initial, log, from, r) && earlier <= from
    ensures AddedSince(initial, log, earlier, r)
  {
    var i :| from <= i < |log| && log[i] == Add(r) && r !in Replay(initial, log[..i]);
    assert earlier <= i;
  }

  /** The log swept a resource: a snapshot was taken at step j, and each three-field policy of the
      resource in it was removed later on. */
  ghost predicate SweptAfter(initial: set<Rule>, log: seq<Op>, j: nat, resource: string) {
    && j <= |log|
    && forall r :: r in Replay(initial, log[..j]) && PolicyOf(r, resource) && ThreeField(r) ==>
         exists i :: j <= i < |log| && log[i] == Remove(r)
  }

  lemma RemovedAt(initial: set<Rule>, log: seq<Op>, i: nat)
    requires i < |log| && log[i].Remove?
    ensures log[i].rule !in Replay(initial, log[..i + 1])
  {
    assert log[..i + 1][..i] == log[..i];
  }

  /** Whatever others do meanwhile: every three-field policy of the resource that is still there
      after a sweep came in after the snapshot. */
  lemma SurvivorsAreNew(initial: set<Rule>, log: seq<Op>, j: nat, resource: string, r: Rule)
    requires SweptAfter(initial, log, j, resource)
    requires r in Replay(initial, log) && PolicyOf(r, resource) && ThreeField(r)
    ensures AddedSince(initial, log, j, r)
  {
    if r in Replay(initial, log[..j]) {
      var i :| j <= i < |log| && log[i] == Remove(r);
      RemovedAt(initial, log, i);
      assert log[i].rule == r;
      CameBack(initial, log, i + 1, r);
      AddedEarlier(initial, log, i + 1, j, r);
    } else {
      CameBack(initial, log, j, r);
    }
  }

  /** A log read from a later point on. */
  lemma SnapshotFrom(initial: set<Rule>, log: seq<Op>, from: nat, j: nat)
    requires from <= j <= |log|
    ensures Replay(initial, log[..j]) == Replay(Replay(initial, log[..from]), log[from..][..j - from])
  {
    assert log[..j] == log[..from] + log[from..][..j - from];
    ReplayConcat(initial, log[..from], log[from..][..j - from]);
  }

  /** What DeleteResourcePoliciesEx sends for a resource, in any run, ever. */
  predicate CleanupOp(op: Op, resource: string) {
    op.Remove? && PolicyOf(op.rule, resource) && ThreeField(op.rule)
  }

  /** What a cleanup must leave alone. */
  function Kept(rules: set<Rule>, resource: string): set<Rule> {
    set r | r in rules && !(PolicyOf(r, resource) && ThreeField(r))
  }

  /** What is deleted and what stays, by the seven fields of a rule. */
  lemma KeptFields(rules: set<Rule>, resource: string, r: Rule)
    ensures CleanupOp(Remove(r), resource) <==> exists s, a :: r == Rule("p", s, resource, a, "", "", "")
    ensures r in Kept(rules, resource) <==> r in rules && forall s, a :: r != Rule("p", s, resource, a, "", "", "")
    ensures !CleanupOp(Add(r), resource)
  {
    if PolicyOf(r, resource) && ThreeField(r) {
      assert r == Rule("p", r.v0, resource, r.v2, "", "", "");
    }
  }

  /** Cleanup never touches anything but three-field policies of its resource. */
  lemma {:induction false} CleanupFrame(initial: set<Rule>, log: seq<Op>, resource: string)
    requires forall op :: op in log ==> CleanupOp(op, resource)
    ensures Kept(initial, resource) <= Replay(initial, log) <= initial
  {
    if log != [] {
      assert log[|log| - 1] in log;
      CleanupFrame(initial, log[..|log| - 1], resource);
    }
  }

  lemma NeverAdded(initial: set<Rule>, log: seq<Op>, j: nat, resource: string, r: Rule)
    requires forall op :: op in log ==> CleanupOp(op, resource)
    ensures !AddedSince(initial, log, j, r)
  {
    assert forall i :: 0 <= i < |log| ==> log[i] in log;
  }

  /** Any number of failed cleanups, orphaned calls landing at any time, then one that succeeds:
      exactly the three-field policies of the resource are gone. */
  lemma ConvergentCleanup(initial: set<Rule>, log: seq<Op>, j: nat, late: seq<Op>, resource: string)
    requires forall op :: op in log + late ==> CleanupOp(op, resource)
    requires SweptAfter(initial, log, j, resource)
    ensures Replay(initial, log + late) == Kept(initial, resource)
  {
    assert forall op :: op in log ==> op in log + late;
    assert forall op :: op in late ==> op in log + late;
    CleanupFrame(initial, log, resource);
    CleanupFrame(Replay(initial, log), late, resource);
    ReplayConcat(initial, log, late);
    forall r | PolicyOf(r, resource) && ThreeField(r) ensures r !in Replay(initial, log) {
      if r in Replay(initial, log) {
        NeverAdded(initial, log, j, resource, r);
        SurvivorsAreNew(initial, log, j, resource, r);
      }
    }
  }

  /** A successful cleanup leaves no policy of the resource exactly when all had three fields. */
  lemma CleanupComplete(initial: set<Rule>, log: seq<Op>, j: nat, resource: string)
    requires forall op :: op in log ==> CleanupOp(op, resource)
    requires SweptAfter(initial, log, j, resource)
    ensures (forall r :: r in Replay(initial, log) ==> !PolicyOf(r, resource))
       <==> (forall r :: r in initial && PolicyOf(r, resource) ==> ThreeField(r))
  {
    assert log + [] == log;
    ConvergentCleanup(initial, log, j, [], resource);
  }

  /** Adapter writes name three-field rules only, so they keep a three-field store three-field. */
  lemma {:induction false} ShapeKept(initial: set<Rule>, log: seq<Op>)
    requires forall op :: op in log ==> ThreeField(op.rule)
    requires forall r :: r in initial && r.ptype == "p" ==> ThreeField(r)
    ensures forall r :: r in Replay(initial, log) && r.ptype == "p" ==> ThreeField(r)
  {
    if log != [] {
      assert log[|log| - 1] in log;
      ShapeKept(initial, log[..|log| - 1]);
    }
  }
}
