/**
 db/tx.go: nested WithTx calls.

 A callback is written down as what it does when it runs: statements through `DB(ctx)`, nested
 `WithTx` calls, and what it returns.  Each step names the context it passes, the one the callback
 was given or one without a transaction, and whether an error of the step is ignored.  A panic is
 recovered by nobody.
 */
module Tx {
  import opened Sequences

  type Row = string

  /** A commit whose answer is lost has been applied and reports an error. */
  datatype Commit = Applied | Refused | AnswerLost

  datatype End = Nil | Error | Panic

  datatype Callback =
    | Return(end: End)
    | Write(row: Row, inner: bool, lands: bool, ignore: bool, rest: Callback)
    | Nested(call: Call, inner: bool, ignore: bool, rest: Callback)

  /** A callback with what the database does should a transaction be started for it. */
  datatype Call = Call(body: Callback, begins: bool, commit: Commit)

  /** What a callback does to the transaction it runs in and to the database outside of it; all rows
      written in order, the transactions started, and how it ends. */
  datatype Effect = Effect(inside: seq<Row>, outside: seq<Row>, writes: seq<Row>, begins: nat, end: End)

  /** Whether the callback that meets this end goes no further. */
  predicate Stops(end: End, ignore: bool) {
    end.Panic? || (end.Error? && !ignore)
  }

  function Then(e: Effect, f: Effect): Effect {
    Effect(e.inside + f.inside, e.outside + f.outside, e.writes + f.writes, e.begins + f.begins, f.end)
  }

  function Written(row: Row, inner: bool): Effect {
    if inner then Effect([row], [], [row], 0, Nil) else Effect([], [row], [row], 0, Nil)
  }

  lemma ThenAssociative(e: Effect, f: Effect, g: Effect)
    ensures Then(Then(e, f), g) == Then(e, Then(f, g))
  {
    Regroup(e.inside, f.inside, g.inside);
    Regroup(e.outside, f.outside, g.outside);
    Regroup(e.writes, f.writes, g.writes);
  }

  /** In a transaction. */
  function Run(cb: Callback): Effect
    decreases cb
  {
    match cb
    case Return(end) => Effect([], [], [], 0, end)
    case Write(row, inner, lands, ignore, rest) =>
      if !lands then if ignore then Run(rest) else Effect([], [], [], 0, Error)
      else Then(Written(row, inner), Run(rest))
    case Nested(call, inner, ignore, rest) =>
      var e := if inner then Run(call.body) else Alone(call);
      if Stops(e.end, ignore) then e else Then(e, Run(rest))
  }

  /** WithTx with a context that has no transaction yet. */
  function Alone(call: Call): Effect
    decreases call
  {
    if !call.begins then Effect([], [], [], 1, Error)
    else
      var e := Run(call.body);
      Effect([], e.outside + if e.end.Nil? && !call.commit.Refused? then e.inside else [], e.writes, 1 + e.begins,
             if e.end.Nil? && !call.commit.Applied? then Error else e.end)
  }

  // ---------------------------------------------------------------------------------------------
  // The manager
  // ---------------------------------------------------------------------------------------------

  class Transaction {
    var pending: seq<Row>

    constructor ()
      ensures pending == []
    {
      pending := [];
    }
  }

  class Database {
    var committed: seq<Row>
    /** Every row written by a statement that succeeded, kept or not. */
    ghost var written: seq<Row>
    ghost var begins: nat

    /** Transaction of GORM up to the callback. */
    method Begin(ok: bool) returns (tx: Transaction)
      modifies this`begins
      ensures fresh(tx) && tx.pending == []
      ensures begins == old(begins) + 1
    {
      begins := begins + 1;
      tx := new Transaction();
    }

    method Finish(tx: Transaction, commit: Commit) returns (end: End)
      modifies this`committed
      ensures committed == old(committed) + if commit.Refused? then [] else tx.pending
      ensures end == if commit.Applied? then Nil else Error
    {
      if !commit.Refused? {
        committed := committed + tx.pending;
      }
      end := if commit.Applied? then Nil else Error;
    }
  }

  datatype Context = Background | InTx(tx: Transaction)

  function Footprint(ctx: Context): set<object> {
    if ctx.InTx? then {ctx.tx} else {}
  }

  class TxManager {
    const db: Database?

    constructor (db: Database?)
      ensures this.db == db
    {
      this.db := db;
    }

    /** One statement through DB(ctx). */
    method Exec(ctx: Context, row: Row, lands: bool)
      requires db != null
      modifies db, Footprint(ctx)
      ensures db.written == old(db.written) + (if lands then [row] else []) && db.begins == old(db.begins)
      ensures db.committed == old(db.committed) + if lands && ctx.Background? then [row] else []
      ensures ctx.InTx? ==> ctx.tx.pending == old(ctx.tx.pending) + if lands then [row] else []
    {
      if !lands {
        return;
      }
      db.written := db.written + [row];
      match ctx
      case InTx(tx) => tx.pending := tx.pending + [row];
      case Background => db.committed := db.committed + [row];
    }

    method WithTx(ctx: Context, call: Call) returns (end: End)
      modifies if db == null then {} else {db}, Footprint(ctx)
      ensures db == null ==> end == Error && (ctx.InTx? ==> ctx.tx.pending == old(ctx.tx.pending))
      ensures db != null ==>
        var e := if ctx.InTx? then Run(call.body) else Alone(call);
        && end == e.end && db.begins == old(db.begins) + e.begins
        && db.written == old(db.written) + e.writes && db.committed == old(db.committed) + e.outside
        && (ctx.InTx? ==> ctx.tx.pending == old(ctx.tx.pending) + e.inside)
      decreases call, 1
    {
      if db == null {
        return Error;
      }
      if ctx.InTx? {
        end := Call(ctx.tx, call.body);
        return;
      }
      var tx := db.Begin(call.begins);
      if !call.begins {
        return Error;
      }
      end := Call(tx, call.body);
      if end.Nil? {
        end := db.Finish(tx, call.commit);
      }
    }

    /** The callback, given a context with its transaction. */
    method Call(tx: Transaction, cb: Callback) returns (end: End)
      requires db != null
      modifies db, tx
      ensures end == Run(cb).end && db.begins == old(db.begins) + Run(cb).begins
      ensures db.written == old(db.written) + Run(cb).writes && db.committed == old(db.committed) + Run(cb).outside
      ensures tx.pending == old(tx.pending) + Run(cb).inside
      decreases cb, 0
    {
      match cb
      case Return(e) => end := e;
      case Write(row, inner, lands, ignore, rest) =>
        Exec(if inner then InTx(tx) else Background, row, lands);
        if !lands {
          if !ignore {
            return Error;
          }
          end := Call(tx, rest);
          return;
        }
        end := Call(tx, rest);
        Regrouped(old(tx.pending), old(db.committed), old(db.written), Written(row, inner), Run(rest));
      case Nested(call, inner, ignore, rest) =>
        ghost var e := if inner then Run(call.body) else Alone(call);
        end := WithTx(if inner then InTx(tx) else Background, call);
        if Stops(end, ignore) {
          return;
        }
        end := Call(tx, rest);
        Regrouped(old(tx.pending), old(db.committed), old(db.written), e, Run(rest));
    }
  }

  lemma Regrouped(pending: seq<Row>, committed: seq<Row>, written: seq<Row>, e: Effect, f: Effect)
    ensures pending + e.inside + f.inside == pending + Then(e, f).inside
    ensures committed + e.outside + f.outside == committed + Then(e, f).outside
    ensures written + e.writes + f.writes == written + Then(e, f).writes
  {
  }

  // ---------------------------------------------------------------------------------------------
  // Callbacks written as a list of statements
  // ---------------------------------------------------------------------------------------------

  datatype Statement = Statement(row: Row, inner: bool, lands: bool, ignore: bool)

  /** A callback that runs the statements one by one and then goes on as `rest`. */
  function Steps(list: seq<Statement>, rest: Callback): Callback {
    if list == [] then rest
    else Write(list[0].row, list[0].inner, list[0].lands, list[0].ignore, Steps(list[1..], rest))
  }

  /** Every statement succeeds or its error is ignored. */
  predicate Passing(list: seq<Statement>) {
    forall i :: 0 <= i < |list| ==> list[i].lands || list[i].ignore
  }

  /** The callback ends here: it returns, or a statement fails and the error is passed on. */
  predicate Ends(cb: Callback) {
    cb.Return? || (cb.Write? && !cb.lands && !cb.ignore)
  }

  function EndOf(cb: Callback): End {
    if cb.Return? then cb.end else Error
  }

  predicate NoCalls(cb: Callback)
    decreases cb
  {
    cb.Return? || (cb.Write? && NoCalls(cb.rest))
  }

  /** Every callback without nested calls is such a list, as far as it gets. */
  lemma {:induction false} AsSteps(cb: Callback) returns (list: seq<Statement>, last: Callback)
    requires NoCalls(cb)
    ensures Passing(list) && Ends(last) && cb == Steps(list, last)
    decreases cb
  {
    if Ends(cb) {
      return [], cb;
    }
    var more, end := AsSteps(cb.rest);
    list, last := [Statement(cb.row, cb.inner, cb.lands, cb.ignore)] + more, end;
    assert list[1..] == more;
  }

  /** The rows of the statements that succeed, of all of them or of those with one kind of context. */
  function Rows(list: seq<Statement>, inside: bool, outside: bool): seq<Row> {
    if list == [] then []
    else
      var s := list[0];
      (if s.lands && (if s.inner then inside else outside) then [s.row] else []) + Rows(list[1..], inside, outside)
  }

  function Listed(list: seq<Statement>): Effect {
    Effect(Rows(list, true, false), Rows(list, false, true), Rows(list, true, true), 0, Nil)
  }

  /** Statements write what they say, each with its context. */
  lemma {:induction false} StepsRun(list: seq<Statement>, rest: Callback)
    requires Passing(list)
    ensures Run(Steps(list, rest)) == Then(Listed(list), Run(rest))
  {
    if list == [] {
      NothingThen(Nil, Run(rest));
    } else {
      StepsRun(list[1..], rest);
      if list[0].lands {
        ThenAssociative(Written(list[0].row, list[0].inner), Listed(list[1..]), Run(rest));
      }
    }
  }

  /** WithTx around a list of statements: what is written through the transaction is kept exactly if
      the callback returns nil and the commit takes effect. */
  lemma TransactionRows(list: seq<Statement>, last: Callback, begins: bool, commit: Commit)
    requires Passing(list) && Ends(last)
    ensures
      var e, nil := Alone(Call(Steps(list, last), begins, commit)), EndOf(last).Nil?;
      && e.begins == 1 && e.inside == []
      && (!begins ==> e.outside == e.writes == [] && e.end == Error)
      && (begins ==> e.writes == Rows(list, true, true))
      && (begins && nil && !commit.Refused? ==> e.outside == Rows(list, false, true) + Rows(list, true, false))
      && (begins && !(nil && !commit.Refused?) ==> e.outside == Rows(list, false, true))
      && (begins && !nil ==> e.end == EndOf(last))
      && (begins && nil ==> e.end == if commit.Applied? then Nil else Error)
  {
    ListRun(list, last);
    var body := Steps(list, last);
    AloneRun(body, begins, commit, Listed(list), EndOf(last));
  }

  lemma ListRun(list: seq<Statement>, last: Callback)
    requires Passing(list) && Ends(last)
    ensures Run(Steps(list, last)) == Listed(list).(end := EndOf(last))
  {
    StepsRun(list, last);
    ThenEnd(Listed(list), EndOf(last));
  }

  lemma AloneRun(body: Callback, begins: bool, commit: Commit, e: Effect, end: End)
    requires Run(body) == e.(end := end)
    ensures Alone(Call(body, begins, commit)) ==
      if !begins then Effect([], [], [], 1, Error)
      else
        Effect([], e.outside + if end.Nil? && !commit.Refused? then e.inside else [], e.writes, 1 + e.begins,
               if end.Nil? && !commit.Applied? then Error else end)
  {
  }

  lemma ThenEnd(e: Effect, end: End)
    ensures Then(e, Effect([], [], [], 0, end)) == e.(end := end)
  {
  }

  /** A WithTx nested in the transaction runs the statements as if they stood in its place. */
  lemma NestedSteps(list: seq<Statement>, last: Callback, begins: bool, commit: Commit, ignore: bool, rest: Callback)
    requires Passing(list) && Ends(last)
    ensures
      var end := EndOf(last);
      Run(Nested(Call(Steps(list, last), begins, commit), true, ignore, rest)) ==
        Run(Steps(list, if end.Panic? || (end.Error? && !ignore) then Return(end) else rest))
  {
    StepsRun(list, last);
    StepsRun(list, rest);
    StepsRun(list, Return(EndOf(last)));
  }

  /** A WithTx nested with a context without a transaction is one of its own: its rows are kept
      whatever becomes of the transaction around it. */
  lemma NestedApart(list: seq<Statement>, ignore: bool, rest: Callback)
    requires Passing(list)
    ensures
      var r := Run(Nested(Call(Steps(list, Return(Nil)), true, Applied), false, ignore, rest));
      && r.inside == Run(rest).inside && r.begins == 1 + Run(rest).begins && r.end == Run(rest).end
      && r.outside == Rows(list, false, true) + Rows(list, true, false) + Run(rest).outside
      && r.writes == Rows(list, true, true) + Run(rest).writes
  {
    TransactionRows(list, Return(Nil), true, Applied);
  }

  // ---------------------------------------------------------------------------------------------
  // One transaction
  // ---------------------------------------------------------------------------------------------

  /** Whatever is done before an error ends the callback is done with the context given. */
  predicate Keeps(cb: Callback)
    decreases cb
  {
    match cb
    case Return(_) => true
    case Write(_, inner, lands, ignore, rest) => (lands ==> inner) && (lands || ignore ==> Keeps(rest))
    case Nested(call, inner, ignore, rest) =>
      inner && Keeps(call.body) && (!Stops(Run(call.body).end, ignore) ==> Keeps(rest))
  }

  /** No further transaction is started and nothing written around this one exactly then. */
  lemma {:induction false} KeepsExactly(cb: Callback)
    ensures Keeps(cb) <==> Run(cb).begins == 0 && Run(cb).outside == []
    ensures Keeps(cb) ==> Run(cb).inside == Run(cb).writes
    decreases cb
  {
    match cb
    case Return(_) =>
    case Write(_, _, _, _, rest) => KeepsExactly(rest);
    case Nested(call, _, _, rest) =>
      KeepsExactly(call.body);
      KeepsExactly(rest);
  }

  /** A tree of WithTx calls is one transaction: one begin, and of all rows written either all are
      kept or none.  All are if nil is returned. */
  lemma AllOrNothing(call: Call)
    requires Keeps(call.body)
    ensures var e := Alone(call);
      && e.begins == 1
      && e.outside == (if call.begins && Run(call.body).end.Nil? && !call.commit.Refused? then e.writes else [])
      && (e.end.Nil? <==> call.begins && Run(call.body).end.Nil? && call.commit.Applied?)
      && (e.end.Nil? ==> e.outside == e.writes)
  {
    KeepsExactly(call.body);
  }

  /** A callback that does use another context shows when its transaction is not committed. */
  lemma OneTransactionExactly(body: Callback)
    ensures var e := Alone(Call(body, true, Refused));
      (e.begins == 1 && e.outside == []) <==> Keeps(body)
  {
    KeepsExactly(body);
  }

  /** With any use of contexts, no row is kept that was not written, and none twice. */
  lemma {:induction false} NothingInvented(cb: Callback)
    ensures multiset(Run(cb).inside) + multiset(Run(cb).outside) <= multiset(Run(cb).writes)
    decreases cb
  {
    match cb
    case Return(_) =>
    case Write(_, _, _, _, rest) => NothingInvented(rest);
    case Nested(call, inner, _, rest) =>
      NothingInvented(call.body);
      NothingInvented(rest);
  }

  // ---------------------------------------------------------------------------------------------
  // The same without nesting
  // ---------------------------------------------------------------------------------------------

  /** The callback's steps with those of the calls it nests in place of the calls, going on with
      `next` where it ends without an error or with one that is ignored. */
  function Flatten(cb: Callback, ignored: bool, next: Callback): Callback
    decreases cb
  {
    match cb
    case Return(end) => if Stops(end, ignored) then cb else next
    case Write(row, inner, lands, ignore, rest) =>
      if !lands && !ignore then if ignored then next else Return(Error)
      else Write(row, inner, lands, ignore, Flatten(rest, ignored, next))
    case Nested(call, inner, ignore, rest) =>
      if !inner then
        if Stops(Alone(call).end, ignore) then Nested(call, inner, ignored, next)
        else Nested(call, inner, ignore, Flatten(rest, ignored, next))
      else if Stops(Run(call.body).end, ignore) then Flatten(call.body, ignored, next)
      else Flatten(call.body, ignore, Flatten(rest, ignored, next))
  }

  /** No call is nested in the transaction of the callback. */
  predicate Flat(cb: Callback)
    decreases cb
  {
    match cb
    case Return(_) => true
    case Write(_, _, _, _, rest) => Flat(rest)
    case Nested(_, inner, _, rest) => !inner && Flat(rest)
  }

  /** First `e`, then `f` unless the end of `e` stops it. */
  function Continue(e: Effect, ignored: bool, f: Effect): Effect {
    if Stops(e.end, ignored) then e else Then(e, f)
  }

  lemma ContinueAfter(e: Effect, f: Effect, ignored: bool, g: Effect)
    ensures Then(e, Continue(f, ignored, g)) == Continue(Then(e, f), ignored, g)
  {
    ThenAssociative(e, f, g);
  }

  lemma {:induction false} FlattenIsFlat(cb: Callback, ignored: bool, next: Callback)
    requires Flat(next)
    ensures Flat(Flatten(cb, ignored, next))
    decreases cb
  {
    match cb
    case Return(_) =>
    case Write(_, _, _, _, rest) => FlattenIsFlat(rest, ignored, next);
    case Nested(call, _, ignore, rest) =>
      FlattenIsFlat(rest, ignored, next);
      FlattenIsFlat(call.body, ignored, next);
      FlattenIsFlat(call.body, ignore, Flatten(rest, ignored, next));
  }

  lemma WriteContinues(cb: Callback, ignored: bool, next: Callback)
    requires cb.Write? && Run(Flatten(cb.rest, ignored, next)) == Continue(Run(cb.rest), ignored, Run(next))
    ensures Run(Flatten(cb, ignored, next)) == Continue(Run(cb), ignored, Run(next))
  {
    if cb.lands {
      ContinueAfter(Written(cb.row, cb.inner), Run(cb.rest), ignored, Run(next));
    } else if !cb.ignore && ignored {
      NothingThen(Error, Run(next));
    }
  }

  lemma NothingThen(end: End, e: Effect)
    ensures Then(Effect([], [], [], 0, end), e) == e
  {
  }

  lemma NestedContinues(e: Effect, ignore: bool, f: Effect, ignored: bool, g: Effect)
    ensures Continue(Continue(e, ignore, f), ignored, g) ==
      if Stops(e.end, ignore) then Continue(e, ignored, g) else Continue(e, ignore, Continue(f, ignored, g))
  {
    ContinueAfter(e, f, ignored, g);
  }

  lemma {:induction false} FlattenRuns(cb: Callback, ignored: bool, next: Callback)
    ensures Run(Flatten(cb, ignored, next)) == Continue(Run(cb), ignored, Run(next))
    decreases cb
  {
    match cb
    case Return(end) => NothingThen(end, Run(next));
    case Write(_, _, _, _, rest) =>
      FlattenRuns(rest, ignored, next);
      WriteContinues(cb, ignored, next);
    case Nested(call, inner, ignore, rest) =>
      var e := if inner then Run(call.body) else Alone(call);
      assert Run(cb) == Continue(e, ignore, Run(rest));
      FlattenRuns(rest, ignored, next);
      NestedContinues(e, ignore, Run(rest), ignored, Run(next));
      if inner && Stops(e.end, ignore) {
        FlattenRuns(call.body, ignored, next);
      } else if inner {
        FlattenRuns(call.body, ignore, Flatten(rest, ignored, next));
      }
  }

  /** Nesting makes no difference: every callback does what its flattened form does, also where an
      error of a nested call is ignored. */
  lemma NestingCollapses(cb: Callback)
    ensures Flat(Flatten(cb, false, Return(Nil)))
    ensures Run(Flatten(cb, false, Return(Nil))) == Run(cb)
  {
    FlattenIsFlat(cb, false, Return(Nil));
    FlattenRuns(cb, false, Return(Nil));
    assert Continue(Run(cb), false, Run(Return(Nil))) == Run(cb);
  }
}
