/** The theorems about whole runs of interleaved transactions. */
module Runs {
  import opened Wrappers
  import opened Timestamps
  import opened CommitHashing
  import opened Tables
  import opened Transactions
  import opened Resolving
  import opened Views
  import opened Purging
  import opened Interleaving
  import opened InterleavingProofs
  import opened Schedules
  import StoreSpecs

  datatype Event = Event(i: nat, a: Action)

  /** The schedule takes s to o. */
  ghost predicate Run(e: Env, sha: Sha, s: Sys, schedule: seq<Event>, o: Sys)
    decreases |schedule|
  {
    if schedule == [] then o == s
    else
      var x := schedule[0];
      Enabled(s, x.i, x.a) && Run(e, sha, Next(e, sha, s, x.i, x.a), schedule[1..], o)
  }

  /** Sound tables, and transactions that have not begun. */
  ghost predicate Start(e: Env, s: Sys) {
    && Inv(e, s.db) && NoOrphans(s.db) && Below(s.db.docs, s.versions)
    && (forall t :: t in s.txns ==> t.phase.Idle? && Blank(t) && Acceptable(t.req))
  }

  lemma StartIsOk(e: Env, sha: Sha, s: Sys)
    requires Start(e, s)
    ensures SysOk(e, sha, s)
  {
    hide Inv, WritingOk;
    assert forall i :: 0 <= i < |s.txns| ==> s.txns[i] in s.txns;
  }

  /** The store's invariant holds after every run, and history has only been added to. */
  lemma {:induction false} RunKeeps(e: Env, sha: Sha, s: Sys, schedule: seq<Event>, o: Sys)
    requires SysOk(e, sha, s) && Run(e, sha, s, schedule, o)
    ensures SysOk(e, sha, o) && LaterThan(s.db, o.db)
    decreases |schedule|
  {
    hide SysOk, LaterThan, Enabled, Next;
    if schedule == [] {
      LaterThanItself(s.db, s.db);
    } else {
      var x := schedule[0];
      var m := Next(e, sha, s, x.i, x.a);
      StepKeeps(e, sha, s, x.i, x.a);
      RunKeeps(e, sha, m, schedule[1..], o);
      LaterThanTransitive(s.db, m.db, o.db);
    }
  }

  /**
   * Commit order is sequence order: once a transaction has committed, every transaction still
   * writing the same branch holds only greater numbers.
   */
  lemma CommitOrderIsSequenceOrder(e: Env, sha: Sha, start: Sys, schedule: seq<Event>, s: Sys, i: nat, j: nat)
    requires Start(e, start) && Run(e, sha, start, schedule, s)
    requires i < |s.txns| && j < |s.txns| && s.txns[i].phase == Ended(true) && s.txns[j].phase.Writing?
    requires Target(s.txns[i].req) == Target(s.txns[j].req)
    ensures forall m, n :: m in s.txns[i].ns && n in s.txns[j].ns ==> m < n
  {
    hide Inv, Run, Start, Refused, Apart, Made, MadeFiles;
    StartIsOk(e, sha, start);
    RunKeeps(e, sha, start, schedule, s);
    var t, u := s.txns[i], s.txns[j];
    assert TxnOk(e, sha, s.db, s.versions, t) && TxnOk(e, sha, s.db, s.versions, u);
    if u.req.BranchReq? || u.req.DeleteReq? || u.req.ReviewReq? {
      assert u.ns == [];
    } else {
      assert Target(u.req) in AllLocks(u.req);
    }
  }

  // ---------------------------------------------------------------------------
  // Runs are serial
  // ---------------------------------------------------------------------------

  /** The tables a request leaves, given the tables at its commit and the numbers it took. */
  ghost predicate Does(e: Env, sha: Sha, r: Repo, q: Request, ns: seq<nat>, s: Repo)
    requires (q.b in r.branches || q.BranchReq?) && MAIN in r.branches
  {
    match q
    case CommitReq(b, author, message, at, changes) =>
      |ns| == 1 && exists rows: Changes, added: map<nat, Doc> ::
          added.Keys !! r.docs.Keys && Contents(r.docs + added, rows) == HashesOf(sha, changes)
          && s == CommitTo(e, r, b, author, message, at, ns[0], rows, added)
    case MergeReq(b, author, at, dryRun) =>
      s == if dryRun then r else MergeInto(e, r, b, author, at, if ns == [] then 0 else ns[0])
    case RebaseReq(b, author, at) =>
      |SourcesOf(r, b)| == |ns| && s == RebaseOnto(e, r, b, author, Repeat(at, |ns|), ns)
    case BranchReq(b, draft, at) => s == BranchOff(r, b, draft, at)
    case DeleteReq(b) => s == WithStatus(r, b, Abandoned)
    case ReviewReq(b, id, reviewer, verdict) => s == AddReview(r, b, id, reviewer, verdict)
  }

  /** The checks of the request pass, and it takes r to s. */
  ghost predicate Performs(e: Env, sha: Sha, r: Repo, q: Request, ns: seq<nat>, s: Repo) {
    (q.b in r.branches || q.BranchReq?) && MAIN in r.branches && !Refused(r, q) && Does(e, sha, r, q, ns, s)
  }

  lemma CommitDoes(e: Env, sha: Sha, r: Repo, v: nat, t: Txn, s: Repo)
    requires t.req.CommitReq? && WritingOk(e, sha, r, v, t) && t.done == |t.plan| == |t.ns| && MAIN in r.branches
    requires var q := t.req;
      && |t.plan| > 0
      && s == CommitTo(e, r, q.b, q.author, q.message, q.at, t.ns[0], t.plan[0].rows, t.docs)
      && Contents(s.docs, t.plan[0].rows) == HashesOf(sha, q.changes) && t.docs.Keys !! r.docs.Keys
    ensures Does(e, sha, r, t.req, t.ns, s)
  {
    hide Refused, NumbersOk, Made, MadeFiles, Contents, HashesOf, Inv;
    var rows, added := t.plan[0].rows, t.docs;
    assert added.Keys !! r.docs.Keys && Contents(r.docs + added, rows) == HashesOf(sha, t.req.changes);
  }

  /**
   * What a transaction read is still so when it commits: its checks hold of the tables at that
   * moment, and it does to them, in one step, what the request asks.
   */
  lemma FinishRefines(e: Env, sha: Sha, s: Sys, i: nat)
    requires SysOk(e, sha, s) && Enabled(s, i, Finish)
    ensures Performs(e, sha, s.db, s.txns[i].req, s.txns[i].ns, Next(e, sha, s, i, Finish).db)
  {
    hide Inv, LaterThan, Apply, Refused, AddedOk, RowsOk, NumbersOk, Made, MadeFiles, Apart, CommitTo, MergeInto,
      RebaseOnto, Contents, HashesOf;
    var t := s.txns[i];
    assert TxnOk(e, sha, s.db, s.versions, t);
    match t.req
    case CommitReq(b, author, message, at, changes) =>
      FinishCommit(e, sha, s.db, s.versions, t);
      CommitDoes(e, sha, s.db, s.versions, t, Apply(s.db, t));
    case MergeReq(_, _, _, _) => FinishMerge(e, sha, s.db, s.versions, t);
    case RebaseReq(_, _, _) => FinishRebase(e, sha, s.db, s.versions, t);
    case _ => FinishOther(e, sha, s.db, s.versions, t);
  }

  /** A value of the sequence taken, or a request carried out with the numbers it took. */
  datatype Deed = Took | Did(q: Request, ns: seq<nat>)

  /** The deeds one after another, each in one step on the tables it finds, lead from r to o. */
  ghost predicate Serial(e: Env, sha: Sha, r: Repo, deeds: seq<Deed>, o: Repo)
    decreases |deeds|
  {
    if deeds == [] then o == r
    else match deeds[0]
      case Took => Serial(e, sha, StoreSpecs.Alloc(r, 1), deeds[1..], o)
      case Did(q, ns) => exists m :: Performs(e, sha, r, q, ns, m) && Serial(e, sha, m, deeds[1..], o)
  }

  /** The commits of a run in their order, and the numbers taken between them. */
  ghost function Deeds(e: Env, sha: Sha, s: Sys, schedule: seq<Event>): seq<Deed>
    decreases |schedule|
  {
    if schedule == [] || !Enabled(s, schedule[0].i, schedule[0].a) then []
    else
      var i, a := schedule[0].i, schedule[0].a;
      var rest := Deeds(e, sha, Next(e, sha, s, i, a), schedule[1..]);
      if a.Allocate? then [Took] + rest
      else if a.Finish? then [Did(s.txns[i].req, s.txns[i].ns)] + rest
      else rest
  }

  lemma SerialCons(e: Env, sha: Sha, r: Repo, q: Request, ns: seq<nat>, m: Repo, rest: seq<Deed>, o: Repo)
    requires Performs(e, sha, r, q, ns, m) && Serial(e, sha, m, rest, o)
    ensures Serial(e, sha, r, [Did(q, ns)] + rest, o)
  {
    hide Performs;
    assert ([Did(q, ns)] + rest)[1..] == rest;
  }

  lemma TookCons(e: Env, sha: Sha, r: Repo, rest: seq<Deed>, o: Repo)
    requires Serial(e, sha, StoreSpecs.Alloc(r, 1), rest, o)
    ensures Serial(e, sha, r, [Took] + rest, o)
  {
    hide Performs;
    assert ([Took] + rest)[1..] == rest;
  }

  lemma SerialNothing(e: Env, sha: Sha, r: Repo)
    ensures Serial(e, sha, r, [], r)
  {
  }

  lemma QuietStep(e: Env, sha: Sha, s: Sys, i: nat, a: Action)
    requires Enabled(s, i, a) && !a.Finish?
    ensures Next(e, sha, s, i, a).db == if a.Allocate? then StoreSpecs.Alloc(s.db, 1) else s.db
  {
    hide Free, Refused, NextTxn, NextResolution;
  }

  /**
   * Every run has the effect of its committed requests carried out one at a time, without
   * interleaving, in the order of their commits.
   */
  lemma {:induction false} RunIsSerial(e: Env, sha: Sha, s: Sys, schedule: seq<Event>, o: Sys)
    requires SysOk(e, sha, s) && Run(e, sha, s, schedule, o)
    ensures Serial(e, sha, s.db, Deeds(e, sha, s, schedule), o.db)
    decreases |schedule|
  {
    hide SysOk, Enabled, Next, Serial, Performs;
    if schedule == [] {
      SerialNothing(e, sha, s.db);
    } else {
      var i, a := schedule[0].i, schedule[0].a;
      var m := Next(e, sha, s, i, a);
      InRange(s, i, a);
      StepKeeps(e, sha, s, i, a);
      RunIsSerial(e, sha, m, schedule[1..], o);
      if a.Finish? {
        FinishRefines(e, sha, s, i);
        SerialCons(e, sha, s.db, s.txns[i].req, s.txns[i].ns, m.db, Deeds(e, sha, m, schedule[1..]), o.db);
      } else {
        QuietStep(e, sha, s, i, a);
        if a.Allocate? {
          TookCons(e, sha, s.db, Deeds(e, sha, m, schedule[1..]), o.db);
        }
      }
    }
  }

  // ---------------------------------------------------------------------------
  // No deadlock
  // ---------------------------------------------------------------------------

  lemma HolderMoves(e: Env, sha: Sha, s: Sys, i: nat) returns (a: Action)
    requires SysOk(e, sha, s) && i < |s.txns| && (s.txns[i].phase.Holding? || s.txns[i].phase.Writing?)
    ensures a != Abort && Enabled(s, i, a)
  {
    hide ChainOk, LogOk, HeadsOk, Covered, ReviewsOk, Refused, Made, MadeFiles, NumbersOk, AddedOk, RowsOk, Apart,
      PlanOf;
    var t := s.txns[i];
    assert TxnOk(e, sha, s.db, s.versions, t);
    assert MAIN in s.db.branches;
    if t.phase.Holding? {
      assert t.req.b in AllLocks(t.req) || t.req.BranchReq?;
      a := if Refused(s.db, t.req) then Reject else Read;
    } else if |t.ns| == t.done {
      a := if t.done == |t.plan| then Finish else Allocate;
    } else {
      a := if t.req.CommitReq? && t.resolved < |t.req.changes| then ResolveFile else Stamp;
    }
  }

  predicate Waits(t: Txn) { t.phase.Idle? || t.phase.HasMain? }

  /** Main is locked first, so a transaction holding only main waits for a branch nobody holds. */
  lemma MainHolderMoves(e: Env, sha: Sha, s: Sys, i: nat) returns (a: Action)
    requires SysOk(e, sha, s) && i < |s.txns| && s.txns[i].phase.HasMain?
    requires forall j :: 0 <= j < |s.txns| ==> Waits(s.txns[j]) || s.txns[j].phase.Ended?
    ensures a != Abort && Enabled(s, i, a)
  {
    hide ChainOk, LogOk, HeadsOk, Covered, ReviewsOk, WritingOk;
    var t := s.txns[i];
    assert TxnOk(e, sha, s.db, s.versions, t);
    assert MAIN in s.db.branches;
    assert t.req.b != MAIN;
    forall j | 0 <= j < |s.txns| && j != i ensures t.req.b !in Locks(s.txns[j]) {
      assert Apart(t, s.txns[j]);
    }
    a := if t.req.b in s.db.branches then LockBranch else NotFound;
  }

  /** With no lock held anywhere, whoever has not begun can begin. */
  lemma IdleMoves(e: Env, sha: Sha, s: Sys, i: nat) returns (a: Action)
    requires SysOk(e, sha, s) && i < |s.txns| && s.txns[i].phase.Idle?
    requires forall j :: 0 <= j < |s.txns| ==> Locks(s.txns[j]) == {}
    ensures a != Abort && Enabled(s, i, a)
  {
    hide ChainOk, LogOk, HeadsOk, Covered, ReviewsOk, WritingOk, TxnOk;
    var q := s.txns[i].req;
    assert MAIN in s.db.branches;
    a := if RefusedAtOnce(q) then Refuse
         else if TwoLocks(q) then LockMain
         else if LastLock(q) in s.db.branches then LockBranch
         else NotFound;
  }

  /** While a transaction is unfinished, some transaction can take a step that is not a failure. */
  lemma NoDeadlock(e: Env, sha: Sha, s: Sys) returns (i: nat, a: Action)
    requires SysOk(e, sha, s)
    requires exists j :: 0 <= j < |s.txns| && !s.txns[j].phase.Ended?
    ensures a != Abort && Enabled(s, i, a)
  {
    hide SysOk, Enabled;
    if j :| 0 <= j < |s.txns| && (s.txns[j].phase.Holding? || s.txns[j].phase.Writing?) {
      i := j;
      a := HolderMoves(e, sha, s, i);
    } else if j :| 0 <= j < |s.txns| && s.txns[j].phase.HasMain? {
      i := j;
      a := MainHolderMoves(e, sha, s, i);
    } else {
      var j :| 0 <= j < |s.txns| && !s.txns[j].phase.Ended?;
      i := j;
      a := IdleMoves(e, sha, s, i);
    }
  }

  // ---------------------------------------------------------------------------
  // Termination
  // ---------------------------------------------------------------------------

  /** Steps a transaction has left before its plan is known. */
  function Ahead(t: Txn): nat {
    match t.phase
    case Idle => 3
    case HasMain => 2
    case Holding => 1
    case Writing => 0
    case Ended(_) => 0
  }

  function Minus(m: nat, n: nat): nat { if n <= m then m - n else 0 }

  /** Steps a writing transaction has left. */
  function Todo(t: Txn): nat {
    if !t.phase.Writing? then 0
    else 1 + Minus(|t.plan|, |t.ns|) + Minus(|t.plan|, t.done)
         + (if t.req.CommitReq? then Minus(|t.req.changes|, t.resolved) else 0)
  }

  function SumAhead(ts: seq<Txn>): nat { if ts == [] then 0 else Ahead(ts[0]) + SumAhead(ts[1..]) }

  function SumTodo(ts: seq<Txn>): nat { if ts == [] then 0 else Todo(ts[0]) + SumTodo(ts[1..]) }

  lemma {:induction false} SumsUpdate(ts: seq<Txn>, i: nat, t: Txn)
    requires i < |ts|
    ensures SumAhead(ts[i := t]) == SumAhead(ts) - Ahead(ts[i]) + Ahead(t)
    ensures SumTodo(ts[i := t]) == SumTodo(ts) - Todo(ts[i]) + Todo(t)
  {
    hide Ahead, Todo;
    if i == 0 {
      assert ts[i := t][1..] == ts[1..];
    } else {
      SumsUpdate(ts[1..], i - 1, t);
      assert ts[i := t][1..] == ts[1..][i - 1 := t];
    }
  }

  lemma OwnDecreases(e: Env, sha: Sha, s: Sys, i: nat, a: Action)
    requires SysOk(e, sha, s) && Enabled(s, i, a)
    ensures var t, u := s.txns[i], NextTxn(e, sha, s, i, a);
      Ahead(u) < Ahead(t) || (Ahead(u) == Ahead(t) && Todo(u) < Todo(t))
  {
    hide Inv, Refused, PlanOf, Made, MadeFiles, NumbersOk, AddedOk, RowsOk, Apart, Stamped, NextResolution,
      HashesOf, Free;
    assert TxnOk(e, sha, s.db, s.versions, s.txns[i]);
  }

  /** Every step brings the system nearer its end, so no schedule of a finite set of transactions is infinite. */
  lemma StepDecreases(e: Env, sha: Sha, s: Sys, i: nat, a: Action)
    requires SysOk(e, sha, s) && Enabled(s, i, a)
    ensures var o := Next(e, sha, s, i, a);
      || SumAhead(o.txns) < SumAhead(s.txns)
      || (SumAhead(o.txns) == SumAhead(s.txns) && SumTodo(o.txns) < SumTodo(s.txns))
  {
    hide SysOk, Enabled, NextTxn, Ahead, Todo, Apply;
    InRange(s, i, a);
    OwnDecreases(e, sha, s, i, a);
    SumsUpdate(s.txns, i, NextTxn(e, sha, s, i, a));
  }

  /** From any reachable state every transaction can be brought to its end without a failure. */
  lemma {:induction false} CanFinish(e: Env, sha: Sha, s: Sys) returns (schedule: seq<Event>, o: Sys)
    requires SysOk(e, sha, s)
    ensures Run(e, sha, s, schedule, o) && (forall x :: x in schedule ==> x.a != Abort)
    ensures forall j :: 0 <= j < |o.txns| ==> o.txns[j].phase.Ended?
    decreases SumAhead(s.txns), SumTodo(s.txns)
  {
    hide SysOk, Enabled, Next, SumAhead, SumTodo;
    if exists j :: 0 <= j < |s.txns| && !s.txns[j].phase.Ended? {
      var i, a := NoDeadlock(e, sha, s);
      StepDecreases(e, sha, s, i, a);
      StepKeeps(e, sha, s, i, a);
      var rest;
      rest, o := CanFinish(e, sha, Next(e, sha, s, i, a));
      schedule := [Event(i, a)] + rest;
      assert schedule[1..] == rest;
    } else {
      schedule, o := [], s;
    }
  }
}
