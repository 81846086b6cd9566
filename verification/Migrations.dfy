/**
 The migration runner. Whether a migration is recorded is checked outside the transaction that
 applies and records it, so several processes may race from the check to the commit; the primary
 key on the recorded name shares the transaction with the DDL and settles the race.

 A migration is a partial function on schemas: it may fail on a schema it does not fit.
 Transactions are serializable, and a file that runs outside the runner's transaction records
 itself in its own.
 */
module Migrations {
  import opened Wrappers

  /** The migration files in name order, and what each does to a schema. */
  datatype Plan<!S> = Plan(names: seq<string>, ddl: (string, S) -> Option<S>)

  /** The names are those of different files. */
  ghost predicate ValidPlan<S>(plan: Plan<S>) {
    forall i, j :: 0 <= i < j < |plan.names| ==> plan.names[i] != plan.names[j]
  }

  datatype DB<S> = DB(recorded: seq<string>, schema: S)

  // ----- the processes

  /** Where a process stands in its run: between files, between the check of file i and its commit, or done. */
  datatype Phase = Idle | Checking(i: nat) | Applying(i: nat) | Returned(ok: bool)

  datatype World<S> = World(db: DB<S>, procs: seq<Phase>)

  /** One atomic step of process p. A crash loses the process's place, never the database. */
  datatype Step =
    | Start(p: nat)
    | Check(p: nat)
    | Commit(p: nat)
    | CommitThenFail(p: nat)
    | Fail(p: nat)
    | Crash(p: nat)

  /** The transaction of file i: None when the name is already there or the DDL fails, and then nothing happens. */
  function Transact<S>(plan: Plan<S>, db: DB<S>, i: nat): Option<DB<S>>
    requires i < |plan.names|
  {
    if plan.names[i] in db.recorded then None
    else match plan.ddl(plan.names[i], db.schema)
         case None => None
         case Some(schema) => Some(DB(db.recorded + [plan.names[i]], schema))
  }

  /** The world after a step; None when the step cannot be taken. */
  function Do<S>(plan: Plan<S>, w: World<S>, step: Step): Option<World<S>> {
    if step.p >= |w.procs| then None
    else
      var phase := w.procs[step.p];
      match step
      case Start(p) =>
        if phase.Idle? || phase.Returned? then Some(w.(procs := w.procs[p := Checking(0)])) else None
      case Check(p) =>
        if !phase.Checking? then None
        else if phase.i >= |plan.names| then Some(w.(procs := w.procs[p := Returned(true)]))
        else if plan.names[phase.i] in w.db.recorded then Some(w.(procs := w.procs[p := Checking(phase.i + 1)]))
        else Some(w.(procs := w.procs[p := Applying(phase.i)]))
      case Commit(p) => Committed(plan, w, p, phase, false)
      case CommitThenFail(p) => Committed(plan, w, p, phase, true)
      case Fail(p) =>
        if phase.Checking? || phase.Applying? then Some(w.(procs := w.procs[p := Returned(false)])) else None
      case Crash(p) => Some(w.(procs := w.procs[p := Idle]))
  }

  /** A commit; it may still be reported as a failure. */
  function Committed<S>(plan: Plan<S>, w: World<S>, p: nat, phase: Phase, failing: bool): Option<World<S>>
    requires p < |w.procs|
  {
    if !phase.Applying? || phase.i >= |plan.names| then None
    else match Transact(plan, w.db, phase.i)
         case None => None
         case Some(db) => Some(World(db, w.procs[p := if failing then Returned(false) else Checking(phase.i + 1)]))
  }

  /** A whole history of interleaved steps. */
  ghost function Run<S>(plan: Plan<S>, w: World<S>, steps: seq<Step>): Option<World<S>>
    decreases |steps|
  {
    if steps == [] then Some(w)
    else match Do(plan, w, steps[0])
         case None => None
         case Some(w') => Run(plan, w', steps[1..])
  }

  // ----- the invariant

  /** The schema after the first k migrations, applied once each and in order. */
  ghost function Fold<S>(plan: Plan<S>, start: S, k: nat): Option<S>
    requires k <= |plan.names|
  {
    if k == 0 then Some(start)
    else match Fold(plan, start, k - 1)
         case None => None
         case Some(s) => plan.ddl(plan.names[k - 1], s)
  }

  ghost predicate PrefixApplied<S>(plan: Plan<S>, start: S, db: DB<S>) {
    && |db.recorded| <= |plan.names|
    && db.recorded == plan.names[..|db.recorded|]
    && Fold(plan, start, |db.recorded|) == Some(db.schema)
  }

  /** A process has seen or made all files before its own recorded. */
  ghost predicate PhaseFits<S>(plan: Plan<S>, db: DB<S>, phase: Phase) {
    match phase
    case Idle => true
    case Checking(i) => i <= |db.recorded|
    case Applying(i) => i <= |db.recorded| && i < |plan.names|
    case Returned(ok) => ok ==> |db.recorded| == |plan.names|
  }

  ghost predicate Inv<S>(plan: Plan<S>, start: S, w: World<S>) {
    && PrefixApplied(plan, start, w.db)
    && forall p :: 0 <= p < |w.procs| ==> PhaseFits(plan, w.db, w.procs[p])
  }

  /** A commit that goes through extends the prefix by exactly the next file. */
  lemma {:induction false} CommitExtends<S>(plan: Plan<S>, start: S, db: DB<S>, i: nat)
    requires ValidPlan(plan) && PrefixApplied(plan, start, db) && i < |plan.names| && i <= |db.recorded|
    requires Transact(plan, db, i).Some?
    ensures i == |db.recorded| && PrefixApplied(plan, start, Transact(plan, db, i).value)
    ensures |Transact(plan, db, i).value.recorded| == |db.recorded| + 1
  {
    RecordedIsPrefix(plan, start, db, i);
    assert plan.names[..i + 1] == plan.names[..i] + [plan.names[i]];
  }

  lemma {:induction false} StepKeepsInv<S>(plan: Plan<S>, start: S, w: World<S>, step: Step)
    requires ValidPlan(plan) && Inv(plan, start, w) && Do(plan, w, step).Some?
    ensures Inv(plan, start, Do(plan, w, step).value)
  {
    hide PrefixApplied, Transact;
    var phase := w.procs[step.p];
    if (step.Commit? || step.CommitThenFail?) {
      CommitExtends(plan, start, w.db, phase.i);
      SizeOfPrefix(plan, start, Transact(plan, w.db, phase.i).value);
    } else if step.Check? && phase.i < |plan.names| {
      SizeOfPrefix(plan, start, w.db);
      RecordedIsPrefix(plan, start, w.db, phase.i);
    } else {
      SizeOfPrefix(plan, start, w.db);
    }
  }

  lemma {:induction false} SizeOfPrefix<S>(plan: Plan<S>, start: S, db: DB<S>)
    requires PrefixApplied(plan, start, db)
    ensures |db.recorded| <= |plan.names|
  {
  }

  lemma {:induction false} RecordedIsPrefix<S>(plan: Plan<S>, start: S, db: DB<S>, i: nat)
    requires ValidPlan(plan) && PrefixApplied(plan, start, db) && i < |plan.names|
    ensures plan.names[i] in db.recorded <==> i < |db.recorded|
  {
    if i < |db.recorded| {
      assert db.recorded[i] == plan.names[i];
    }
  }

  /**
   Any number of processes, any interleaving, any failures and crashes: the recorded names are
   always a prefix of the file list and the schema is that prefix applied once and in order.
   */
  lemma {:induction false} EveryHistoryIsSafe<S>(plan: Plan<S>, start: S, w: World<S>, steps: seq<Step>)
    requires ValidPlan(plan) && Inv(plan, start, w) && Run(plan, w, steps).Some?
    ensures Inv(plan, start, Run(plan, w, steps).value)
    decreases |steps|
  {
    hide Inv, Do;
    if steps == [] {
    } else {
      StepKeepsInv(plan, start, w, steps[0]);
      EveryHistoryIsSafe(plan, start, Do(plan, w, steps[0]).value, steps[1..]);
    }
  }

  /** On a fresh database with all processes idle the invariant holds. */
  lemma {:induction false} FreshIsSafe<S>(plan: Plan<S>, start: S, procs: seq<Phase>)
    requires forall p :: 0 <= p < |procs| ==> procs[p].Idle?
    ensures Inv(plan, start, World(DB([], start), procs))
  {
  }

  // ----- at most once

  /** How often a history commits the file of this name. */
  ghost function Commits<S>(plan: Plan<S>, w: World<S>, steps: seq<Step>, name: string): nat
    requires Run(plan, w, steps).Some?
    decreases |steps|
  {
    if steps == [] then 0
    else
      var here := if (steps[0].Commit? || steps[0].CommitThenFail?)
                     && plan.names[w.procs[steps[0].p].i] == name then 1 else 0;
      here + Commits(plan, Do(plan, w, steps[0]).value, steps[1..], name)
  }

  /** Commits of a name and its record go together: what is recorded at the end was there or was committed once. */
  lemma {:induction false} CommitsAreRecorded<S>(plan: Plan<S>, w: World<S>, steps: seq<Step>, name: string)
    requires Run(plan, w, steps).Some?
    ensures Commits(plan, w, steps, name) + (if name in w.db.recorded then 1 else 0)
         == if name in Run(plan, w, steps).value.db.recorded then 1 else 0
    decreases |steps|
  {
    if steps == [] {
    } else {
      var w' := Do(plan, w, steps[0]).value;
      CommitsAreRecorded(plan, w', steps[1..], name);
    }
  }

  /** From a fresh database each migration commits at most once, although the check is outside the transaction. */
  lemma {:induction false} AtMostOnce<S>(plan: Plan<S>, start: S, procs: seq<Phase>, steps: seq<Step>, name: string)
    requires Run(plan, World(DB([], start), procs), steps).Some?
    ensures Commits(plan, World(DB([], start), procs), steps, name) <= 1
  {
    CommitsAreRecorded(plan, World(DB([], start), procs), steps, name);
  }

  // ----- convergence

  /** When some run has returned without error, everything is recorded and the schema is that of one clean run. */
  lemma {:induction false} ReturnedMeansConverged<S>(plan: Plan<S>, start: S, w: World<S>, p: nat)
    requires Inv(plan, start, w) && p < |w.procs| && w.procs[p] == Returned(true)
    ensures w.db.recorded == plan.names && Fold(plan, start, |plan.names|) == Some(w.db.schema)
  {
    assert plan.names[..|plan.names|] == plan.names;
  }

  /** Two histories on fresh databases, however they went, agree as soon as a run in each returned without error. */
  lemma {:induction false} SuccessfulRunsAgree<S>(plan: Plan<S>, start: S, procs1: seq<Phase>, steps1: seq<Step>,
                                                  p1: nat, procs2: seq<Phase>, steps2: seq<Step>, p2: nat)
    requires ValidPlan(plan)
    requires (forall p :: 0 <= p < |procs1| ==> procs1[p].Idle?) && forall p :: 0 <= p < |procs2| ==> procs2[p].Idle?
    requires Run(plan, World(DB([], start), procs1), steps1).Some?
    requires Run(plan, World(DB([], start), procs2), steps2).Some?
    requires var w := Run(plan, World(DB([], start), procs1), steps1).value;
             p1 < |w.procs| && w.procs[p1] == Returned(true)
    requires var w := Run(plan, World(DB([], start), procs2), steps2).value;
             p2 < |w.procs| && w.procs[p2] == Returned(true)
    ensures Run(plan, World(DB([], start), procs1), steps1).value.db ==
            Run(plan, World(DB([], start), procs2), steps2).value.db
  {
    hide Run, Inv;
    FreshIsSafe(plan, start, procs1);
    FreshIsSafe(plan, start, procs2);
    EveryHistoryIsSafe(plan, start, World(DB([], start), procs1), steps1);
    EveryHistoryIsSafe(plan, start, World(DB([], start), procs2), steps2);
    ReturnedMeansConverged(plan, start, Run(plan, World(DB([], start), procs1), steps1).value, p1);
    ReturnedMeansConverged(plan, start, Run(plan, World(DB([], start), procs2), steps2).value, p2);
  }

  /** From then on no history changes the database. */
  lemma {:induction false} ConvergedStays<S>(plan: Plan<S>, w: World<S>, steps: seq<Step>)
    requires w.db.recorded == plan.names && Run(plan, w, steps).Some?
    ensures Run(plan, w, steps).value.db == w.db
    decreases |steps|
  {
    if steps == [] {
    } else {
      ConvergedStays(plan, Do(plan, w, steps[0]).value, steps[1..]);
    }
  }

  /** A later release appends files: every database an earlier one left behind is a good start for it. */
  lemma {:induction false} UpgradeIsSafe<S>(plan: Plan<S>, later: Plan<S>, start: S, db: DB<S>)
    requires PrefixApplied(plan, start, db) && plan.names <= later.names
    requires forall name, s :: name in plan.names ==> later.ddl(name, s) == plan.ddl(name, s)
    ensures PrefixApplied(later, start, db)
  {
    FoldAgrees(plan, later, start, |db.recorded|);
    assert later.names[..|db.recorded|] == plan.names[..|db.recorded|];
  }

  lemma {:induction false} FoldAgrees<S>(plan: Plan<S>, later: Plan<S>, start: S, k: nat)
    requires k <= |plan.names| && plan.names <= later.names
    requires forall name, s :: name in plan.names ==> later.ddl(name, s) == plan.ddl(name, s)
    ensures Fold(later, start, k) == Fold(plan, start, k)
  {
    if k == 0 {
    } else {
      FoldAgrees(plan, later, start, k - 1);
      assert plan.names[k - 1] in plan.names;
    }
  }

  // ----- one run, as code

  /** What may go wrong at a file: the check, the transaction before its commit, or the report of the commit. */
  datatype Fault = NoFault | OnCheck | BeforeCommit | AfterCommit

  lemma {:induction false} RunAppend<S>(plan: Plan<S>, w: World<S>, steps: seq<Step>, step: Step)
    requires Run(plan, w, steps).Some?
    ensures Run(plan, w, steps + [step]) == Do(plan, Run(plan, w, steps).value, step)
    decreases |steps|
  {
    hide Do;
    if steps == [] {
      assert [step][1..] == [];
    } else {
      assert (steps + [step])[1..] == steps[1..] + [step];
      RunAppend(plan, Do(plan, w, steps[0]).value, steps[1..], step);
    }
  }

  lemma {:induction false} FoldDefined<S>(plan: Plan<S>, start: S, k: nat, n: nat)
    requires k <= n <= |plan.names| && Fold(plan, start, n).Some?
    ensures Fold(plan, start, k).Some?
  {
    if k == n {
    } else {
      FoldDefined(plan, start, k, n - 1);
    }
  }

  /** A commit by a process other than the first occurs among the steps. */
  ghost predicate Raced(steps: seq<Step>) {
    exists k :: 0 <= k < |steps| && (steps[k].Commit? || steps[k].CommitThenFail?) && steps[k].p > 0
  }

  /** A commit by a process other than the first is attempted among the steps. */
  ghost predicate CommitAmong(steps: seq<Step>) {
    exists k :: 0 <= k < |steps| && (steps[k].Commit? || steps[k].CommitThenFail?)
  }

  /** What a step of another process does to the database and to the others; nothing when it cannot be taken. */
  function ActOne<S>(plan: Plan<S>, db: DB<S>, others: seq<Phase>, step: Step): (DB<S>, seq<Phase>) {
    var next := Do(plan, World(db, [Idle] + others), step);
    if step.p == 0 || next.None? then (db, others)
    else
      OthersStep(plan, db, Idle, others, step);
      (next.value.db, next.value.procs[1..])
  }

  function ActAll<S>(plan: Plan<S>, db: DB<S>, others: seq<Phase>, steps: seq<Step>): (DB<S>, seq<Phase>) {
    if steps == [] then (db, others)
    else
      var before := ActAll(plan, db, others, steps[..|steps| - 1]);
      ActOne(plan, before.0, before.1, steps[|steps| - 1])
  }

  /** The two places at a file where other processes may act: before its check, and between the check and the commit. */
  datatype Place = BeforeCheck | AfterCheck

  /** One process, and the phases of the others that share its database. */
  class Database<!S> {
    var db: DB<S>
    var others: seq<Phase>

    constructor (start: S, others: seq<Phase>)
      ensures db == DB([], start) && this.others == others
    {
      db := DB([], start);
      this.others := others;
    }

    /** Other processes take every step they can; what they do extends the history so far. */
    method Interfere(plan: Plan<S>, others': seq<Step>, ghost first: World<S>, ghost sofar: seq<Step>,
                     ghost mine: Phase)
      returns (ghost steps: seq<Step>)
      requires Run(plan, first, sofar) == Some(World(db, [mine] + others))
      modifies this
      ensures Run(plan, first, steps) == Some(World(db, [mine] + others))
      ensures Raced(sofar) || db != old(db) ==> Raced(steps)
      ensures others' == [] ==> steps == sofar
      ensures (db, others) == ActAll(plan, old(db), old(others), others')
      ensures db != old(db) ==> CommitAmong(others')
    {
      hide Run, Do, Raced, CommitAmong;
      steps := sofar;
      NoCommitAmong();
      for k := 0 to |others'|
        invariant (db, others) == ActAll(plan, old(db), old(others), others'[..k])
        invariant db != old(db) ==> CommitAmong(others'[..k])
        invariant Run(plan, first, steps) == Some(World(db, [mine] + others))
        invariant Raced(sofar) || db != old(db) ==> Raced(steps)
        invariant k == 0 ==> steps == sofar
      {
        var step := others'[k];
        assert others'[..k + 1] == others'[..k] + [step];
        CommitAmongAppend(others'[..k], step);
        if step.p > 0 {
          var next := Do(plan, World(db, [Idle] + others), step);
          if next.Some? {
            OthersStep(plan, db, mine, others, step);
            RunAppend(plan, first, steps, step);
            RacedAppend(steps, step);
            steps := steps + [step];
            db, others := next.value.db, next.value.procs[1..];
          }
        }
      }
      assert others'[..|others'|] == others';
    }

    /** One file: its DDL and its record commit together, or nothing happens. */
    method ApplyOne(plan: Plan<S>, i: nat, fault: Fault) returns (ok: bool)
      requires i < |plan.names|
      modifies this`db
      ensures ok ==> Transact(plan, old(db), i) == Some(db)
      ensures !ok ==> db == old(db) || (fault == AfterCommit && Transact(plan, old(db), i) == Some(db))
      ensures fault == NoFault ==> (ok <==> Transact(plan, old(db), i).Some?)
    {
      var name := plan.names[i];
      var tx := db;
      var changed := plan.ddl(name, tx.schema);
      if changed.None? {
        return false;
      }
      tx := tx.(schema := changed.value);
      if name in tx.recorded {
        return false;
      }
      tx := tx.(recorded := tx.recorded + [name]);
      if fault == BeforeCommit {
        return false;
      }
      db := tx;
      ok := fault != AfterCommit;
    }

    /**
     The loop over the files, while other processes act before each check and between it and the
     commit. Whatever they do and whatever goes wrong, the run is one process's part of a history
     of the machine. It stops only at a file where something of its own goes wrong, or where another
     process commits between its check and its commit, or whose DDL does not fit; so without faults,
     with fitting files and with no commit in that window it succeeds, whatever was committed before
     its checks. When it succeeds, every file is recorded.
     */
    method Apply(plan: Plan<S>, fault: nat -> Fault, act: (nat, Place) -> seq<Step>, ghost start: S)
      returns (ok: bool, ghost steps: seq<Step>, ghost at: nat)
      requires ValidPlan(plan)
      modifies this
      ensures Run(plan, World(old(db), [Idle] + old(others)), steps) == Some(World(db, [Returned(ok)] + others))
      ensures (Inv(plan, start, World(old(db), [Idle] + old(others))) && Fold(plan, start, |plan.names|).Some?
               && forall i :: 0 <= i < |plan.names| ==> fault(i) == NoFault) ==> ok || Raced(steps)
      ensures (forall i, place :: act(i, place) == []) ==> !Raced(steps)
      ensures !ok ==>
                && at < |plan.names|
                && (|| fault(at) != NoFault
                    || (if plan.names[at] in db.recorded then CommitAmong(act(at, AfterCheck))
                        else plan.ddl(plan.names[at], db.schema).None?))
      ensures !ok && Inv(plan, start, World(old(db), [Idle] + old(others))) ==> at <= |db.recorded|
      ensures (Inv(plan, start, World(old(db), [Idle] + old(others))) && Fold(plan, start, |plan.names|).Some?
               && (forall i :: 0 <= i < |plan.names| ==> fault(i) == NoFault)
               && forall i :: 0 <= i < |plan.names| ==> !CommitAmong(act(i, AfterCheck))) ==> ok
      ensures Inv(plan, start, World(old(db), [Idle] + old(others))) && ok ==> db.recorded == plan.names
    {
      hide PrefixApplied, Run, Fold, Inv, Raced, CommitAmong, Do, Transact, ActAll;
      ghost var first := World(db, [Idle] + others);
      RunNothing(plan, first);
      NotRaced();
      FirstMoves(plan, db, Idle, others);
      RunAppend(plan, first, [], Start(0));
      RacedAppend([], Start(0));
      steps := [] + [Start(0)];
      at := 0;
      for i := 0 to |plan.names|
        invariant Run(plan, first, steps) == Some(World(db, [Checking(i)] + others))
        invariant (forall i, place :: act(i, place) == []) ==> !Raced(steps)
      {
        steps := Interfere(plan, act(i, BeforeCheck), first, steps, Checking(i));
        at := i;
        FirstMoves(plan, db, Checking(i), others);
        if fault(i) == OnCheck {
          if Inv(plan, start, first) {
            EveryHistoryIsSafe(plan, start, first, steps);
            CheckingFits(plan, start, db, i, others);
          }
          RunAppend(plan, first, steps, Fail(0));
          RacedAppend(steps, Fail(0));
          return false, steps + [Fail(0)], i;
        }
        RunAppend(plan, first, steps, Check(0));
        RacedAppend(steps, Check(0));
        steps := steps + [Check(0)];
        if plan.names[i] in db.recorded {
          assert Run(plan, first, steps) == Some(World(db, [Checking(i + 1)] + others));
          continue;
        }
        ghost var checked := db;
        steps := Interfere(plan, act(i, AfterCheck), first, steps, Applying(i));
        ghost var before := db;
        if Inv(plan, start, first) {
          EveryHistoryIsSafe(plan, start, first, steps);
          MineFits(plan, start, before, i, others);
        }
        FirstMoves(plan, before, Applying(i), others);
        ok := ApplyOne(plan, i, fault(i));
        if !ok {
          if fault(i) == NoFault {
            RefusedMeans(plan, db, i);
          }
          Recorded(plan, before, i);
          ghost var last := if db == before then Fail(0) else CommitThenFail(0);
          RunAppend(plan, first, steps, last);
          RacedAppend(steps, last);
          steps := steps + [last];
          return;
        }
        RunAppend(plan, first, steps, Commit(0));
        RacedAppend(steps, Commit(0));
        steps := steps + [Commit(0)];
        assert Run(plan, first, steps) == Some(World(db, [Checking(i + 1)] + others));
      }
      FirstMoves(plan, db, Checking(|plan.names|), others);
      RunAppend(plan, first, steps, Check(0));
      RacedAppend(steps, Check(0));
      steps := steps + [Check(0)];
      ok := true;
      if Inv(plan, start, first) {
        EveryHistoryIsSafe(plan, start, first, steps);
        ReturnedMeansConverged(plan, start, World(db, [Returned(true)] + others), 0);
      }
    }
  }

  /** The steps of the first process leave the phases of the others alone. */
  lemma {:induction false} FirstMoves<S>(plan: Plan<S>, db: DB<S>, phase: Phase, others: seq<Phase>)
    ensures phase.Idle? ==> Do(plan, World(db, [phase] + others), Start(0)) == Some(World(db, [Checking(0)] + others))
    ensures phase.Checking? ==>
              Do(plan, World(db, [phase] + others), Check(0)) ==
              Some(World(db, [if phase.i >= |plan.names| then Returned(true)
                              else if plan.names[phase.i] in db.recorded then Checking(phase.i + 1)
                              else Applying(phase.i)] + others))
    ensures phase.Checking? || phase.Applying? ==>
              Do(plan, World(db, [phase] + others), Fail(0)) == Some(World(db, [Returned(false)] + others))
    ensures phase.Applying? && phase.i < |plan.names| && Transact(plan, db, phase.i).Some? ==>
              var after := Transact(plan, db, phase.i).value;
              && Do(plan, World(db, [phase] + others), Commit(0))
                 == Some(World(after, [Checking(phase.i + 1)] + others))
              && Do(plan, World(db, [phase] + others), CommitThenFail(0))
                 == Some(World(after, [Returned(false)] + others))
  {
    hide Transact;
    FirstPhase();
  }

  lemma {:induction false} FirstPhase()
    ensures forall a: Phase, b: Phase, rest: seq<Phase> :: ([a] + rest)[0 := b] == [b] + rest
  {
  }

  /** Why a transaction does not go through. */
  lemma {:induction false} RefusedMeans<S>(plan: Plan<S>, db: DB<S>, i: nat)
    requires i < |plan.names| && Transact(plan, db, i).None?
    ensures plan.names[i] in db.recorded || plan.ddl(plan.names[i], db.schema).None?
  {
  }

  lemma {:induction false} Recorded<S>(plan: Plan<S>, db: DB<S>, i: nat)
    requires i < |plan.names|
    ensures Transact(plan, db, i).Some? ==> Transact(plan, db, i).value.recorded == db.recorded + [plan.names[i]]
  {
  }

  lemma {:induction false} CheckingFits<S>(plan: Plan<S>, start: S, db: DB<S>, i: nat, others: seq<Phase>)
    requires Inv(plan, start, World(db, [Checking(i)] + others))
    ensures i <= |db.recorded|
  {
    assert World(db, [Checking(i)] + others).procs[0] == Checking(i);
  }

  lemma {:induction false} NoCommitAmong()
    ensures !CommitAmong([])
  {
  }

  lemma {:induction false} CommitAmongAppend(steps: seq<Step>, step: Step)
    ensures CommitAmong(steps + [step]) <==> CommitAmong(steps) || step.Commit? || step.CommitThenFail?
  {
    var all := steps + [step];
    assert all[|steps|] == step && forall k :: 0 <= k < |steps| ==> all[k] == steps[k];
  }

  lemma {:induction false} NotRaced()
    ensures !Raced([])
  {
  }

  lemma {:induction false} RacedAppend(steps: seq<Step>, step: Step)
    ensures Raced(steps + [step]) <==> Raced(steps) || ((step.Commit? || step.CommitThenFail?) && step.p > 0)
  {
    var all := steps + [step];
    assert all[|steps|] == step && forall k :: 0 <= k < |steps| ==> all[k] == steps[k];
  }

  /** A step of another process neither reads nor writes the phase of the first; only commits change the database. */
  lemma {:induction false} OthersStep<S>(plan: Plan<S>, db: DB<S>, mine: Phase, others: seq<Phase>, step: Step)
    requires step.p > 0 && Do(plan, World(db, [Idle] + others), step).Some?
    ensures var next := Do(plan, World(db, [Idle] + others), step).value;
            && |next.procs| > 0
            && Do(plan, World(db, [mine] + others), step) == Some(World(next.db, [mine] + next.procs[1..]))
            && (next.db == db || step.Commit? || step.CommitThenFail?)
  {
    var x := Do(plan, World(db, [Idle] + others), step).value.procs[step.p];
    var k := step.p - 1;
    assert ([mine] + others)[step.p := x] == [mine] + others[k := x];
    assert ([Idle] + others)[step.p := x][1..] == others[k := x];
  }

  /** What the invariant says of the first process when it is about to commit file i. */
  lemma {:induction false} MineFits<S>(plan: Plan<S>, start: S, db: DB<S>, i: nat, others: seq<Phase>)
    requires ValidPlan(plan) && Inv(plan, start, World(db, [Applying(i)] + others))
    ensures PrefixApplied(plan, start, db) && i <= |db.recorded| && i < |plan.names|
    ensures Fold(plan, start, |plan.names|).Some? && plan.names[i] !in db.recorded ==> Transact(plan, db, i).Some?
  {
    var w := World(db, [Applying(i)] + others);
    assert w.procs[0] == Applying(i);
    if plan.names[i] !in db.recorded {
      NextFits(plan, start, db, i);
    }
  }

  lemma {:induction false} RunNothing<S>(plan: Plan<S>, w: World<S>)
    ensures Run(plan, w, []) == Some(w)
  {
  }

  /** Unless the files themselves do not fit, the next unrecorded file applies. */
  lemma {:induction false} NextFits<S>(plan: Plan<S>, start: S, db: DB<S>, i: nat)
    requires ValidPlan(plan) && PrefixApplied(plan, start, db) && i < |plan.names| && i <= |db.recorded|
    requires plan.names[i] !in db.recorded
    ensures Fold(plan, start, |plan.names|).Some? ==> Transact(plan, db, i).Some?
  {
    RecordedIsPrefix(plan, start, db, i);
    if Fold(plan, start, |plan.names|).Some? {
      FoldDefined(plan, start, i + 1, |plan.names|);
    }
  }
}
