/** Whole runs of the commit protocol, with crashes and interrupted recoveries anywhere. */
module CommitRuns {
  import opened CommitProtocol

  const START: World := World({}, {}, map[], map[], Idle, {}, {}, {})

  /** Every action was enabled when it happened. */
  predicate IsRun(plan: Plan, w: World, actions: seq<Action>)
    decreases |actions|
  {
    actions == [] || (Enabled(plan, w, actions[0]) && IsRun(plan, Next(plan, w, actions[0]), actions[1..]))
  }

  /** A run without a retry of something already appended and without a compaction of something that has an intent. */
  predicate IsSafeRun(plan: Plan, w: World, actions: seq<Action>)
    decreases |actions|
  {
    actions == [] ||
    (Enabled(plan, w, actions[0]) && Safe(plan, w, actions[0])
        && IsSafeRun(plan, Next(plan, w, actions[0]), actions[1..]))
  }

  /** Where a run leads. */
  function End(plan: Plan, w: World, actions: seq<Action>): World
    decreases |actions|
  {
    if actions == [] || !Enabled(plan, w, actions[0]) then w else End(plan, Next(plan, w, actions[0]), actions[1..])
  }

  lemma {:induction false} RunKeepsInv(plan: Plan, w: World, actions: seq<Action>)
    requires Inv(plan, w) && IsSafeRun(plan, w, actions)
    ensures Inv(plan, End(plan, w, actions))
    decreases |actions|
  {
    if actions != [] {
      StepKeepsInv(plan, w, actions[0]);
      RunKeepsInv(plan, Next(plan, w, actions[0]), actions[1..]);
    }
  }

  lemma Reachable(plan: Plan, actions: seq<Action>)
    requires IsSafeRun(plan, START, actions)
    ensures Inv(plan, End(plan, START, actions))
  {
    assert Inv(plan, START);
    RunKeepsInv(plan, START, actions);
  }

  lemma {:induction false} SafeRunConcat(plan: Plan, w: World, a: seq<Action>, b: seq<Action>)
    requires IsSafeRun(plan, w, a) && IsSafeRun(plan, End(plan, w, a), b)
    ensures IsSafeRun(plan, w, a + b) && End(plan, w, a + b) == End(plan, End(plan, w, a), b)
    decreases |a|
  {
    if a == [] {
      assert a + b == b;
    } else {
      SafeRunConcat(plan, Next(plan, w, a[0]), a[1..], b);
      assert (a + b)[0] == a[0] && (a + b)[1..] == a[1..] + b;
    }
  }

  /** The batch was appended to its log exactly once, and all its writes are stored. */
  predicate Done(plan: Plan, w: World, k: Key) {
    InHistory(w, k) && Distinct(History(w, k.0)) && PartFacts(plan, k) <= w.stored
  }

  lemma DoneIfAppended(plan: Plan, w: World, k: Key)
    requires Inv(plan, w) && InHistory(w, k)
    ensures Done(plan, w, k)
  {
    assert Distinct(History(w, k.0));
  }

  /** At every moment of every run, with crashes anywhere: a batch that was appended was appended once, and its writes
      are already stored. */
  lemma LogImpliesStorage(plan: Plan, actions: seq<Action>, k: Key)
    requires IsSafeRun(plan, START, actions) && (InHistory(End(plan, START, actions), k)
             || InLog(End(plan, START, actions), k))
    ensures Done(plan, End(plan, START, actions), k)
  {
    Reachable(plan, actions);
    DoneIfAppended(plan, End(plan, START, actions), k);
  }

  /** A commit that reports success has appended every batch of its transaction, even if intents are left. */
  lemma FinishedIsDone(plan: Plan, actions: seq<Action>, k: Key)
    requires IsSafeRun(plan, START, actions) && Enabled(plan, End(plan, START, actions), Finish)
    requires k in KeysOf(plan, End(plan, START, actions).phase.txn)
    ensures Done(plan, End(plan, START, actions), k)
  {
    Reachable(plan, actions);
    DoneIfAppended(plan, End(plan, START, actions), k);
  }

  /** Once an intent was durable, its batch is never lost: whenever no intent is left, every batch that had one was
      appended exactly once, with all its writes stored. */
  lemma DurableIntentsComplete(plan: Plan, w: World, k: Key)
    requires Inv(plan, w) && w.intents == {} && k in w.persisted
    ensures Done(plan, w, k)
  {
    DoneIfAppended(plan, w, k);
  }

  lemma {:induction false} PersistedForever(plan: Plan, w: World, actions: seq<Action>)
    requires IsSafeRun(plan, w, actions)
    ensures w.persisted <= End(plan, w, actions).persisted
    decreases |actions|
  {
    if actions != [] { PersistedForever(plan, Next(plan, w, actions[0]), actions[1..]); }
  }

  /** Without compaction the log is all of its history. */
  lemma {:induction false} UncompactedLogs(plan: Plan, w: World, actions: seq<Action>)
    requires w.logs == w.history && (forall i :: 0 <= i < |actions| ==> !actions[i].Compact?)
    ensures End(plan, w, actions).logs == End(plan, w, actions).history
    decreases |actions|
  {
    if actions != [] && Enabled(plan, w, actions[0]) {
      assert forall p :: Log(w, p) == History(w, p);
      UncompactedLogs(plan, Next(plan, w, actions[0]), actions[1..]);
    }
  }

  /** Whatever happens after a transaction began its puts, crashes and interrupted recoveries included: as soon as no
      intent is left, all its batches were appended exactly once and all its writes are stored. */
  lemma CommittedExactlyOnce(plan: Plan, before: seq<Action>, after: seq<Action>, k: Key)
    requires IsSafeRun(plan, START, before) && End(plan, START, before).phase.Putting?
    requires IsSafeRun(plan, End(plan, START, before), after)
             && End(plan, End(plan, START, before), after).intents == {}
    requires k in KeysOf(plan, End(plan, START, before).phase.txn)
    ensures Done(plan, End(plan, End(plan, START, before), after), k)
    ensures (forall i :: 0 <= i < |before + after| ==> !(before + after)[i].Compact?) ==>
              InLog(End(plan, End(plan, START, before), after), k)
  {
    var w := End(plan, START, before);
    Reachable(plan, before);
    PersistedForever(plan, w, after);
    RunKeepsInv(plan, w, after);
    DurableIntentsComplete(plan, End(plan, w, after), k);
    if forall i :: 0 <= i < |before + after| ==> !(before + after)[i].Compact? {
      SafeRunConcat(plan, START, before, after);
      UncompactedLogs(plan, START, before + after);
    }
  }

  // ---------------------------------------------------------------- recovery ends

  predicate InRecovery(w: World) { w.phase.Recovering? || w.phase.ReplayPuts? || w.phase.ReplayDelete? }

  /** How much of a recovery is left: intents, then the stage of the current one, then its writes. */
  function Left(w: World): (nat, nat, nat)
    requires InRecovery(w)
  {
    match w.phase
    case Recovering(todo, _) => (|todo|, 0, 0)
    case ReplayPuts(_, writes, todo, _) => (|todo|, 2, |writes|)
    case ReplayDelete(_, todo, _) => (|todo|, 1, 0)
  }

  predicate Less(a: (nat, nat, nat), b: (nat, nat, nat)) {
    a.0 < b.0 || (a.0 == b.0 && (a.1 < b.1 || (a.1 == b.1 && a.2 < b.2)))
  }

  lemma OneLess<T>(s: set<T>, x: T)
    requires x in s
    ensures |s - {x}| < |s|
  {
    assert s == (s - {x}) + {x};
  }

  /** The steps of a recovery. */
  predicate RecoveryStep(a: Action) {
    a.Replay? || a.ReplayPut? || a.ReplayAppend? || a.ReplayDone? || a.ReplayKeep? || a.ReplayFail? || a.Recovered?
  }

  /** The steps of a recovery in which nothing fails. */
  predicate CleanStep(a: Action) { RecoveryStep(a) && !a.ReplayKeep? && !a.ReplayFail? }

  /** Every step of a recovery that does not end it brings it nearer to its end, so it terminates. */
  lemma RecoveryAdvances(plan: Plan, w: World, a: Action)
    requires InRecovery(w) && Enabled(plan, w, a) && RecoveryStep(a) && !a.Recovered?
    ensures InRecovery(Next(plan, w, a)) && Less(Left(Next(plan, w, a)), Left(w))
  {
    match a
    case Replay(k) => OneLess(w.phase.todo, k);
    case ReplayPut(f) => OneLess(w.phase.writes, f);
    case ReplayAppend =>
    case ReplayDone =>
    case ReplayKeep =>
    case ReplayFail =>
  }

  /** A recovery is never stuck. */
  lemma RecoveryEnabled(plan: Plan, w: World) returns (a: Action)
    requires InRecovery(w)
    ensures Enabled(plan, w, a) && CleanStep(a)
  {
    match w.phase
    case Recovering(todo, _) => if todo == {} { a := Recovered; } else { var k :| k in todo; a := Replay(k); }
    case ReplayPuts(_, writes, _, _) => if writes == {} { a := ReplayAppend; }
        else { var f :| f in writes; a := ReplayPut(f); }
    case ReplayDelete(_, _, _) => a := ReplayDone;
  }

  /** Nothing has failed since the recovery began. */
  predicate Clean(w: World) { InRecovery(w) && w.phase.clean }

  ghost predicate AllClean(actions: seq<Action>) { forall i :: 0 <= i < |actions| ==> CleanStep(actions[i]) }

  /** However a recovery in which nothing fails goes on: once it is over, no intent is left. */
  lemma {:induction false} CleanRecoveryEmpties(plan: Plan, w: World, actions: seq<Action>)
    requires Inv(plan, w) && Clean(w) && IsRun(plan, w, actions) && AllClean(actions)
    requires End(plan, w, actions).phase.Idle?
    ensures IsSafeRun(plan, w, actions) && End(plan, w, actions).intents == {}
    decreases |actions|
  {
    var a, w1 := actions[0], Next(plan, w, actions[0]);
    assert CleanStep(a);
    StepKeepsInv(plan, w, a);
    assert AllClean(actions[1..]) by {
      assert forall i :: 0 <= i < |actions| - 1 ==> actions[1..][i] == actions[i + 1];
    }
    if a.Recovered? {
      IdleStays(plan, w1, actions[1..]);
    } else {
      CleanRecoveryEmpties(plan, w1, actions[1..]);
    }
  }

  /** When a recovery is over, none of its steps is left to take. */
  lemma IdleStays(plan: Plan, w: World, actions: seq<Action>)
    requires w.phase.Idle? && AllClean(actions)
    ensures End(plan, w, actions) == w && (IsRun(plan, w, actions) ==> IsSafeRun(plan, w, actions))
  {
    if actions != [] { assert CleanStep(actions[0]); }
  }

  /** After any run that crashed, every restart whose recovery runs to its end without a failure leaves no intent and
      every batch whose intent was ever durable appended exactly once, with its writes stored. */
  lemma EveryRecoveryRepairs(plan: Plan, before: seq<Action>, recovery: seq<Action>)
    requires IsSafeRun(plan, START, before) && End(plan, START, before).phase.Down?
    requires var w := Next(plan, End(plan, START, before), Restart);
             IsRun(plan, w, recovery) && AllClean(recovery) && End(plan, w, recovery).phase.Idle?
    ensures var e := End(plan, Next(plan, End(plan, START, before), Restart), recovery);
            e.intents == {} && forall k :: k in End(plan, START, before).persisted ==> Done(plan, e, k)
  {
    Reachable(plan, before);
    var w := End(plan, START, before);
    var w1 := Next(plan, w, Restart);
    StepKeepsInv(plan, w, Restart);
    CleanRecoveryEmpties(plan, w1, recovery);
    RunKeepsInv(plan, w1, recovery);
    PersistedForever(plan, w1, recovery);
    forall k | k in w.persisted
      ensures Done(plan, End(plan, w1, recovery), k)
    {
      DurableIntentsComplete(plan, End(plan, w1, recovery), k);
    }
  }

  /** From anywhere inside a recovery there is such a way to its end. */
  lemma {:induction false} RecoveryCanEnd(plan: Plan, w: World) returns (actions: seq<Action>)
    requires InRecovery(w)
    ensures IsRun(plan, w, actions) && AllClean(actions) && End(plan, w, actions).phase.Idle?
    decreases Left(w).0, Left(w).1, Left(w).2
  {
    var a := RecoveryEnabled(plan, w);
    var w1 := Next(plan, w, a);
    if a.Recovered? {
      actions := [a];
      assert IsRun(plan, w1, []);
      assert End(plan, w, actions) == End(plan, w1, actions[1..]) == w1;
    } else {
      RecoveryAdvances(plan, w, a);
      var rest := RecoveryCanEnd(plan, w1);
      actions := [a] + rest;
      assert actions[1..] == rest;
    }
  }
}
