/** Where the commit protocol repeats itself: a retried commit, and a compaction that meets a leftover intent. */
module CommitFailures {
  import opened CommitProtocol
  import opened CommitRuns

  lemma {:induction false} RunConcat(plan: Plan, w: World, a: seq<Action>, b: seq<Action>)
    requires IsRun(plan, w, a) && IsRun(plan, End(plan, w, a), b)
    ensures IsRun(plan, w, a + b) && End(plan, w, a + b) == End(plan, End(plan, w, a), b)
    decreases |a|
  {
    if a == [] {
      assert a + b == b;
    } else {
      RunConcat(plan, Next(plan, w, a[0]), a[1..], b);
      assert (a + b)[0] == a[0] && (a + b)[1..] == a[1..] + b;
    }
  }

  lemma RunOne(plan: Plan, w: World, a: Action)
    requires Enabled(plan, w, a)
    ensures IsRun(plan, w, [a]) && End(plan, w, [a]) == Next(plan, w, a)
  {
    assert [a][1..] == [];
    assert IsRun(plan, Next(plan, w, a), []);
  }

  /** One more action at the end of a run. */
  lemma RunThen(plan: Plan, w: World, actions: seq<Action>, a: Action)
    requires IsRun(plan, w, actions) && Enabled(plan, End(plan, w, actions), a)
    ensures IsRun(plan, w, actions + [a]) && End(plan, w, actions + [a]) == Next(plan, End(plan, w, actions), a)
  {
    RunOne(plan, End(plan, w, actions), a);
    RunConcat(plan, w, actions, [a]);
  }

  // ---------------------------------------------------------------- retries

  /** The steps of a commit that goes through. */
  predicate CommitStep(a: Action) {
    || a.PersistIntent? || a.StartPuts? || a.Put? || a.StartAppends? || a.AppendBatch? || a.DeleteIntent?
        || a.SkipDelete?
    || a.Finish?
  }

  ghost predicate AllCommit(actions: seq<Action>) { forall i :: 0 <= i < |actions| ==> CommitStep(actions[i]) }

  predicate InCommit(w: World, t: Txn) {
    match w.phase
    case Persisting(u, _) => u == t
    case Putting(u, _) => u == t
    case Appending(u, todo) => u == t && forall k :: k in todo ==> k.1 == t
    case Deleting(u, _, todo) => u == t && forall k :: k in todo ==> k.1 == t
    case _ => false
  }

  /** The batches that a commit is still going to append. */
  function ToAppend(plan: Plan, w: World, t: Txn): set<Key>
    requires InCommit(w, t)
  {
    match w.phase
    case Persisting(_, _) => KeysOf(plan, t)
    case Putting(_, _) => KeysOf(plan, t)
    case Appending(_, todo) => todo
    case Deleting(_, _, todo) => todo
  }

  function With(s: seq<Txn>, k: Key, keys: set<Key>): seq<Txn> { if k in keys then s + [k.1] else s }

  /** e is w with every batch of the keys appended once. */
  ghost predicate AppendsAll(w: World, e: World, t: Txn, keys: set<Key>) {
    forall p :: Log(e, p) == With(Log(w, p), (p, t), keys) && History(e, p) == With(History(w, p), (p, t), keys)
  }

  lemma CommitAdvances(plan: Plan, w: World, t: Txn, a: Action)
    requires InCommit(w, t) && Enabled(plan, w, a) && CommitStep(a) && !a.Finish?
    ensures InCommit(Next(plan, w, a), t)
    ensures if a.AppendBatch? then a.key in ToAppend(plan, w, t) && a.key.1 == t
            && Next(plan, w, a).logs == Appended(w, a.key).logs &&
                                   Next(plan, w, a).history == Appended(w, a.key).history &&
                                   ToAppend(plan, Next(plan, w, a), t) == ToAppend(plan, w, t) - {a.key}
            else Next(plan, w, a).logs == w.logs && Next(plan, w, a).history == w.history &&
                 ToAppend(plan, Next(plan, w, a), t) == ToAppend(plan, w, t)
  {
  }

  lemma AppendsOne(w: World, k: Key, w1: World, e: World, keys: set<Key>)
    requires w1.logs == Appended(w, k).logs && w1.history == Appended(w, k).history && k in keys
    requires AppendsAll(w1, e, k.1, keys - {k})
    ensures AppendsAll(w, e, k.1, keys)
  {
    forall p
      ensures Log(e, p) == With(Log(w, p), (p, k.1), keys) && History(e, p) == With(History(w, p), (p, k.1), keys)
    {
      assert Log(e, p) == With(Log(w1, p), (p, k.1), keys - {k});
    }
  }

  lemma AppendsSame(w: World, w1: World, e: World, t: Txn, keys: set<Key>)
    requires w1.logs == w.logs && w1.history == w.history && AppendsAll(w1, e, t, keys)
    ensures AppendsAll(w, e, t, keys)
  {
    forall p
      ensures Log(e, p) == With(Log(w, p), (p, t), keys) && History(e, p) == With(History(w, p), (p, t), keys)
    {
      assert Log(e, p) == With(Log(w1, p), (p, t), keys);
    }
  }

  lemma IdleCommits(plan: Plan, w: World, actions: seq<Action>)
    requires w.phase.Idle? && AllCommit(actions)
    ensures End(plan, w, actions) == w
  {
    if actions != [] { assert CommitStep(actions[0]); }
  }

  /** A commit that goes through appends to every partition of its transaction, whatever is there already. */
  lemma {:induction false} CommitAppendsAll(plan: Plan, w: World, t: Txn, actions: seq<Action>)
    requires InCommit(w, t) && IsRun(plan, w, actions) && AllCommit(actions) && End(plan, w, actions).phase.Idle?
    ensures AppendsAll(w, End(plan, w, actions), t, ToAppend(plan, w, t))
    decreases |actions|
  {
    var a, rest := actions[0], actions[1..];
    var w1, e := Next(plan, w, a), End(plan, w, actions);
    assert CommitStep(a);
    assert AllCommit(rest) by { assert forall i :: 0 <= i < |rest| ==> rest[i] == actions[i + 1]; }
    if a.Finish? {
      IdleCommits(plan, w1, rest);
      AppendsSame(w, w1, e, t, {});
    } else {
      CommitAdvances(plan, w, t, a);
      CommitAppendsAll(plan, w1, t, rest);
      if a.AppendBatch? {
        AppendsOne(w, a.key, w1, e, ToAppend(plan, w, t));
      } else {
        AppendsSame(w, w1, e, t, ToAppend(plan, w, t));
      }
    }
  }

  lemma DistinctWith(s: seq<Txn>, k: Key, keys: set<Key>)
    requires Distinct(s)
    ensures Distinct(With(s, k, keys)) <==> (k in keys ==> k.1 !in s)
  {
    if k in keys {
      var r := s + [k.1];
      if k.1 in s {
        var i :| 0 <= i < |s| && s[i] == k.1;
        assert r[i] == r[|s|];
      }
    }
  }

  /** A retried commit that goes through leaves every log free of duplicates if and only if no log held a batch of its
      transaction at the retry; the same for what was ever appended. */
  lemma RetryExactly(plan: Plan, before: seq<Action>, t: Txn, retry: seq<Action>)
    requires IsSafeRun(plan, START, before) && Enabled(plan, End(plan, START, before), Retry(t))
    requires var w := Next(plan, End(plan, START, before), Retry(t));
             IsRun(plan, w, retry) && AllCommit(retry) && End(plan, w, retry).phase.Idle?
    ensures var w := End(plan, START, before);
            var e := End(plan, Next(plan, w, Retry(t)), retry);
            && ((forall p :: Distinct(Log(e, p))) <==> NoneInLog(w, KeysOf(plan, t)))
            && ((forall p :: Distinct(History(e, p))) <==> NoneAppended(w, KeysOf(plan, t)))
  {
    var w := End(plan, START, before);
    Reachable(plan, before);
    var w1 := Next(plan, w, Retry(t));
    var e := End(plan, w1, retry);
    CommitAppendsAll(plan, w1, t, retry);
    AppendsSame(w, w1, e, t, KeysOf(plan, t));
    RetryDistinct(plan, w, e, t);
  }

  lemma RetryDistinct(plan: Plan, w: World, e: World, t: Txn)
    requires LogsDistinct(w) && AppendsAll(w, e, t, KeysOf(plan, t))
    ensures (forall p :: Distinct(Log(e, p))) <==> NoneInLog(w, KeysOf(plan, t))
    ensures (forall p :: Distinct(History(e, p))) <==> NoneAppended(w, KeysOf(plan, t))
  {
    var keys := KeysOf(plan, t);
    forall p: Partition
      ensures Distinct(Log(e, p)) <==> ((p, t) in keys ==> !InLog(w, (p, t)))
      ensures Distinct(History(e, p)) <==> ((p, t) in keys ==> !InHistory(w, (p, t)))
    {
      assert Distinct(Log(w, p)) && Distinct(History(w, p));
      DistinctWith(Log(w, p), (p, t), keys);
      DistinctWith(History(w, p), (p, t), keys);
    }
    forall k | k in keys
      ensures k == (k.0, t)
    {
    }
    if forall p :: Distinct(Log(e, p)) {
      forall k | k in keys
        ensures !InLog(w, k)
      {
        assert Distinct(Log(e, k.0));
      }
    }
    if forall p :: Distinct(History(e, p)) {
      forall k | k in keys
        ensures !InHistory(w, k)
      {
        assert Distinct(History(e, k.0));
      }
    }
  }

  // ---------------------------------------------------------------- a retry that repeats a batch

  lemma {:induction false} PersistAll(plan: Plan, w: World) returns (actions: seq<Action>)
    requires w.phase.Persisting?
    ensures IsRun(plan, w, actions)
    ensures var e := End(plan, w, actions);
            && e.phase == Persisting(w.phase.txn, {}) && e.logs == w.logs && e.history == w.history
            && e.started == w.started && e.committed == w.committed
            && e.intents == w.intents + w.phase.todo
    decreases |w.phase.todo|
  {
    if w.phase.todo == {} {
      actions := [];
    } else {
      var k :| k in w.phase.todo;
      OneLess(w.phase.todo, k);
      var rest := PersistAll(plan, Next(plan, w, PersistIntent(k)));
      actions := [PersistIntent(k)] + rest;
      assert actions[1..] == rest;
      assert (w.intents + {k}) + (w.phase.todo - {k}) == w.intents + w.phase.todo;
    }
  }

  lemma {:induction false} PutAll(plan: Plan, w: World) returns (actions: seq<Action>)
    requires w.phase.Putting?
    ensures IsRun(plan, w, actions)
    ensures var e := End(plan, w, actions);
            && e.phase == Putting(w.phase.txn, {}) && e.logs == w.logs && e.history == w.history
            && e.started == w.started && e.committed == w.committed
            && e.intents == w.intents
    decreases |w.phase.writes|
  {
    if w.phase.writes == {} {
      actions := [];
    } else {
      var f :| f in w.phase.writes;
      OneLess(w.phase.writes, f);
      var rest := PutAll(plan, Next(plan, w, Put(f)));
      actions := [Put(f)] + rest;
      assert actions[1..] == rest;
    }
  }

  /** A commit gets to its appends from wherever it is started. */
  lemma CommitToAppends(plan: Plan, w: World, t: Txn) returns (actions: seq<Action>)
    requires w.phase == Persisting(t, KeysOf(plan, t))
    ensures IsRun(plan, w, actions)
    ensures var e := End(plan, w, actions);
            && e.phase == Appending(t, KeysOf(plan, t)) && e.logs == w.logs && e.history == w.history
            && e.started == w.started && e.committed == w.committed
            && KeysOf(plan, t) <= e.intents
  {
    var a := PersistAll(plan, w);
    RunThen(plan, w, a, StartPuts);
    var w2 := End(plan, w, a + [StartPuts]);
    var b := PutAll(plan, w2);
    RunConcat(plan, w, a + [StartPuts], b);
    actions := a + [StartPuts] + b;
    RunThen(plan, w, actions, StartAppends);
    actions := actions + [StartAppends];
  }

  /** A first commit up to one append. */
  lemma FirstAppend(plan: Plan, k: Key) returns (actions: seq<Action>)
    requires k in KeysOf(plan, k.1)
    ensures IsRun(plan, START, actions)
    ensures var e := End(plan, START, actions);
            && e.phase == Deleting(k.1, k, KeysOf(plan, k.1) - {k}) && Log(e, k.0) == History(e, k.0) == [k.1]
            && k in e.intents && k.1 in e.started && e.committed == {}
  {
    RunOne(plan, START, Begin(k.1));
    var w := Next(plan, START, Begin(k.1));
    var a := CommitToAppends(plan, w, k.1);
    RunConcat(plan, START, [Begin(k.1)], a);
    actions := [Begin(k.1)] + a;
    RunThen(plan, START, actions, AppendBatch(k));
    actions := actions + [AppendBatch(k)];
  }

  /** A run in which a commit fails between its first append and the next, is retried, and appends the first batch a
      second time. */
  lemma RetryDuplicates(plan: Plan, k: Key, l: Key) returns (actions: seq<Action>)
    requires k in KeysOf(plan, k.1) && l in KeysOf(plan, k.1) && l != k
    ensures IsRun(plan, START, actions) && Log(End(plan, START, actions), k.0) == [k.1, k.1]
  {
    actions := FirstAppend(plan, k);
    RunThen(plan, START, actions, DeleteIntent);
    actions := actions + [DeleteIntent];
    assert l in End(plan, START, actions).phase.todo;
    RunThen(plan, START, actions, GiveUp);
    actions := actions + [GiveUp];
    RunThen(plan, START, actions, Retry(k.1));
    actions := actions + [Retry(k.1)];
    var w := End(plan, START, actions);
    var b := CommitToAppends(plan, w, k.1);
    RunConcat(plan, START, actions, b);
    actions := actions + b;
    RunThen(plan, START, actions, AppendBatch(k));
    actions := actions + [AppendBatch(k)];
  }

  // ---------------------------------------------------------------- compaction and leftover intents

  lemma {:induction false} ReplayPutAll(plan: Plan, w: World) returns (actions: seq<Action>)
    requires w.phase.ReplayPuts?
    ensures IsSafeRun(plan, w, actions)
    ensures var e := End(plan, w, actions);
            e.phase.ReplayPuts? && e.phase.writes == {} && e.phase.key == w.phase.key && e.logs == w.logs
                && e.history == w.history
    decreases |w.phase.writes|
  {
    if w.phase.writes == {} {
      actions := [];
    } else {
      var f :| f in w.phase.writes;
      OneLess(w.phase.writes, f);
      var rest := ReplayPutAll(plan, Next(plan, w, ReplayPut(f)));
      actions := [ReplayPut(f)] + rest;
      assert actions[1..] == rest;
    }
  }

  lemma SafeRunThen(plan: Plan, w: World, actions: seq<Action>, a: Action)
    requires IsSafeRun(plan, w, actions) && Enabled(plan, End(plan, w, actions), a)
             && Safe(plan, End(plan, w, actions), a)
    ensures IsSafeRun(plan, w, actions + [a]) && End(plan, w, actions + [a]) == Next(plan, End(plan, w, actions), a)
  {
    var e := End(plan, w, actions);
    assert [a][1..] == [] && IsSafeRun(plan, Next(plan, e, a), []);
    assert End(plan, e, [a]) == End(plan, Next(plan, e, a), [a][1..]);
    SafeRunConcat(plan, w, actions, [a]);
  }

  /** A crash and a recovery append a batch whose intent is there and which the log does not show. */
  lemma ReplayAppends(plan: Plan, w: World, k: Key) returns (actions: seq<Action>)
    requires k in w.intents && !InLog(w, k)
    ensures IsSafeRun(plan, w, actions) && History(End(plan, w, actions), k.0) == History(w, k.0) + [k.1]
  {
    SafeRunThen(plan, w, [], Crash);
    actions := [] + [Crash];
    SafeRunThen(plan, w, actions, Restart);
    actions := actions + [Restart];
    SafeRunThen(plan, w, actions, Replay(k));
    actions := actions + [Replay(k)];
    var b := ReplayPutAll(plan, End(plan, w, actions));
    SafeRunConcat(plan, w, actions, b);
    actions := actions + b;
    SafeRunThen(plan, w, actions, ReplayAppend);
    actions := actions + [ReplayAppend];
  }

  /** If a compaction drops a batch whose intent is left, there is a crash and a recovery that append it again. */
  lemma CompactionReappends(plan: Plan, w: World, p: Partition, n: nat, i: nat) returns (actions: seq<Action>)
    requires Inv(plan, w) && Enabled(plan, w, Compact(p, n)) && i < n && (p, Log(w, p)[i]) in w.intents
    ensures IsSafeRun(plan, Next(plan, w, Compact(p, n)), actions)
    ensures !Distinct(History(End(plan, Next(plan, w, Compact(p, n)), actions), p))
  {
    var t, w1 := Log(w, p)[i], Next(plan, w, Compact(p, n));
    assert Distinct(Log(w, p));
    assert !InLog(w1, (p, t));
    actions := ReplayAppends(plan, w1, (p, t));
    assert InLog(w, (p, t)) && InHistory(w, (p, t));
    var h := History(w, p);
    var j :| 0 <= j < |h| && h[j] == t;
    assert (h + [t])[j] == (h + [t])[|h|];
  }

  /** No batch was appended twice. */
  ghost predicate NeverTwice(w: World) { forall p :: Distinct(History(w, p)) }

  /** A way on, without further retries of what was appended or compactions of what has an intent, to a batch that was
      appended twice. */
  ghost predicate LeadsToTwice(plan: Plan, w: World, after: seq<Action>) {
    IsSafeRun(plan, w, after) && !NeverTwice(End(plan, w, after))
  }

  /** After a compaction no batch is ever appended twice if and only if no dropped batch still had its intent. */
  lemma CompactionExactly(plan: Plan, before: seq<Action>, p: Partition, n: nat)
    requires IsSafeRun(plan, START, before) && Enabled(plan, End(plan, START, before), Compact(p, n))
    ensures var w := End(plan, START, before);
            Harmless(w, p, n) <==> forall after: seq<Action> :: !LeadsToTwice(plan, Next(plan, w, Compact(p, n)), after)
  {
    var w := End(plan, START, before);
    Reachable(plan, before);
    var w1 := Next(plan, w, Compact(p, n));
    if Harmless(w, p, n) {
      StepKeepsInv(plan, w, Compact(p, n));
      forall after: seq<Action>
        ensures !LeadsToTwice(plan, w1, after)
      {
        if IsSafeRun(plan, w1, after) { RunKeepsInv(plan, w1, after); }
      }
    } else {
      var i :| 0 <= i < n && (p, Log(w, p)[i]) in w.intents;
      var after := CompactionReappends(plan, w, p, n, i);
      assert LeadsToTwice(plan, w1, after);
    }
  }

  /** A run in which a batch is appended, its intent stays, compaction drops the batch, and recovery appends it
      again. */
  lemma CompactionDuplicates(plan: Plan, k: Key) returns (actions: seq<Action>)
    requires k in KeysOf(plan, k.1)
    ensures IsRun(plan, START, actions) && History(End(plan, START, actions), k.0) == [k.1, k.1]
  {
    actions := FirstAppend(plan, k);
    RunThen(plan, START, actions, SkipDelete);
    actions := actions + [SkipDelete];
    RunThen(plan, START, actions, Compact(k.0, 1));
    actions := actions + [Compact(k.0, 1)];
    var w := End(plan, START, actions);
    var b := ReplayAppends(plan, w, k);
    SafeIsRun(plan, w, b);
    RunConcat(plan, START, actions, b);
    actions := actions + b;
  }

  lemma {:induction false} SafeIsRun(plan: Plan, w: World, actions: seq<Action>)
    requires IsSafeRun(plan, w, actions)
    ensures IsRun(plan, w, actions)
    decreases |actions|
  {
    if actions != [] { SafeIsRun(plan, Next(plan, w, actions[0]), actions[1..]); }
  }
}
