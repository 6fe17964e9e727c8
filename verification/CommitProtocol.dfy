/** The commit protocol of tools/storaged.cc without Raft: intents, puts, appends, deletes, and the replay of leftover
    intents at start-up, as a machine whose every step a crash may follow. */
module CommitProtocol {
  import opened Bytes
  import opened ChangeRecords

  type Partition = nat
  type Txn = nat
  type Batch = seq<(nat, ChangeRecord)>

  /** What `Put` makes durable: entity, timestamp, descriptor and version. Storage is versioned: a put inserts an entry
      and no put replaces one, so what is stored is a set that only grows. */
  datatype Fact = Fact(entity: nat, timestamp: nat, descriptor: Bytes, version: nat)

  /** What a transaction is going to do; it does not change once prepared. */
  datatype Plan = Plan(version: Txn -> nat, batches: Txn -> map<Partition, Batch>)

  type Key = (Partition, Txn)

  function FactsOf(version: nat, b: Batch): set<Fact> {
    set i | 0 <= i < |b| :: Fact(b[i].1.entityId, b[i].0, b[i].1.payload, version)
  }

  /** The writes of one partition of a transaction. */
  function PartFacts(plan: Plan, k: Key): set<Fact> {
    if k.0 in plan.batches(k.1) then FactsOf(plan.version(k.1), plan.batches(k.1)[k.0]) else {}
  }

  function AllFacts(plan: Plan, t: Txn): set<Fact> {
    set p, f | p in plan.batches(t) && f in PartFacts(plan, (p, t)) :: f
  }

  function KeysOf(plan: Plan, t: Txn): set<Key> {
    set p | p in plan.batches(t) :: (p, t)
  }

  /** What the process is doing. `clean` says that nothing failed since recovery began. */
  datatype Phase =
    | Idle
    | Down
    | Persisting(txn: Txn, todo: set<Key>)
    | Putting(txn: Txn, writes: set<Fact>)
    | Appending(txn: Txn, todo: set<Key>)
    | Deleting(txn: Txn, key: Key, todo: set<Key>)
    | Recovering(todo: set<Key>, clean: bool)
    | ReplayPuts(key: Key, writes: set<Fact>, todo: set<Key>, clean: bool)
    | ReplayDelete(key: Key, todo: set<Key>, clean: bool)

  /** The durable state, what the process is doing, and which transactions and intents there ever were. `logs` holds the
      batches that recovery can still find, `history` all that were ever appended. `committed` are the transactions that
      the process remembers as committed. */
  datatype World = World(
    intents: set<Key>,
    stored: set<Fact>,
    logs: map<Partition, seq<Txn>>,
    history: map<Partition, seq<Txn>>,
    phase: Phase,
    started: set<Txn>,
    committed: set<Txn>,
    persisted: set<Key>)

  function Log(w: World, p: Partition): seq<Txn> { if p in w.logs then w.logs[p] else [] }

  function History(w: World, p: Partition): seq<Txn> { if p in w.history then w.history[p] else [] }

  function Appended(w: World, k: Key): World {
    w.(logs := w.logs[k.0 := Log(w, k.0) + [k.1]], history := w.history[k.0 := History(w, k.0) + [k.1]])
  }

  predicate InLog(w: World, k: Key) { k.1 in Log(w, k.0) }

  predicate InHistory(w: World, k: Key) { k.1 in History(w, k.0) }

  /** `Retry` is a commit asked for again, which is refused for a transaction that the running process has committed.
      `GiveUp` is a write that fails. `Compact` drops the first n batches of a log; a batch that loses some of its
      records counts as dropped, because recovery looks for all of them. */
  datatype Action =
    | Begin(txn: Txn)
    | Retry(txn: Txn)
    | Compact(partition: Partition, n: nat)
    | PersistIntent(key: Key)
    | StartPuts
    | Put(fact: Fact)
    | StartAppends
    | AppendBatch(key: Key)
    | DeleteIntent
    | SkipDelete
    | Finish
    | GiveUp
    | Crash
    | Restart
    | Replay(key: Key)
    | ReplayPut(fact: Fact)
    | ReplayAppend
    | ReplayDone
    | ReplayKeep
    | ReplayFail
    | Recovered

  predicate Enabled(plan: Plan, w: World, a: Action) {
    match a
    case Begin(t) => w.phase.Idle? && t !in w.started
    case Retry(t) => w.phase.Idle? && t in w.started && t !in w.committed
    case Compact(p, n) => !w.phase.Down? && n <= |Log(w, p)|
    case PersistIntent(k) => w.phase.Persisting? && k in w.phase.todo
    case StartPuts => w.phase.Persisting? && w.phase.todo == {}
    case Put(f) => w.phase.Putting? && f in w.phase.writes
    case StartAppends => w.phase.Putting? && w.phase.writes == {}
    case AppendBatch(k) => w.phase.Appending? && k in w.phase.todo
    case DeleteIntent => w.phase.Deleting?
    case SkipDelete => w.phase.Deleting?
    case Finish => w.phase.Appending? && w.phase.todo == {}
    case GiveUp =>
      match w.phase {
        case Persisting(_, todo) => todo != {}
        case Putting(_, writes) => writes != {}
        case Appending(_, todo) => todo != {}
        case _ => false
      }
    case Crash => true
    case Restart => w.phase.Down?
    case Replay(k) => w.phase.Recovering? && k in w.phase.todo
    case ReplayPut(f) => w.phase.ReplayPuts? && f in w.phase.writes
    case ReplayAppend => w.phase.ReplayPuts? && w.phase.writes == {}
    case ReplayDone => w.phase.ReplayDelete?
    case ReplayKeep => w.phase.ReplayDelete?
    case ReplayFail => w.phase.ReplayPuts?
    case Recovered => w.phase.Recovering? && w.phase.todo == {}
  }

  function Next(plan: Plan, w: World, a: Action): World
    requires Enabled(plan, w, a)
  {
    var ph := w.phase;
    match a
    // Commit
    case Begin(t) => w.(phase := Persisting(t, KeysOf(plan, t)), started := w.started + {t})
    case Retry(t) => w.(phase := Persisting(t, KeysOf(plan, t)))
    case PersistIntent(k) =>
      w.(intents := w.intents + {k}, persisted := w.persisted + {k}, phase := Persisting(ph.txn, ph.todo - {k}))
    case StartPuts => w.(phase := Putting(ph.txn, AllFacts(plan, ph.txn)))
    case Put(f) => w.(stored := w.stored + {f}, phase := Putting(ph.txn, ph.writes - {f}))
    case StartAppends => w.(phase := Appending(ph.txn, KeysOf(plan, ph.txn)))
    case AppendBatch(k) => Appended(w, k).(phase := Deleting(ph.txn, k, ph.todo - {k}))
    case DeleteIntent => w.(intents := w.intents - {ph.key}, phase := Appending(ph.txn, ph.todo))
    case SkipDelete => w.(phase := Appending(ph.txn, ph.todo))
    case Finish => w.(phase := Idle, committed := w.committed + {ph.txn})
    case GiveUp => w.(phase := Idle)
    // maintenance
    case Compact(p, n) => w.(logs := w.logs[p := Log(w, p)[n..]])
    // failures of the process
    case Crash => w.(phase := Down, committed := {})
    case Restart => w.(phase := Recovering(w.intents, true))
    // RecoverCdcIntents
    case Replay(k) =>
      if InLog(w, k) then w.(phase := ReplayDelete(k, ph.todo - {k}, ph.clean))
      else w.(phase := ReplayPuts(k, PartFacts(plan, k), ph.todo - {k}, ph.clean))
    case ReplayPut(f) => w.(stored := w.stored + {f}, phase := ReplayPuts(ph.key, ph.writes - {f}, ph.todo, ph.clean))
    case ReplayAppend => Appended(w, ph.key).(phase := ReplayDelete(ph.key, ph.todo, ph.clean))
    case ReplayDone => w.(intents := w.intents - {ph.key}, phase := Recovering(ph.todo, ph.clean))
    case ReplayKeep => w.(phase := Recovering(ph.todo, false))
    case ReplayFail => w.(phase := Recovering(ph.todo, false))
    case Recovered => w.(phase := Idle)
  }

  // ---------------------------------------------------------------- the invariant

  predicate Distinct(s: seq<Txn>) {
    forall i, j :: 0 <= i < j < |s| ==> s[i] != s[j]
  }

  /** No batch was ever appended twice, and a log holds nothing that is not in its history. */
  ghost predicate LogsDistinct(w: World) {
    && (forall p :: Distinct(History(w, p)) && Distinct(Log(w, p)))
    && (forall k: Key :: InLog(w, k) ==> InHistory(w, k))
  }

  /** A batch is appended only once its writes are stored and only if its intent was durable. */
  ghost predicate LogsBacked(plan: Plan, w: World) {
    && LogsDistinct(w)
    && (forall k: Key :: InHistory(w, k) ==> PartFacts(plan, k) <= w.stored && k in w.persisted)
  }

  /** A batch whose intent was durable was appended or still has its intent; one that has both is in its log. */
  ghost predicate NothingLost(plan: Plan, w: World) {
    && w.intents <= w.persisted
    && (forall k :: k in w.persisted ==> k.1 in w.started && k in KeysOf(plan, k.1))
    && (forall k :: k in w.persisted ==> k in w.intents || InHistory(w, k))
    && (forall k :: k in w.intents && InHistory(w, k) ==> InLog(w, k))
  }

  predicate NoneAppended(w: World, keys: set<Key>) {
    forall k :: k in keys ==> !InHistory(w, k)
  }

  predicate NoneInLog(w: World, keys: set<Key>) {
    forall k :: k in keys ==> !InLog(w, k)
  }

  /** The partitions of a transaction that have their batch. */
  predicate Covered(w: World, keys: set<Key>) {
    forall k :: k in keys ==> InHistory(w, k)
  }

  ghost predicate PhaseOk(plan: Plan, w: World) {
    match w.phase
    case Idle => true
    case Down => true
    case Persisting(t, todo) =>
      t in w.started && todo <= KeysOf(plan, t) && KeysOf(plan, t) - todo <= w.intents
          && NoneAppended(w, KeysOf(plan, t))
    case Putting(t, writes) =>
      && t in w.started && KeysOf(plan, t) <= w.intents && NoneAppended(w, KeysOf(plan, t))
      && AllFacts(plan, t) <= w.stored + writes
    case Appending(t, todo) =>
      && todo <= KeysOf(plan, t) && todo <= w.intents && NoneAppended(w, todo) && AllFacts(plan, t) <= w.stored
      && Covered(w, KeysOf(plan, t) - todo)
    case Deleting(t, k, todo) =>
      && todo <= KeysOf(plan, t) && todo <= w.intents && NoneAppended(w, todo) && AllFacts(plan, t) <= w.stored
      && Covered(w, KeysOf(plan, t) - todo) && k in w.intents && k !in todo && InLog(w, k)
    case Recovering(todo, clean) => todo <= w.intents && (clean ==> w.intents == todo)
    case ReplayPuts(k, writes, todo, clean) =>
      && k in w.intents && !InHistory(w, k) && PartFacts(plan, k) <= w.stored + writes
      && todo <= w.intents - {k} && (clean ==> w.intents == todo + {k})
    case ReplayDelete(k, todo, clean) =>
      && k in w.intents && InLog(w, k) && todo <= w.intents - {k} && (clean ==> w.intents == todo + {k})
  }

  ghost predicate Inv(plan: Plan, w: World) {
    LogsBacked(plan, w) && NothingLost(plan, w) && PhaseOk(plan, w)
  }

  /** None of the batches that a compaction drops still has its intent. */
  predicate Harmless(w: World, p: Partition, n: nat)
    requires n <= |Log(w, p)|
  {
    forall i :: 0 <= i < n ==> (p, Log(w, p)[i]) !in w.intents
  }

  /** The steps that keep the invariant: a retry of what was never appended, a compaction of what has no intent. */
  predicate Safe(plan: Plan, w: World, a: Action)
    requires Enabled(plan, w, a)
  {
    && (a.Retry? ==> NoneAppended(w, KeysOf(plan, a.txn)))
    && (a.Compact? ==> Harmless(w, a.partition, a.n))
  }

  lemma AppendedMeans(w: World, k: Key, l: Key)
    ensures InLog(Appended(w, k), l) <==> InLog(w, l) || l == k
    ensures InHistory(Appended(w, k), l) <==> InHistory(w, l) || l == k
  {
  }

  lemma PartOfAll(plan: Plan, k: Key)
    requires k in KeysOf(plan, k.1)
    ensures PartFacts(plan, k) <= AllFacts(plan, k.1)
  {
  }

  /** The logs are read alike. */
  ghost predicate SameLogs(w: World, w1: World) {
    && (forall p :: Log(w1, p) == Log(w, p) && History(w1, p) == History(w, p))
    && (forall k: Key :: (InLog(w1, k) <==> InLog(w, k)) && (InHistory(w1, k) <==> InHistory(w, k)))
  }

  lemma Unchanged(w: World, w1: World)
    requires w1.logs == w.logs && w1.history == w.history
    ensures SameLogs(w, w1)
  {
  }

  /** Only the intents and the writes change, and as the logs allow. */
  lemma OthersKeep(plan: Plan, w: World, w1: World)
    requires LogsBacked(plan, w) && NothingLost(plan, w) && SameLogs(w, w1)
    requires w.stored <= w1.stored && w.persisted <= w1.persisted && w.started <= w1.started
             && w1.intents <= w1.persisted
    requires forall k :: k in w1.persisted - w.persisted ==>
               k.1 in w1.started && k in KeysOf(plan, k.1) && k in w1.intents
    requires forall k :: k in w.intents - w1.intents ==> InLog(w, k)
    requires forall k :: k in w1.intents - w.intents ==> !InHistory(w, k)
    ensures LogsBacked(plan, w1) && NothingLost(plan, w1)
  {
    forall k | k in w1.persisted
      ensures k in w1.intents || InHistory(w1, k)
    {
      if k in w.intents && k !in w1.intents { assert InLog(w, k) && InHistory(w, k); }
    }
  }

  lemma DistinctMore(s: seq<Txn>, t: Txn)
    requires Distinct(s) && t !in s
    ensures Distinct(s + [t])
  {
  }

  lemma DistinctLess(s: seq<Txn>, n: nat)
    requires Distinct(s) && n <= |s|
    ensures Distinct(s[n..])
  {
  }

  lemma AppendedDistinct(w: World, k: Key, w1: World)
    requires LogsDistinct(w) && !InHistory(w, k) && w1 == Appended(w, k).(phase := w1.phase)
    ensures LogsDistinct(w1)
  {
    assert !InLog(w, k);
    forall p
      ensures Distinct(History(w1, p)) && Distinct(Log(w1, p))
    {
      assert Distinct(History(w, p)) && Distinct(Log(w, p));
      if p == k.0 {
        DistinctMore(History(w, p), k.1);
        DistinctMore(Log(w, p), k.1);
      }
    }
    forall l: Key | InLog(w1, l)
      ensures InHistory(w1, l)
    {
      AppendedMeans(w, k, l);
    }
  }

  lemma AppendKeeps(plan: Plan, w: World, k: Key, w1: World)
    requires LogsBacked(plan, w) && NothingLost(plan, w) && !InHistory(w, k) && k in w.persisted
             && PartFacts(plan, k) <= w.stored
    requires w1 == Appended(w, k).(phase := w1.phase)
    ensures LogsBacked(plan, w1) && NothingLost(plan, w1)
  {
    AppendedDistinct(w, k, w1);
    forall l: Key
      ensures (InHistory(w1, l) <==> InHistory(w, l) || l == k) && (InLog(w1, l) <==> InLog(w, l) || l == k)
    {
      AppendedMeans(w, k, l);
    }
  }

  lemma CompactedDistinct(w: World, p: Partition, n: nat, w1: World)
    requires LogsDistinct(w) && n <= |Log(w, p)| && w1 == w.(logs := w.logs[p := Log(w, p)[n..]])
    ensures LogsDistinct(w1)
    ensures forall k: Key :: InHistory(w1, k) <==> InHistory(w, k)
  {
    forall q
      ensures Distinct(History(w1, q)) && Distinct(Log(w1, q))
    {
      assert Distinct(History(w, q)) && Distinct(Log(w, q));
      if q == p { DistinctLess(Log(w, p), n); }
    }
    forall k: Key
      ensures (InHistory(w1, k) <==> InHistory(w, k)) && (InLog(w1, k) ==> InHistory(w1, k))
    {
      if InLog(w1, k) { assert InLog(w, k); }
    }
  }

  lemma CompactedLog(w: World, p: Partition, n: nat, w1: World, k: Key)
    requires n <= |Log(w, p)| && Harmless(w, p, n) && w1 == w.(logs := w.logs[p := Log(w, p)[n..]])
    requires k in w.intents && InLog(w, k)
    ensures InLog(w1, k)
  {
    var i :| 0 <= i < |Log(w, k.0)| && Log(w, k.0)[i] == k.1;
    if k.0 == p {
      assert i >= n;
      assert Log(w1, p)[i - n] == k.1;
    }
  }

  /** Dropping batches that have no intent. */
  lemma CompactKeeps(plan: Plan, w: World, p: Partition, n: nat, w1: World)
    requires LogsBacked(plan, w) && NothingLost(plan, w) && n <= |Log(w, p)| && Harmless(w, p, n)
    requires w1 == w.(logs := w.logs[p := Log(w, p)[n..]])
    ensures LogsBacked(plan, w1) && NothingLost(plan, w1)
    ensures forall k: Key :: InHistory(w1, k) <==> InHistory(w, k)
    ensures forall k :: k in w.intents && InLog(w, k) ==> InLog(w1, k)
  {
    CompactedDistinct(w, p, n, w1);
    forall k | k in w.intents && InLog(w, k)
      ensures InLog(w1, k)
    {
      CompactedLog(w, p, n, w1, k);
    }
  }

  /** A step that leaves the logs alone. */
  predicate Quiet(a: Action) { !a.AppendBatch? && !a.ReplayAppend? && !a.Compact? }

  lemma QuietLogs(plan: Plan, w: World, a: Action)
    requires Enabled(plan, w, a) && Quiet(a)
    ensures SameLogs(w, Next(plan, w, a))
  {
    Unchanged(w, Next(plan, w, a));
  }

  /** Only the phase and the stored writes change. */
  lemma PhaseKeeps(plan: Plan, w: World, w1: World)
    requires LogsBacked(plan, w) && NothingLost(plan, w) && SameLogs(w, w1)
    requires w1 == w.(phase := w1.phase, stored := w1.stored, started := w1.started, committed := w1.committed)
    requires w.stored <= w1.stored && w.started <= w1.started
    ensures LogsBacked(plan, w1) && NothingLost(plan, w1)
  {
    OthersKeep(plan, w, w1);
  }

  lemma DeleteKeeps(plan: Plan, w: World, k: Key, w1: World)
    requires LogsBacked(plan, w) && NothingLost(plan, w) && SameLogs(w, w1) && InLog(w, k)
    requires w1 == w.(intents := w.intents - {k}, phase := w1.phase)
    ensures LogsBacked(plan, w1) && NothingLost(plan, w1)
  {
    OthersKeep(plan, w, w1);
  }

  lemma PersistKeeps(plan: Plan, w: World, k: Key, w1: World)
    requires LogsBacked(plan, w) && NothingLost(plan, w) && SameLogs(w, w1)
    requires k.1 in w.started && k in KeysOf(plan, k.1) && !InHistory(w, k)
    requires w1 == w.(intents := w.intents + {k}, persisted := w.persisted + {k}, phase := w1.phase)
    ensures LogsBacked(plan, w1) && NothingLost(plan, w1)
  {
    OthersKeep(plan, w, w1);
  }

  lemma PersistKept(plan: Plan, w: World, k: Key)
    requires Inv(plan, w) && Enabled(plan, w, PersistIntent(k))
    ensures LogsBacked(plan, Next(plan, w, PersistIntent(k))) && NothingLost(plan, Next(plan, w, PersistIntent(k)))
  {
    QuietLogs(plan, w, PersistIntent(k));
    PersistKeeps(plan, w, k, Next(plan, w, PersistIntent(k)));
  }

  lemma ToDelete(plan: Plan, w: World)
    requires PhaseOk(plan, w) && (w.phase.Deleting? || w.phase.ReplayDelete?)
    ensures InLog(w, w.phase.key)
  {
  }

  lemma DeleteKept(plan: Plan, w: World, a: Action, w1: World)
    requires LogsBacked(plan, w) && NothingLost(plan, w) && Enabled(plan, w, a) && (a.DeleteIntent? || a.ReplayDone?)
    requires InLog(w, w.phase.key) && w1 == Next(plan, w, a)
    ensures LogsBacked(plan, w1) && NothingLost(plan, w1)
  {
    Unchanged(w, w1);
    DeleteKeeps(plan, w, w.phase.key, w1);
  }

  lemma DurableKept(plan: Plan, w: World, a: Action)
    requires Inv(plan, w) && Enabled(plan, w, a) && Quiet(a)
    ensures LogsBacked(plan, Next(plan, w, a)) && NothingLost(plan, Next(plan, w, a))
  {
    if a.PersistIntent? {
      PersistKept(plan, w, a.key);
    } else if a.DeleteIntent? || a.ReplayDone? {
      ToDelete(plan, w);
      DeleteKept(plan, w, a, Next(plan, w, a));
    } else {
      QuietLogs(plan, w, a);
      PhaseKeeps(plan, w, Next(plan, w, a));
    }
  }

  lemma BeginPhase(plan: Plan, w: World, a: Action)
    requires Inv(plan, w) && Enabled(plan, w, a) && Safe(plan, w, a) && (a.Begin? || a.Retry? || a.PersistIntent?)
    ensures PhaseOk(plan, Next(plan, w, a))
  {
    QuietLogs(plan, w, a);
  }

  lemma PutPhase(plan: Plan, w: World, a: Action)
    requires Inv(plan, w) && Enabled(plan, w, a) && (a.StartPuts? || a.Put? || a.StartAppends?)
    ensures PhaseOk(plan, Next(plan, w, a))
  {
    QuietLogs(plan, w, a);
  }

  lemma DeletePhase(plan: Plan, w: World, a: Action)
    requires Inv(plan, w) && Enabled(plan, w, a) && (a.DeleteIntent? || a.SkipDelete?)
    ensures PhaseOk(plan, Next(plan, w, a))
  {
    QuietLogs(plan, w, a);
  }

  lemma RestPhase(plan: Plan, w: World, a: Action)
    requires Inv(plan, w) && Enabled(plan, w, a)
    requires a.Finish? || a.GiveUp? || a.Crash? || a.Restart? || a.Recovered? || a.ReplayKeep? || a.ReplayFail?
    ensures PhaseOk(plan, Next(plan, w, a))
  {
    QuietLogs(plan, w, a);
  }

  lemma ReplayPhase(plan: Plan, w: World, k: Key)
    requires Inv(plan, w) && Enabled(plan, w, Replay(k))
    ensures PhaseOk(plan, Next(plan, w, Replay(k)))
  {
    QuietLogs(plan, w, Replay(k));
    assert k in w.intents && (InHistory(w, k) ==> InLog(w, k));
  }

  lemma ReplayOnPhase(plan: Plan, w: World, a: Action)
    requires Inv(plan, w) && Enabled(plan, w, a) && (a.ReplayPut? || a.ReplayDone?)
    ensures PhaseOk(plan, Next(plan, w, a))
  {
    QuietLogs(plan, w, a);
  }

  lemma QuietPhase(plan: Plan, w: World, a: Action)
    requires Inv(plan, w) && Enabled(plan, w, a) && Safe(plan, w, a) && Quiet(a)
    ensures PhaseOk(plan, Next(plan, w, a))
  {
    if a.Begin? || a.Retry? || a.PersistIntent? {
      BeginPhase(plan, w, a);
    } else if a.StartPuts? || a.Put? || a.StartAppends? {
      PutPhase(plan, w, a);
    } else if a.DeleteIntent? || a.SkipDelete? {
      DeletePhase(plan, w, a);
    } else if a.Replay? {
      ReplayPhase(plan, w, a.key);
    } else if a.ReplayPut? || a.ReplayDone? {
      ReplayOnPhase(plan, w, a);
    } else {
      RestPhase(plan, w, a);
    }
  }

  lemma AppendPhase(plan: Plan, w: World, k: Key)
    requires PhaseOk(plan, w) && Enabled(plan, w, AppendBatch(k))
    ensures PhaseOk(plan, Next(plan, w, AppendBatch(k)))
  {
    var w1 := Next(plan, w, AppendBatch(k));
    forall l: Key
      ensures (InHistory(w1, l) <==> InHistory(w, l) || l == k) && (InLog(w1, l) <==> InLog(w, l) || l == k)
    {
      AppendedMeans(w, k, l);
    }
  }

  lemma AppendStepKeeps(plan: Plan, w: World, k: Key)
    requires Inv(plan, w) && Enabled(plan, w, AppendBatch(k))
    ensures Inv(plan, Next(plan, w, AppendBatch(k)))
  {
    PartOfAll(plan, k);
    AppendKeeps(plan, w, k, Next(plan, w, AppendBatch(k)));
    AppendPhase(plan, w, k);
  }

  lemma CompactStepKeeps(plan: Plan, w: World, p: Partition, n: nat)
    requires Inv(plan, w) && Enabled(plan, w, Compact(p, n)) && Harmless(w, p, n)
    ensures Inv(plan, Next(plan, w, Compact(p, n)))
  {
    CompactKeeps(plan, w, p, n, Next(plan, w, Compact(p, n)));
  }

  lemma ReplayAppendKeeps(plan: Plan, w: World)
    requires Inv(plan, w) && Enabled(plan, w, ReplayAppend)
    ensures Inv(plan, Next(plan, w, ReplayAppend))
  {
    AppendKeeps(plan, w, w.phase.key, Next(plan, w, ReplayAppend));
    AppendedMeans(w, w.phase.key, w.phase.key);
  }

  lemma StepKeepsInv(plan: Plan, w: World, a: Action)
    requires Inv(plan, w) && Enabled(plan, w, a) && Safe(plan, w, a)
    ensures Inv(plan, Next(plan, w, a))
  {
    if Quiet(a) {
      DurableKept(plan, w, a);
      QuietPhase(plan, w, a);
    } else if a.AppendBatch? {
      AppendStepKeeps(plan, w, a.key);
    } else if a.ReplayAppend? {
      ReplayAppendKeeps(plan, w);
    } else {
      CompactStepKeeps(plan, w, a.partition, a.n);
    }
  }
}
