/** Why recovery may ask the change log itself whether a batch is already there: on a log that holds whole batches,
    looking for the records of a batch finds them exactly if the batch was appended. */
module ReplayCheck {
  import opened ChangeRecords
  import opened CommitProtocol
  import opened Intents
  import opened LogClients
  import opened Manifests
  import S = LogSpec

  /** The records of a batch without their storage timestamps. */
  function Raw(b: Batch): (rs: seq<ChangeRecord>)
    ensures |rs| == |b|
    ensures forall i :: 0 <= i < |b| ==> rs[i] == b[i].1
  {
    seq(|b|, i requires 0 <= i < |b| => b[i].1)
  }

  /** A batch of a transaction as `Commit` makes it: not empty, and every record carries the transaction. */
  predicate WellFormed(plan: Plan, k: Key) {
    && k.0 in plan.batches(k.1)
    && var b := plan.batches(k.1)[k.0];
       0 < |b| <= UINT32_MAX && forall i :: 0 <= i < |b| ==> b[i].1.txnId == k.1
  }

  function Stamped(o: S.Options, plan: Plan, k: Key, next: nat): seq<ChangeRecord>
    requires WellFormed(plan, k)
  {
    S.StampAll(o, plan.version(k.1), Raw(plan.batches(k.1)[k.0]), next)
  }

  /** The records of a log that the given transactions appended to. */
  function RecordsOf(o: S.Options, plan: Plan, p: Partition, txns: seq<Txn>, next: nat): seq<ChangeRecord>
    requires forall i :: 0 <= i < |txns| ==> WellFormed(plan, (p, txns[i]))
    decreases |txns|
  {
    if txns == [] then []
    else
      var rs := RecordsOf(o, plan, p, txns[..|txns| - 1], next);
      rs + Stamped(o, plan, (p, txns[|txns| - 1]), next + |rs|)
  }

  function IntentOf(plan: Plan, k: Key): IntentBatch
    requires WellFormed(plan, k)
  {
    IntentBatch(k.1, plan.version(k.1), plan.batches(k.1)[k.0])
  }

  /** A stamped record is its place in its batch. */
  lemma StampMatches(o: S.Options, plan: Plan, k: Key, next: nat, i: nat)
    requires WellFormed(plan, k) && i < |plan.batches(k.1)[k.0]|
    ensures i < |Stamped(o, plan, k, next)| && Matches(Stamped(o, plan, k, next)[i], IntentOf(plan, k), i)
  {
  }

  lemma StampKeepsTxn(o: S.Options, plan: Plan, k: Key, next: nat, r: ChangeRecord)
    requires WellFormed(plan, k) && r in Stamped(o, plan, k, next)
    ensures r.txnId == k.1
  {
    var i :| 0 <= i < |Stamped(o, plan, k, next)| && Stamped(o, plan, k, next)[i] == r;
    assert Raw(plan.batches(k.1)[k.0])[i].txnId == k.1;
  }

  lemma {:induction false} AppendedIsFound(o: S.Options, plan: Plan, p: Partition, txns: seq<Txn>, next: nat, t: Txn,
                                           i: nat)
    requires (forall j :: 0 <= j < |txns| ==> WellFormed(plan, (p, txns[j]))) && WellFormed(plan, (p, t))
    requires t in txns && i < |plan.batches(t)[p]|
    ensures Found(RecordsOf(o, plan, p, txns, next), IntentOf(plan, (p, t)), i)
    decreases |txns|
  {
    var most, last := txns[..|txns| - 1], txns[|txns| - 1];
    var rs := RecordsOf(o, plan, p, most, next);
    if last == t {
      StampMatches(o, plan, (p, t), next + |rs|, i);
      var r := Stamped(o, plan, (p, t), next + |rs|)[i];
      assert r in rs + Stamped(o, plan, (p, t), next + |rs|);
    } else {
      assert t in most;
      AppendedIsFound(o, plan, p, most, next, t, i);
      var r :| r in rs && Matches(r, IntentOf(plan, (p, t)), i);
      assert r in RecordsOf(o, plan, p, txns, next);
    }
  }

  lemma {:induction false} FoundWasAppended(o: S.Options, plan: Plan, p: Partition, txns: seq<Txn>, next: nat,
                                            r: ChangeRecord)
    requires (forall j :: 0 <= j < |txns| ==> WellFormed(plan, (p, txns[j])))
    requires r in RecordsOf(o, plan, p, txns, next)
    ensures r.txnId in txns
    decreases |txns|
  {
    var most, last := txns[..|txns| - 1], txns[|txns| - 1];
    var rs := RecordsOf(o, plan, p, most, next);
    if r in rs {
      FoundWasAppended(o, plan, p, most, next, r);
      assert forall t :: t in most ==> t in txns;
    } else {
      StampKeepsTxn(o, plan, (p, last), next + |rs|, r);
    }
  }

  /** The check that recovery makes on the log is exact. */
  lemma CheckIsExact(o: S.Options, plan: Plan, p: Partition, txns: seq<Txn>, next: nat, t: Txn)
    requires (forall j :: 0 <= j < |txns| ==> WellFormed(plan, (p, txns[j]))) && WellFormed(plan, (p, t))
    ensures HasBatch(RecordsOf(o, plan, p, txns, next), IntentOf(plan, (p, t))) <==> t in txns
  {
    var rs, b := RecordsOf(o, plan, p, txns, next), IntentOf(plan, (p, t));
    if t in txns {
      forall i | 0 <= i < |b.records|
        ensures Found(rs, b, i)
      {
        AppendedIsFound(o, plan, p, txns, next, t, i);
      }
    }
    if HasBatch(rs, b) {
      assert Found(rs, b, 0);
      var r :| r in rs && Matches(r, b, 0);
      FoundWasAppended(o, plan, p, txns, next, r);
    }
  }
}
