/** The predictions the admission gate works with, taken from a recorded history. */
module AdmissionHistory {
  import opened AdmissionGate
  import opened History

  function OrZero(p: Prediction<real>): real { if p.Known? then p.value else 0.0 }

  /** The predictions of a history, for pools known by their names. */
  function HistOf(records: seq<Record>, names: nat -> string): Hist {
    var a := Fold(records);
    Hist((k: nat, ref: string) => OrZero(PredictCores(a, names(k), ref)),
         (k: nat, ref: string) => var m := PredictMem(a, names(k), ref); if m.Known? then m.value else 0)
  }

  lemma {:induction false} BlendNeverNegative(records: seq<Record>)
    requires forall i | 0 <= i < |records| :: records[i].cpuSeconds >= 0.0
    ensures BlendAll(records).cpuSeconds >= 0.0
  {
    if records != [] {
      BlendNeverNegative(records[..|records| - 1]);
    }
  }

  lemma LevelNeverNegative(records: seq<Record>, l: Level)
    requires forall i | 0 <= i < |records| :: records[i].cpuSeconds >= 0.0
    ensures StatsAt(Fold(records), l).cpuSeconds >= 0.0
  {
    LevelBlends(records, l);
    var s := Select(records, l);
    forall i | 0 <= i < |s| ensures s[i].cpuSeconds >= 0.0 {
      Selected(records, l, i);
    }
    BlendNeverNegative(s);
  }

  lemma CoresNeverNegative(records: seq<Record>, pool: string, ref: string)
    requires forall i | 0 <= i < |records| :: records[i].cpuSeconds >= 0.0
    ensures OrZero(PredictCores(Fold(records), pool, ref)) >= 0.0
  {
    var a := Fold(records);
    LevelNeverNegative(records, OfRef(Key(pool, ref)));
    LevelNeverNegative(records, OfPool(pool));
    LevelNeverNegative(records, OfHost);
    hide Fold;
    assert StatsAt(a, OfRef(Key(pool, ref))) == RefStats(a, Key(pool, ref));
    assert StatsAt(a, OfPool(pool)) == PoolStats(a, pool);
    NonNegativeRate(RefStats(a, Key(pool, ref)));
    NonNegativeRate(PoolStats(a, pool));
    NonNegativeRate(a.global);
  }

  lemma NonNegativeRate(st: Stats)
    requires st.cpuSeconds >= 0.0
    ensures Usable(st) ==> st.cpuSeconds / st.wallSeconds >= 0.0
  {}

  /** A history of non-negative CPU times never predicts a negative number of cores, which is all
      the admission bound asks of it. */
  lemma RecordedHistoryIsSane(records: seq<Record>, names: nat -> string)
    requires forall i | 0 <= i < |records| :: records[i].cpuSeconds >= 0.0
    ensures HistOf(records, names).Sane()
  {
    forall k: nat, ref: string ensures HistOf(records, names).cores(k, ref) >= 0.0 {
      CoresNeverNegative(records, names(k), ref);
    }
  }
}
