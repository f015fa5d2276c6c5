/** The metric repository as the use cases see it: an in-memory collection
    that appends on save and answers the two queries by filtering, inclusive
    at both ends of the time window. */
module Store {
  import opened Metrics

  /** The samples of `ms` that `keep` accepts, in their original order. */
  function Filter(ms: seq<Metric>, keep: Metric -> bool): (r: seq<Metric>)
    ensures |r| <= |ms|
    ensures forall m :: m in r <==> m in ms && keep(m)
    ensures forall m :: multiset(r)[m] == if keep(m) then multiset(ms)[m] else 0
  {
    if |ms| == 0 then []
    else
      assert ms == [ms[0]] + ms[1..];
      (if keep(ms[0]) then [ms[0]] else []) + Filter(ms[1..], keep)
  }

  /** Filtering keeps the order: the survivors of a concatenation are the
      survivors of its first part followed by those of its second. */
  lemma {:induction false} FilterAppend(a: seq<Metric>, b: seq<Metric>, keep: Metric -> bool)
    ensures Filter(a + b, keep) == Filter(a, keep) + Filter(b, keep)
  {
    if |a| == 0 {
      assert a + b == b;
    } else {
      assert (a + b)[1..] == a[1..] + b;
      FilterAppend(a[1..], b, keep);
    }
  }

  /** One sample survives exactly when `keep` accepts it. */
  lemma FilterSingle(m: Metric, keep: Metric -> bool)
    ensures Filter([m], keep) == if keep(m) then [m] else []
  {
    assert [m][1..] == [];
  }

  class MetricStore {
    var metrics: seq<Metric>

    constructor(initial: seq<Metric>)
      ensures metrics == initial
    {
      metrics := initial;
    }

    /** `save`: the sample is appended and handed back. */
    method Save(m: Metric) returns (saved: Metric)
      modifies this
      ensures metrics == old(metrics) + [m]
      ensures saved == m
    {
      metrics := metrics + [m];
      saved := m;
    }

    /** `findByUserAndType`: every sample of that user and type. */
    function FindByUserAndType(userId: string, metricType: MetricType): (r: seq<Metric>)
      reads this
      ensures forall m :: m in r <==> m in metrics && m.BelongsTo(userId) && m.metricType == metricType
      ensures forall m :: multiset(r)[m] ==
                          if m.BelongsTo(userId) && m.metricType == metricType then multiset(metrics)[m] else 0
    {
      Filter(metrics, (m: Metric) => m.BelongsTo(userId) && m.metricType == metricType)
    }

    /** `findByUserTypeAndTimeRange`: the samples of that user and type whose
        timestamps lie in the closed window. */
    function FindByUserTypeAndTimeRange(userId: string, metricType: MetricType,
                                        startTimestamp: int, endTimestamp: int): (r: seq<Metric>)
      reads this
      ensures forall m :: m in r <==> m in metrics && m.BelongsTo(userId) && m.metricType == metricType
                                        && m.IsWithinRange(startTimestamp, endTimestamp)
      ensures forall m :: multiset(r)[m] ==
                          if m.BelongsTo(userId) && m.metricType == metricType
                             && m.IsWithinRange(startTimestamp, endTimestamp)
                          then multiset(metrics)[m] else 0
    {
      Filter(metrics, (m: Metric) => m.BelongsTo(userId) && m.metricType == metricType
                           && m.IsWithinRange(startTimestamp, endTimestamp))
    }
  }
}
