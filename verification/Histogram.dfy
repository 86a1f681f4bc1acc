/** Cumulative histograms by label set (`Histogram.observe`, `_labels_key`), as in the "Histograms and
    summaries" part of the Prometheus text format. */
module Histogram {
  import opened TextOrder

  type Label = (string, string)

  // ----- label keys

  /** The order of Python tuples: the label name decides, then its value. */
  predicate LabelLeq(a: Label, b: Label) {
    if a.0 == b.0 then Leq(a.1, b.1) else Leq(a.0, b.0)
  }

  lemma LabelOrder(a: Label, b: Label, c: Label)
    ensures LabelLeq(a, b) || LabelLeq(b, a)
    ensures LabelLeq(a, b) && LabelLeq(b, a) ==> a == b
    ensures LabelLeq(a, b) && LabelLeq(b, c) ==> LabelLeq(a, c)
  {
    LeqTotal(a.0, b.0);
    LeqTotal(a.1, b.1);
    if LabelLeq(a, b) && LabelLeq(b, a) {
      if a.0 == b.0 {
        LeqAntisymmetric(a.1, b.1);
      } else {
        LeqAntisymmetric(a.0, b.0);
      }
    }
    if LabelLeq(a, b) && LabelLeq(b, c) {
      if a.0 == b.0 == c.0 {
        LeqTransitive(a.1, b.1, c.1);
      } else if a.0 != b.0 && b.0 != c.0 {
        LeqTransitive(a.0, b.0, c.0);
        if a.0 == c.0 {
          LeqAntisymmetric(a.0, b.0);
        }
      }
    }
  }

  predicate Sorted(labels: seq<Label>) {
    forall i, j :: 0 <= i < j < |labels| ==> LabelLeq(labels[i], labels[j])
  }

  function Insert(item: Label, labels: seq<Label>): (r: seq<Label>)
    ensures multiset(r) == multiset(labels) + multiset{item}
  {
    if labels == [] || LabelLeq(item, labels[0]) then [item] + labels
    else
      assert labels == [labels[0]] + labels[1..];
      [labels[0]] + Insert(item, labels[1..])
  }

  /** `tuple(sorted(labels.items()))`, with the items in the order they were written. */
  function LabelsKey(labels: seq<Label>): (key: seq<Label>)
    ensures multiset(key) == multiset(labels)
  {
    if labels == [] then []
    else
      assert labels == [labels[0]] + labels[1..];
      Insert(labels[0], LabelsKey(labels[1..]))
  }

  lemma {:induction false} InsertSorts(item: Label, labels: seq<Label>)
    requires Sorted(labels)
    ensures Sorted(Insert(item, labels))
  {
    if labels == [] {
    } else if LabelLeq(item, labels[0]) {
      forall j | 0 <= j < |labels|
        ensures LabelLeq(item, labels[j])
      {
        LabelOrder(item, labels[0], labels[j]);
      }
    } else {
      InsertSorts(item, labels[1..]);
      LabelOrder(item, labels[0], item);
      var rest := Insert(item, labels[1..]);
      forall j | 0 <= j < |rest|
        ensures LabelLeq(labels[0], rest[j])
      {
        assert rest[j] in multiset(rest);
        assert rest[j] == item || rest[j] in labels[1..];
      }
    }
  }

  lemma {:induction false} KeyIsSorted(labels: seq<Label>)
    ensures Sorted(LabelsKey(labels))
  {
    if labels != [] {
      KeyIsSorted(labels[1..]);
      InsertSorts(labels[0], LabelsKey(labels[1..]));
    }
  }

  lemma {:induction false} SortedIsUnique(a: seq<Label>, b: seq<Label>)
    requires Sorted(a) && Sorted(b) && multiset(a) == multiset(b)
    ensures a == b
    decreases |a|
  {
    assert |multiset(a)| == |a| && |multiset(b)| == |b|;
    if a != [] {
      HeadIsLeast(a, b);
      HeadIsLeast(b, a);
      LabelOrder(a[0], b[0], a[0]);
      RemoveHead(a);
      RemoveHead(b);
      SortedIsUnique(a[1..], b[1..]);
      assert a == [a[0]] + a[1..] && b == [b[0]] + b[1..];
    }
  }

  lemma HeadIsLeast(a: seq<Label>, b: seq<Label>)
    requires Sorted(a) && a != [] && b != [] && multiset(a) == multiset(b)
    ensures LabelLeq(a[0], b[0])
  {
    assert b[0] in multiset(a);
    var j :| 0 <= j < |a| && a[j] == b[0];
    LabelOrder(a[0], a[0], a[0]);
  }

  lemma RemoveHead(a: seq<Label>)
    requires a != []
    ensures multiset(a[1..]) == multiset(a) - multiset{a[0]}
    ensures Sorted(a) ==> Sorted(a[1..])
  {
    assert a == [a[0]] + a[1..];
  }

  /** The order in which labels are written never matters, and nothing else is forgotten. */
  lemma LabelOrderIsIrrelevant(a: seq<Label>, b: seq<Label>)
    ensures LabelsKey(a) == LabelsKey(b) <==> multiset(a) == multiset(b)
  {
    KeyIsSorted(a);
    KeyIsSorted(b);
    if multiset(a) == multiset(b) {
      SortedIsUnique(LabelsKey(a), LabelsKey(b));
    }
  }

  // ----- buckets

  datatype Observation = Observation(value: real, key: seq<Label>)

  /** How many observations of the label set are at or below the bound. */
  function CountUpTo(log: seq<Observation>, key: seq<Label>, bound: real): nat
    decreases |log|
  {
    if log == [] then 0
    else
      var last := log[|log| - 1];
      CountUpTo(log[..|log| - 1], key, bound) + (if last.key == key && last.value <= bound then 1 else 0)
  }

  function CountOf(log: seq<Observation>, key: seq<Label>): nat
    decreases |log|
  {
    if log == [] then 0
    else CountOf(log[..|log| - 1], key) + (if log[|log| - 1].key == key then 1 else 0)
  }

  function SumOf(log: seq<Observation>, key: seq<Label>): real
    decreases |log|
  {
    if log == [] then 0.0
    else SumOf(log[..|log| - 1], key) + (if log[|log| - 1].key == key then log[|log| - 1].value else 0.0)
  }

  /** The bucket list of a label set: one count per bound, and the total for the bound +Inf. */
  function Expected(log: seq<Observation>, key: seq<Label>, buckets: seq<real>): (counts: seq<nat>)
    ensures |counts| == |buckets| + 1
  {
    seq(|buckets|, i requires 0 <= i < |buckets| => CountUpTo(log, key, buckets[i])) + [CountOf(log, key)]
  }

  lemma {:induction false} CountGrows(log: seq<Observation>, key: seq<Label>, low: real, high: real)
    requires low <= high
    ensures CountUpTo(log, key, low) <= CountUpTo(log, key, high) <= CountOf(log, key)
    decreases |log|
  {
    if log != [] {
      CountGrows(log[..|log| - 1], key, low, high);
    }
  }

  /** Over sorted bounds the counts never decrease, and the last one is the number of observations. */
  lemma BucketsAreCumulative(log: seq<Observation>, key: seq<Label>, buckets: seq<real>)
    requires forall i, j :: 0 <= i < j < |buckets| ==> buckets[i] <= buckets[j]
    ensures var counts := Expected(log, key, buckets);
      && (forall i, j :: 0 <= i < j < |counts| ==> counts[i] <= counts[j])
      && counts[|buckets|] == CountOf(log, key)
  {
    forall i, j | 0 <= i < j <= |buckets|
      ensures Expected(log, key, buckets)[i] <= Expected(log, key, buckets)[j]
    {
      CountGrows(log, key, buckets[i], if j < |buckets| then buckets[j] else buckets[i]);
    }
  }

  lemma Observed(log: seq<Observation>, o: Observation, key: seq<Label>, buckets: seq<real>)
    ensures CountOf(log + [o], key) == CountOf(log, key) + (if o.key == key then 1 else 0)
    ensures SumOf(log + [o], key) == SumOf(log, key) + (if o.key == key then o.value else 0.0)
    ensures forall b :: CountUpTo(log + [o], key, b) == CountUpTo(log, key, b) + (if o.key == key && o.value <= b then 1 else 0)
  {
    assert (log + [o])[..|log|] == log;
  }

  /** What is kept for a label set is exactly what has been observed for it. */
  ghost predicate Tells(kept: Series, log: seq<Observation>, key: seq<Label>, buckets: seq<real>) {
    kept == Series(if CountOf(log, key) > 0 then Expected(log, key, buckets) else [],
                   SumOf(log, key), CountOf(log, key))
  }

  /** The entries of one label set in the three dictionaries; an absent entry stands for nothing seen. */
  datatype Series = Series(counts: seq<nat>, sum: real, observations: nat)

  datatype Tables = Tables(counts: map<seq<Label>, seq<nat>>, sums: map<seq<Label>, real>, observations: map<seq<Label>, nat>)
  {
    function Of(key: seq<Label>): Series {
      Series(if key in counts then counts[key] else [],
             if key in sums then sums[key] else 0.0,
             if key in observations then observations[key] else 0)
    }

    function With(key: seq<Label>, s: Series): Tables {
      Tables(counts[key := s.counts], sums[key := s.sum], observations[key := s.observations])
    }

    lemma OtherKeys(key: seq<Label>, s: Series, other: seq<Label>)
      ensures With(key, s).Of(other) == if other == key then s else Of(other)
    {
    }
  }

  ghost predicate AllTell(tables: Tables, log: seq<Observation>, buckets: seq<real>) {
    forall key :: Tells(tables.Of(key), log, key, buckets)
  }

  /** The bucket list after one more observation. */
  ghost predicate Bumped(before: seq<nat>, after: seq<nat>, buckets: seq<real>, value: real) {
    && |before| == |after| == |buckets| + 1
    && (forall i :: 0 <= i < |buckets| ==> after[i] == before[i] + (if value <= buckets[i] then 1 else 0))
    && after[|buckets|] == before[|buckets|] + 1
  }

  lemma BumpedIsExpected(log: seq<Observation>, value: real, key: seq<Label>, buckets: seq<real>, bumped: seq<nat>)
    requires Bumped(Expected(log, key, buckets), bumped, buckets, value)
    ensures bumped == Expected(log + [Observation(value, key)], key, buckets)
  {
    Observed(log, Observation(value, key), key, buckets);
  }

  lemma OthersUnseen(log: seq<Observation>, o: Observation, other: seq<Label>, buckets: seq<real>, kept: Series)
    requires other != o.key && Tells(kept, log, other, buckets)
    ensures Tells(kept, log + [o], other, buckets)
  {
    Observed(log, o, other, buckets);
    assert Expected(log + [o], other, buckets) == Expected(log, other, buckets);
  }

  lemma NothingYet(log: seq<Observation>, key: seq<Label>, buckets: seq<real>)
    requires CountOf(log, key) == 0
    ensures Expected(log, key, buckets) == seq(|buckets| + 1, _ => 0)
  {
    forall i | 0 <= i < |buckets|
      ensures CountUpTo(log, key, buckets[i]) == 0
    {
      CountGrows(log, key, buckets[i], buckets[i]);
    }
  }

  lemma StepTells(tables: Tables, log: seq<Observation>, buckets: seq<real>, key: seq<Label>, value: real, bumped: seq<nat>)
    requires AllTell(tables, log, buckets)
    requires Bumped(Expected(log, key, buckets), bumped, buckets, value)
    ensures var s := tables.Of(key);
      AllTell(tables.With(key, Series(bumped, s.sum + value, s.observations + 1)), log + [Observation(value, key)], buckets)
  {
    var s := tables.Of(key);
    var o := Observation(value, key);
    var after := Series(bumped, s.sum + value, s.observations + 1);
    assert Tells(s, log, key, buckets);
    BumpedIsExpected(log, value, key, buckets, bumped);
    Observed(log, o, key, buckets);
    forall other
      ensures Tells(tables.With(key, after).Of(other), log + [o], other, buckets)
    {
      tables.OtherKeys(key, after, other);
      if other != key {
        OthersUnseen(log, o, other, buckets, tables.Of(other));
      }
    }
  }

  class Histogram {
    const buckets: seq<real>
    var counts: map<seq<Label>, seq<nat>>
    var sums: map<seq<Label>, real>
    var observations: map<seq<Label>, nat>
    ghost var log: seq<Observation>   // everything observed

    ghost function View(): Tables
      reads this
    {
      Tables(counts, sums, observations)
    }

    /** For every label set the tables say what the log says. */
    ghost predicate Valid()
      reads this
    {
      AllTell(View(), log, buckets) && forall key :: key in counts ==> counts[key] != []
    }

    constructor (buckets: seq<real>)
      ensures Valid() && this.buckets == buckets && log == []
    {
      this.buckets := buckets;
      counts, sums, observations, log := map[], map[], map[], [];
    }

    /** The bucket loop: every bucket whose bound the value does not pass gets one more. */
    static method Bump(buckets: seq<real>, counts: seq<nat>, value: real) returns (bumped: seq<nat>)
      requires |counts| == |buckets| + 1
      ensures Bumped(counts, bumped, buckets, value)
    {
      bumped := counts;
      for i := 0 to |buckets|
        invariant |bumped| == |counts|
        invariant forall j :: 0 <= j < i ==> bumped[j] == counts[j] + (if value <= buckets[j] then 1 else 0)
        invariant forall j :: i <= j < |counts| ==> bumped[j] == counts[j]
      {
        if value <= buckets[i] {
          bumped := bumped[i := bumped[i] + 1];
        }
      }
      bumped := bumped[|buckets| := bumped[|buckets|] + 1];
    }

    /** The list a label set starts from is the expected one. */
    method StartingCounts(key: seq<Label>) returns (start: seq<nat>)
      requires Valid()
      ensures start == Expected(log, key, buckets)
    {
      assert Tells(View().Of(key), log, key, buckets);
      if key in counts {
        start := counts[key];
      } else {
        NothingYet(log, key, buckets);
        start := seq(|buckets| + 1, _ => 0);
      }
    }

    /** The three dictionaries after one more value for a key. */
    method Store(key: seq<Label>, bumped: seq<nat>, value: real)
      requires bumped != [] && forall k :: k in counts ==> counts[k] != []
      modifies `counts, `sums, `observations
      ensures var s := old(View()).Of(key);
        View() == old(View()).With(key, Series(bumped, s.sum + value, s.observations + 1))
      ensures forall k :: k in counts ==> counts[k] != []
    {
      counts := counts[key := bumped];
      sums := sums[key := (if key in sums then sums[key] else 0.0) + value];
      observations := observations[key := (if key in observations then observations[key] else 0) + 1];
    }

    /** The new bucket list, sum and count of a key go into the dictionaries together. */
    method Enter(key: seq<Label>, bumped: seq<nat>, value: real)
      requires Valid() && Bumped(Expected(log, key, buckets), bumped, buckets, value)
      modifies this
      ensures Valid() && log == old(log) + [Observation(value, key)]
    {
      StepTells(View(), log, buckets, key, value, bumped);
      Store(key, bumped, value);
      log := log + [Observation(value, key)];
    }

    method Observe(value: real, labels: seq<Label>)
      requires Valid()
      modifies this
      ensures Valid() && log == old(log) + [Observation(value, LabelsKey(labels))]
    {
      var key := LabelsKey(labels);
      var start := StartingCounts(key);
      var bumped := Bump(buckets, start, value);
      Enter(key, bumped, value);
    }
  }
}
