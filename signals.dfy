/** One lead's recording (an ECGDataSet): its samples, its bad-lead flag and the
    filters applied to it, together with the median baseline correction that
    ECGModel.readData performs on every good lead. */
module Signals {
  import opened Filters

  /** `getAt(j)` of an ECGDataSet: `[0]` is the time, `[1]` the value. */
  datatype Sample = Sample(time: real, value: real)

  /** An ECGDataSet as a value: the samples in the order `addTuple` appended them,
      the flag of `setBad`/`isBad`, and the history of filter calls. */
  datatype DataSet = DataSet(samples: seq<Sample>, bad: bool, applied: seq<Filter>)

  /** `new ECGDataSet()`. */
  const EmptyDataSet := DataSet([], false, [])

  /** `addTuple(time, value)`. */
  function AddTuple(d: DataSet, time: real, value: real): DataSet {
    d.(samples := d.samples + [Sample(time, value)])
  }

  /** What a filter kernel (a numeric method of ECGDataSet that is not part of this
      model) does to a lead: the kernel rewrites the samples, and the call is
      recorded.  The flag is left alone. */
  function ApplyKernel(d: DataSet, f: Filter, kernel: (Filter, seq<Sample>) -> seq<Sample>): DataSet {
    d.(samples := kernel(f, d.samples), applied := d.applied + [f])
  }

  /** The value component of each sample (`getAt(j)[1]`). */
  function Values(s: seq<Sample>): seq<real> {
    seq(|s|, i requires 0 <= i < |s| => s[i].value)
  }

  /** The time component of each sample (`getAt(j)[0]`). */
  function Times(s: seq<Sample>): seq<real> {
    seq(|s|, i requires 0 <= i < |s| => s[i].time)
  }

  /** Every value lowered by `m`, every time kept. */
  function Shift(s: seq<Sample>, m: real): seq<Sample> {
    seq(|s|, i requires 0 <= i < |s| => Sample(s[i].time, s[i].value - m))
  }

  function ShiftValues(v: seq<real>, m: real): (r: seq<real>)
    ensures |r| == |v| && forall i :: 0 <= i < |v| ==> r[i] == v[i] - m
  {
    if |v| == 0 then [] else [v[0] - m] + ShiftValues(v[1..], m)
  }

  // ---------------------------------------------------------------------------
  // Sorting: what Collections.sort promises of the copy of the values.

  predicate Ascending(s: seq<real>) {
    forall i, j :: 0 <= i < j < |s| ==> s[i] <= s[j]
  }

  function Insert(x: real, s: seq<real>): seq<real> {
    if |s| == 0 then [x]
    else if x <= s[0] then [x] + s
    else [s[0]] + Insert(x, s[1..])
  }

  /** Insertion sort; the model of `Collections.sort` on the copy of the values. */
  function Sort(v: seq<real>): seq<real> {
    if |v| == 0 then [] else Insert(v[0], Sort(v[1..]))
  }

  lemma {:induction false} InsertSorts(x: real, s: seq<real>)
    requires Ascending(s)
    ensures Ascending(Insert(x, s)) && multiset(Insert(x, s)) == multiset(s) + multiset{x}
    ensures |Insert(x, s)| == |s| + 1
  {
    if |s| == 0 {
    } else if x <= s[0] {
      ConsAscending(x, s);
    } else {
      assert s == [s[0]] + s[1..];
      AscendingTail(s);
      var rest := Insert(x, s[1..]);
      InsertSorts(x, s[1..]);
      forall k | 0 <= k < |rest| ensures s[0] <= rest[k] {
        assert rest[k] in multiset(s[1..]) + multiset{x};
        if rest[k] != x {
          assert rest[k] in s[1..];
        }
      }
      ConsAscending(s[0], rest);
    }
  }

  /** Putting a lower bound in front keeps a sequence ascending. */
  lemma ConsAscending(a: real, r: seq<real>)
    requires Ascending(r) && forall k :: 0 <= k < |r| ==> a <= r[k]
    ensures Ascending([a] + r)
  {
    var t := [a] + r;
    forall i, j | 0 <= i < j < |t| ensures t[i] <= t[j] {
      assert t[j] == r[j - 1];
      if i > 0 {
        assert t[i] == r[i - 1];
      }
    }
  }

  /** The sorted copy is an ascending permutation of the values: what
      `Collections.sort` promises. */
  lemma {:induction false} SortSorts(v: seq<real>)
    ensures Ascending(Sort(v)) && multiset(Sort(v)) == multiset(v) && |Sort(v)| == |v|
  {
    if |v| > 0 {
      SortSorts(v[1..]);
      InsertSorts(v[0], Sort(v[1..]));
      assert v == [v[0]] + v[1..];
      assert multiset(v) == multiset(v[1..]) + multiset{v[0]};
    }
  }

  /** An ascending sequence is determined by its multiset of elements, so the
      median below does not depend on how the values were sorted. */
  lemma {:induction false} AscendingUnique(s: seq<real>, t: seq<real>)
    requires Ascending(s) && Ascending(t) && multiset(s) == multiset(t)
    ensures s == t
  {
    if |s| == 0 {
      assert |t| == |multiset(t)| == 0;
    } else {
      HeadsEqual(s, t);
      MultisetTail(s);
      MultisetTail(t);
      AscendingTail(s);
      AscendingTail(t);
      AscendingUnique(s[1..], t[1..]);
      assert s == [s[0]] + s[1..];
      assert t == [t[0]] + t[1..];
    }
  }

  /** Two ascending arrangements of the same values start with the same least
      value. */
  lemma HeadsEqual(s: seq<real>, t: seq<real>)
    requires Ascending(s) && Ascending(t) && multiset(s) == multiset(t) && |s| > 0
    ensures |t| > 0 && s[0] == t[0]
  {
    assert |t| == |multiset(t)| == |multiset(s)| == |s|;
    assert s[0] in multiset(t);
    assert t[0] in multiset(s);
    var i :| 0 <= i < |t| && t[i] == s[0];
    var j :| 0 <= j < |s| && s[j] == t[0];
  }

  lemma MultisetTail(s: seq<real>)
    requires |s| > 0
    ensures multiset(s[1..]) == multiset(s) - multiset{s[0]}
  {
    assert s == [s[0]] + s[1..];
  }

  lemma AscendingTail(s: seq<real>)
    requires Ascending(s) && |s| > 0
    ensures Ascending(s[1..])
  {
    var t := s[1..];
    forall i, j | 0 <= i < j < |t| ensures t[i] <= t[j] {
      assert t[i] == s[i + 1] && t[j] == s[j + 1];
    }
  }

  /** The median choice of readData on the sorted copy: the middle value for an odd
      count, and for an even count the larger of the two middle values. */
  function PickMedian(sorted: seq<real>): real
    requires |sorted| > 0
  {
    var n := |sorted|;
    if n % 2 == 0 then
      (if sorted[n / 2 - 1] > sorted[n / 2] then sorted[n / 2 - 1] else sorted[n / 2])
    else sorted[n / 2]
  }

  /** The median readData subtracts from a lead's values. */
  function Median(v: seq<real>): real
    requires |v| > 0
  {
    PickMedian(Sort(v))
  }

  /** On an ascending sequence the "larger of the two middle values" is always the
      upper middle one, so the median is the element at position n/2 of any
      ascending arrangement of the values. */
  lemma MedianIsUpperMiddle(v: seq<real>, t: seq<real>)
    requires |v| > 0 && Ascending(t) && multiset(t) == multiset(v)
    ensures |t| == |v| && Median(v) == t[|v| / 2]
  {
    SortSorts(v);
    AscendingUnique(Sort(v), t);
  }

  // ---------------------------------------------------------------------------
  // Baseline correction.

  /** A good lead's samples after readData's correction: the median of its values
      subtracted from every value, times and order kept. */
  function Corrected(s: seq<Sample>): seq<Sample>
    requires |s| > 0
  {
    Shift(s, Median(Values(s)))
  }

  lemma AscendingShift(s: seq<real>, m: real)
    requires Ascending(s)
    ensures Ascending(ShiftValues(s, m))
  {
    var t := ShiftValues(s, m);
    forall i, j | 0 <= i < j < |t| ensures t[i] <= t[j] {
      assert s[i] <= s[j];
    }
  }

  lemma ShiftValuesCons(a: real, s: seq<real>, m: real)
    ensures ShiftValues([a] + s, m) == [a - m] + ShiftValues(s, m)
  {
    assert ([a] + s)[1..] == s;
  }

  lemma {:induction false} InsertShift(x: real, s: seq<real>, m: real)
    ensures Insert(x - m, ShiftValues(s, m)) == ShiftValues(Insert(x, s), m)
  {
    var t := ShiftValues(s, m);
    if |s| == 0 {
      assert t == [];
      assert ShiftValues([x], m) == [x - m] by { ShiftValuesCons(x, [], m); }
    } else {
      assert s == [s[0]] + s[1..];
      ShiftValuesCons(s[0], s[1..], m);
      if x <= s[0] {
        ShiftValuesCons(x, s, m);
      } else {
        InsertShift(x, s[1..], m);
        ShiftValuesCons(s[0], Insert(x, s[1..]), m);
      }
    }
  }

  /** Sorting commutes with lowering every value by the same amount. */
  lemma {:induction false} SortShift(v: seq<real>, m: real)
    ensures Sort(ShiftValues(v, m)) == ShiftValues(Sort(v), m)
  {
    if |v| > 0 {
      SortShift(v[1..], m);
      InsertShift(v[0], Sort(v[1..]), m);
    }
  }

  /** After the correction the lead's median is zero ... */
  lemma CorrectedMedianIsZero(s: seq<Sample>)
    requires |s| > 0
    ensures Median(Values(Corrected(s))) == 0.0
  {
    var v, m := Values(s), Median(Values(s));
    assert Values(Corrected(s)) == ShiftValues(v, m);
    SortShift(v, m);
    SortSorts(v);
    MedianIsUpperMiddle(v, Sort(v));
    AscendingShift(Sort(v), m);
    SortSorts(ShiftValues(v, m));
    MedianIsUpperMiddle(ShiftValues(v, m), ShiftValues(Sort(v), m));
  }

  /** ... so correcting a corrected lead changes nothing. */
  lemma CorrectedIdempotent(s: seq<Sample>)
    requires |s| > 0
    ensures Corrected(Corrected(s)) == Corrected(s)
  {
    CorrectedMedianIsZero(s);
  }

  /** The even-count case on four ascending values a <= b <= c <= d: the median is
      c, the larger middle value, and not the average of b and c; so the values
      1, 2, 3, 4 have median 3 and are corrected to -2, -1, 0, 1. */
  lemma EvenCountMedian(a: real, b: real, c: real, d: real)
    requires a <= b <= c <= d
    ensures Median([a, b, c, d]) == c
  {
    var v := [a, b, c, d];
    assert Ascending(v) by {
      forall i, j | 0 <= i < j < 4 ensures v[i] <= v[j] {
        assert v[0] <= v[1] <= v[2] <= v[3];
      }
    }
    MedianIsUpperMiddle(v, v);
  }

  lemma EvenCountExample()
    ensures Values(Corrected([Sample(0.0, 1.0), Sample(1.0, 2.0), Sample(2.0, 3.0), Sample(3.0, 4.0)]))
            == [-2.0, -1.0, 0.0, 1.0]
  {
    var s := [Sample(0.0, 1.0), Sample(1.0, 2.0), Sample(2.0, 3.0), Sample(3.0, 4.0)];
    assert Values(s) == [1.0, 2.0, 3.0, 4.0];
    EvenCountMedian(1.0, 2.0, 3.0, 4.0);
  }
}
