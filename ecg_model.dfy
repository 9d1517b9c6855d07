/** ECGModel: the in-memory model of a multi-lead recording.  The good leads,
    the ignored leads and the good-lead layout are arrays that readData, clear
    and the copy of clone replace, and that setBad, applyFilter and the baseline
    correction update in place. */
module ECG {
  import opened Filters
  import opened Signals
  import opened Layout

  datatype Option<T> = None | Some(value: T)

  /** An annotation of the whole recording: its type and its time. */
  datatype Annotation = Annotation(kind: int, time: real)

  /** What the ECGFile plug-in chosen for a file name hands to readData: the
      status of `read`, the rows it filled, `getLayout()` and
      `getSampleInterval()`. */
  datatype Recording = Recording(status: int, raw: seq<Row>, layout: seq<Coord>, sampleInterval: real)

  /** The exceptions of the modelled operations. */
  datatype Error =
    | UnsupportedExtension          // readData: IOException("Not a supported file extension")
    | IndexOutOfBounds              // an array index past the end
    | BadParameter(reason: ParamError)

  datatype Outcome = Pass | Fail(error: Error)

  datatype Result<T> = Success(value: T) | Failure(error: Error)

  /** What readData needs of a recording the plug-in read successfully: a value
      in every row for every layout entry, and at least one row unless the
      layout is empty too. */
  predicate Readable(rec: Recording) {
    rec.status != 0 || Rows(rec)
  }

  /** The rows fill every lead of the layout (none is left without samples). */
  predicate Rows(rec: Recording) {
    (|rec.raw| > 0 || |rec.layout| == 0) && WideEnough(rec.raw, |rec.layout|)
  }

  class ECGModel {
    var ignoredLeads: array<DataSet>
    var points: array<DataSet>
    var layout: array<Coord>
    var dataOffset: int
    var actualSize: int
    var sampleFreq: real
    var annotations: set<Annotation>

    /** The structure every operation keeps: two distinct lead arrays, one layout
        entry per good lead, and an offset within the ignored leads. */
    ghost predicate Valid()
      reads this
    {
      points != ignoredLeads && layout.Length == points.Length &&
      0 <= dataOffset <= ignoredLeads.Length
    }

    /** The part of the state `clear` resets. */
    ghost predicate Cleared()
      reads this
    {
      points.Length == 0 && ignoredLeads.Length == 0 && layout.Length == 0 && dataOffset == 0
    }

    /** The state a successful readData of `rec` leaves: the layout is the good
        entries in their order, good lead k is column GoodCols[k] of the rows with
        its median subtracted, ignored lead k is column IgnoredCols[k] as read,
        and the offset counts every ignored entry. */
    ghost predicate Imported(rec: Recording)
      reads this, points, ignoredLeads, layout
    {
      var l, raw := rec.layout, rec.raw;
      Rows(rec) &&
      actualSize == |l| && sampleFreq == rec.sampleInterval && dataOffset == ignoredLeads.Length &&
      LayoutOf(l, layout[..]) &&
      CorrectedLeadsOf(raw, GoodCols(l), points[..]) &&
      LeadsOf(raw, IgnoredCols(l), ignoredLeads[..])
    }

    /** `new ECGModel()`: no leads, 130 as the channel count, no annotations. */
    constructor ()
      ensures Valid() && Cleared()
      ensures actualSize == 130 && sampleFreq == 0.0 && annotations == {}
    {
      ignoredLeads := new DataSet[0];
      points := new DataSet[0];
      layout := new Coord[0];
      dataOffset := 0;
      actualSize := 130;
      sampleFreq := 0.0;
      annotations := {};
    }

    /** `clear`: drops the leads, the layout and the offset, and keeps the channel
        count, the sample interval and the annotations. */
    method Clear()
      modifies this
      ensures Valid() && Cleared()
      ensures fresh(points) && fresh(ignoredLeads) && fresh(layout)
      ensures actualSize == old(actualSize) && sampleFreq == old(sampleFreq)
      ensures annotations == old(annotations)
    {
      ignoredLeads := new DataSet[0];
      points := new DataSet[0];
      layout := new Coord[0];
      dataOffset := 0;
    }

    /** `readData`: `file` is the plug-in getECGFile found for the file name
        (None: the extension is not supported) together with what it read.
        The model is cleared first, so both failures leave it cleared. */
    method ReadData(file: Option<Recording>) returns (r: Outcome)
      requires file.Some? ==> Readable(file.value)
      modifies this
      ensures Valid()
      ensures fresh(points) && fresh(ignoredLeads) && fresh(layout)
      ensures annotations == old(annotations)
      ensures r == (if file.None? then Fail(UnsupportedExtension) else Pass)
      ensures file.None? || file.value.status != 0 ==>
                Cleared() && actualSize == old(actualSize) && sampleFreq == old(sampleFreq)
      ensures file.Some? && file.value.status == 0 ==> Imported(file.value)
    {
      Clear();
      if file.None? {
        return Fail(UnsupportedExtension);
      }
      var rec := file.value;
      if rec.status != 0 {
        return Pass;
      }
      Import(rec);
      r := Pass;
    }

    /** The part of readData after a successful read, on a cleared model. */
    method Import(rec: Recording)
      requires Cleared() && Rows(rec)
      modifies this
      ensures Valid() && Imported(rec)
      ensures fresh(points) && fresh(ignoredLeads) && fresh(layout)
      ensures annotations == old(annotations)
    {
      var lay, igs, pts, ignoredSeen := Build(rec);
      dataOffset := dataOffset + ignoredSeen;
      layout, ignoredLeads, points := lay, igs, pts;
      actualSize := |rec.layout|;
      sampleFreq := rec.sampleInterval;
    }

    /** The arrays readData builds from a successful read: the classification,
        the row loop and the baseline correction, in that order. */
    static method Build(rec: Recording)
      returns (lay: array<Coord>, igs: array<DataSet>, pts: array<DataSet>, ignoredSeen: nat)
      requires Rows(rec)
      ensures fresh(lay) && fresh(igs) && fresh(pts) && pts != igs
      ensures LayoutOf(rec.layout, lay[..])
      ensures CorrectedLeadsOf(rec.raw, GoodCols(rec.layout), pts[..])
      ensures LeadsOf(rec.raw, IgnoredCols(rec.layout), igs[..])
      ensures ignoredSeen == igs.Length
    {
      var tempLayout := rec.layout;
      var found, numGoodLeads, numIgnoreLeads;
      found, numGoodLeads, numIgnoreLeads, ignoredSeen := Classify(tempLayout);
      lay := new Coord[|found|](i requires 0 <= i < |found| => found[i]);
      assert LayoutOf(tempLayout, lay[..]);
      igs := new DataSet[numIgnoreLeads];
      pts := new DataSet[numGoodLeads];
      Unweave(rec.raw, tempLayout, pts, igs);
      ghost var columns := pts[..];
      CorrectBaselines(pts);
      assert CorrectedLeadsOf(rec.raw, GoodCols(tempLayout), pts[..]) by {
        assert forall k :: 0 <= k < pts.Length ==> pts[k] == columns[k].(samples := Corrected(columns[k].samples));
      }
    }

    /** The classification loop of readData: counts the good and the ignored
        entries, keeps the good ones in order, and counts the offset.  The `stop`
        flag is never raised, so the offset grows with every ignored entry. */
    static method Classify(tempLayout: seq<Coord>)
      returns (found: seq<Coord>, numGoodLeads: nat, numIgnoreLeads: nat, offset: nat)
      ensures numGoodLeads == |GoodCols(tempLayout)| && numIgnoreLeads == |IgnoredCols(tempLayout)|
      ensures numGoodLeads + numIgnoreLeads == |tempLayout|
      ensures |found| == numGoodLeads
      ensures forall k :: 0 <= k < |found| ==> found[k] == tempLayout[GoodCols(tempLayout)[k]]
      ensures offset == numIgnoreLeads
    {
      found, numGoodLeads, numIgnoreLeads, offset := [], 0, 0, 0;
      var stop := false;
      ghost var good: seq<nat>, ign: seq<nat> := [], [];
      for i := 0 to |tempLayout|
        invariant good == Cols(tempLayout, i, false) && ign == Cols(tempLayout, i, true)
        invariant numGoodLeads == |good| && numIgnoreLeads == |ign|
        invariant |found| == numGoodLeads
        invariant forall k :: 0 <= k < |found| ==> found[k] == tempLayout[good[k]]
        invariant !stop && offset == numIgnoreLeads
      {
        if Ignored(tempLayout[i]) {
          numIgnoreLeads := numIgnoreLeads + 1;
          ign := ign + [i];
          if !stop {
            offset := offset + 1;
          }
          continue;
        }
        numGoodLeads := numGoodLeads + 1;
        found := found + [tempLayout[i]];
        good := good + [i];
      }
      PartitionSizes(tempLayout, |tempLayout|);
    }

    /** The row loop of readData: every column of every row is appended to the
        lead of its class.  A lead is created on the first row. */
    static method Unweave(raw: seq<Row>, tempLayout: seq<Coord>, pts: array<DataSet>, igs: array<DataSet>)
      requires (|raw| > 0 || |tempLayout| == 0) && WideEnough(raw, |tempLayout|)
      requires pts.Length == |GoodCols(tempLayout)| && igs.Length == |IgnoredCols(tempLayout)|
      requires pts != igs
      modifies pts, igs
      ensures LeadsOf(raw, GoodCols(tempLayout), pts[..])
      ensures LeadsOf(raw, IgnoredCols(tempLayout), igs[..])
    {
      for i := 0 to |raw|
        invariant i > 0 ==> Filled(raw, i, GoodCols(tempLayout), pts[..], 0, pts.Length)
        invariant i > 0 ==> Filled(raw, i, IgnoredCols(tempLayout), igs[..], 0, igs.Length)
      {
        UnweaveRow(raw, i, tempLayout, pts, igs);
      }
    }

    /** One pass of the row loop: column j of row i goes to the slot given by the
        number of columns of the other class seen so far in the row (`igoff`
        counts the good columns, `normoff` the ignored ones), so every lead gains
        exactly its own column's sample. */
    static method UnweaveRow(raw: seq<Row>, i: nat, tempLayout: seq<Coord>, pts: array<DataSet>, igs: array<DataSet>)
      requires i < |raw| && WideEnough(raw, |tempLayout|)
      requires pts.Length == |GoodCols(tempLayout)| && igs.Length == |IgnoredCols(tempLayout)|
      requires pts != igs
      requires i > 0 ==> Filled(raw, i, GoodCols(tempLayout), pts[..], 0, pts.Length)
      requires i > 0 ==> Filled(raw, i, IgnoredCols(tempLayout), igs[..], 0, igs.Length)
      modifies pts, igs
      ensures Filled(raw, i + 1, GoodCols(tempLayout), pts[..], 0, pts.Length)
      ensures Filled(raw, i + 1, IgnoredCols(tempLayout), igs[..], 0, igs.Length)
    {
      var igoff, normoff := 0, 0;
      for j := 0 to |tempLayout|
        invariant igoff == |Cols(tempLayout, j, false)| && normoff == |Cols(tempLayout, j, true)|
        invariant RowFilled(raw, i, GoodCols(tempLayout), pts[..], igoff)
        invariant RowFilled(raw, i, IgnoredCols(tempLayout), igs[..], normoff)
      {
        igoff, normoff := UnweaveColumn(raw, i, tempLayout, j, igoff, normoff, pts, igs);
      }
    }

    /** Column j of row i in the row loop: an ignored column goes to slot
        `j - igoff` of the ignored leads and bumps `normoff`; a good column goes
        to slot `j - normoff` of the good leads and bumps `igoff`. */
    static method UnweaveColumn(raw: seq<Row>, i: nat, tempLayout: seq<Coord>, j: nat, igoff: nat, normoff: nat,
                                pts: array<DataSet>, igs: array<DataSet>)
      returns (nextIgoff: nat, nextNormoff: nat)
      requires i < |raw| && j < |tempLayout| && WideEnough(raw, |tempLayout|)
      requires pts.Length == |GoodCols(tempLayout)| && igs.Length == |IgnoredCols(tempLayout)|
      requires pts != igs
      requires igoff == |Cols(tempLayout, j, false)| && normoff == |Cols(tempLayout, j, true)|
      requires RowFilled(raw, i, GoodCols(tempLayout), pts[..], igoff)
      requires RowFilled(raw, i, IgnoredCols(tempLayout), igs[..], normoff)
      modifies pts, igs
      ensures nextIgoff == |Cols(tempLayout, j + 1, false)| && nextNormoff == |Cols(tempLayout, j + 1, true)|
      ensures RowFilled(raw, i, GoodCols(tempLayout), pts[..], nextIgoff)
      ensures RowFilled(raw, i, IgnoredCols(tempLayout), igs[..], nextNormoff)
    {
      assert WideEnough(raw, j + 1);
      nextIgoff, nextNormoff := igoff, normoff;
      if Ignored(tempLayout[j]) {
        SlotOf(tempLayout, j, true);
        nextNormoff := normoff + 1;
        ghost var unchangedLeads := pts[..];
        Store(igs, j - igoff, j, raw, i, IgnoredCols(tempLayout));
        assert pts[..] == unchangedLeads;
      } else {
        SlotOf(tempLayout, j, false);
        nextIgoff := igoff + 1;
        ghost var unchangedLeads := igs[..];
        Store(pts, j - normoff, j, raw, i, GoodCols(tempLayout));
        assert igs[..] == unchangedLeads;
      }
    }

    /** The body of both branches of the row loop: on the first row the slot gets
        a new lead, then row i's value of column c is appended to it. */
    static method Store(a: array<DataSet>, slot: nat, c: nat, raw: seq<Row>, i: nat, ghost cols: seq<nat>)
      requires i < |raw| && slot < a.Length == |cols| && c == cols[slot] && WideEnough(raw, c + 1)
      requires RowFilled(raw, i, cols, a[..], slot)
      modifies a
      ensures RowFilled(raw, i, cols, a[..], slot + 1)
      ensures forall k :: 0 <= k < a.Length && k != slot ==> a[k] == old(a[k])
    {
      ghost var before := a[..];
      if i == 0 {
        a[slot] := EmptyDataSet;
      }
      a[slot] := AddTuple(a[slot], raw[i].time, raw[i].values[c]);
      FillSlot(raw, i, cols, before, slot, a[slot]);
      assert a[..] == before[slot := a[slot]];
    }

    /** The baseline loop of readData: for each good lead, copy its values, sort
        the copy, pick the median (for an even count the larger middle value) and
        subtract it from every value in place. */
    static method CorrectBaselines(pts: array<DataSet>)
      requires forall k :: 0 <= k < pts.Length ==> |pts[k].samples| > 0
      modifies pts
      ensures forall k :: 0 <= k < pts.Length ==>
                pts[k] == old(pts[k]).(samples := Corrected(old(pts[k].samples)))
    {
      for i := 0 to pts.Length
        invariant forall k :: 0 <= k < i ==> pts[k] == old(pts[k]).(samples := Corrected(old(pts[k].samples)))
        invariant forall k :: i <= k < pts.Length ==> pts[k] == old(pts[k])
      {
        ghost var before := pts[..];
        var lead := pts[i];
        var values: seq<real> := [];
        for j := 0 to |lead.samples|
          invariant |values| == j && forall m :: 0 <= m < j ==> values[m] == lead.samples[m].value
        {
          values := values + [lead.samples[j].value];
        }
        assert values == Values(lead.samples);

        var median := PickMedian(Sort(values));

        for j := 0 to |lead.samples|
          invariant pts[i].bad == lead.bad && pts[i].applied == lead.applied
          invariant |pts[i].samples| == |lead.samples|
          invariant forall m :: 0 <= m < j ==>
                      pts[i].samples[m] == Sample(lead.samples[m].time, lead.samples[m].value - median)
          invariant forall m :: j <= m < |lead.samples| ==> pts[i].samples[m] == lead.samples[m]
          invariant forall k :: 0 <= k < pts.Length && k != i ==> pts[k] == before[k]
        {
          var s := pts[i].samples[j];
          pts[i] := pts[i].(samples := pts[i].samples[j := Sample(s.time, s.value - median)]);
        }
        assert pts[i].samples == Corrected(lead.samples);
      }
    }

    /** `clone`: a copy in fresh arrays of the leads, the layout and the
        annotations, with the same channel count and sample interval.  The offset
        is not copied (the copy keeps its constructor's 0), and because the copy
        of the layout reads `layout[0]`, a model without good leads cannot be
        cloned. */
    method Clone() returns (r: Result<ECGModel>)
      ensures r.Failure? <==> layout.Length == 0
      ensures r.Failure? ==> r.error == IndexOutOfBounds
      ensures r.Success? ==> (fresh(r.value) && fresh(r.value.points) &&
                              fresh(r.value.ignoredLeads) && fresh(r.value.layout))
      ensures r.Success? ==>
                r.value.points[..] == points[..] && r.value.ignoredLeads[..] == ignoredLeads[..] &&
                r.value.layout[..] == layout[..] && r.value.annotations == annotations &&
                r.value.actualSize == actualSize && r.value.sampleFreq == sampleFreq &&
                r.value.dataOffset == 0
      ensures r.Success? && Valid() ==> r.value.Valid()
    {
      var copy := new ECGModel();
      if layout.Length == 0 {
        return Failure(IndexOutOfBounds);
      }
      var igs := CopyArray(ignoredLeads);
      var pts := CopyArray(points);
      var lay := CopyArray(layout);
      copy.actualSize, copy.sampleFreq := actualSize, sampleFreq;
      copy.ignoredLeads, copy.points, copy.layout := igs, pts, lay;
      copy.annotations := annotations;
      r := Success(copy);
    }

    /** An element-by-element copy into a new array (the copy loops of clone and
        its `System.arraycopy`). */
    static method CopyArray<T(0)>(a: array<T>) returns (b: array<T>)
      ensures fresh(b) && b[..] == a[..]
    {
      b := new T[a.Length];
      for i := 0 to a.Length
        invariant b[..i] == a[..i]
      {
        b[i] := a[i];
      }
    }

    /** `isBad(i)`. */
    function IsBad(i: int): bool
      reads this, points
      requires 0 <= i < points.Length
    {
      points[i].bad
    }

    /** `setBad(i, isBad)`: only lead i's flag changes. */
    method SetBad(i: int, isBad: bool)
      requires 0 <= i < points.Length
      modifies points
      ensures IsBad(i) == isBad
      ensures points[i] == old(points[i]).(bad := isBad)
      ensures forall k :: 0 <= k < points.Length && k != i ==> points[k] == old(points[k])
    {
      points[i] := points[i].(bad := isBad);
    }

    /** `applyFilter(index, filterNum, params)`: filter numbers outside 0..7 return
        without touching anything, even for an index out of range; a known number
        looks up the lead first (an index out of range throws), then unboxes the
        parameters, then runs the kernel on that one lead.  Kind 7 also receives
        the model's sample frequency. */
    method ApplyFilter(index: int, filterNum: int, params: seq<Number>,
                       kernel: (Filter, seq<Sample>) -> seq<Sample>) returns (r: Outcome)
      modifies points
      ensures var s := Select(filterNum, params, sampleFreq);
              if s.NoOp? then r == Pass && unchanged(points)
              else if !(0 <= index < points.Length) then r == Fail(IndexOutOfBounds) && unchanged(points)
              else if s.Invalid? then r == Fail(BadParameter(s.reason)) && unchanged(points)
              else r == Pass &&
                   points[index] == ApplyKernel(old(points[index]), s.filter, kernel) &&
                   forall k :: 0 <= k < points.Length && k != index ==> points[k] == old(points[k])
    {
      var s := Select(filterNum, params, sampleFreq);
      if s.NoOp? {
        return Pass;
      }
      if !(0 <= index < points.Length) {
        return Fail(IndexOutOfBounds);
      }
      if s.Invalid? {
        return Fail(BadParameter(s.reason));
      }
      points[index] := ApplyKernel(points[index], s.filter, kernel);
      r := Pass;
    }

    /** The lines `writeBadLeads` prints: the number i + 4 of every lead i flagged
        bad, ascending. */
    method WriteBadLeads() returns (lines: seq<int>)
      ensures forall x :: x in lines <==> exists i :: 0 <= i < points.Length && points[i].bad && x == i + 4
      ensures forall a, b :: 0 <= a < b < |lines| ==> lines[a] < lines[b]
    {
      lines := [];
      for i := 0 to points.Length
        invariant forall x :: x in lines <==> exists k :: 0 <= k < i && points[k].bad && x == k + 4
        invariant forall a, b :: 0 <= a < b < |lines| ==> lines[a] < lines[b]
        invariant forall a :: 0 <= a < |lines| ==> lines[a] < i + 4
      {
        if points[i].bad {
          lines := lines + [i + 4];
        }
      }
    }

    /** `toArray`: `[lead][0: times, 1: values][sample]`, every lead cut to lead 0's
        length.  It throws when there is no lead, or when a lead is shorter than
        lead 0. */
    method ToArray() returns (r: Result<seq<seq<seq<real>>>>)
      ensures r.Failure? <==>
                points.Length == 0 ||
                exists i :: 0 <= i < points.Length && |points[i].samples| < |points[0].samples|
      ensures r.Failure? ==> r.error == IndexOutOfBounds
      ensures r.Success? ==>
                |r.value| == points.Length &&
                forall i :: 0 <= i < points.Length ==>
                  r.value[i] == [Times(points[i].samples[..|points[0].samples|]),
                                 Values(points[i].samples[..|points[0].samples|])]
    {
      if points.Length == 0 {
        return Failure(IndexOutOfBounds);
      }
      var n := |points[0].samples|;
      var arr: seq<seq<seq<real>>> := [];
      for i := 0 to points.Length
        invariant |arr| == i
        invariant forall k :: 0 <= k < i ==> n <= |points[k].samples|
        invariant forall k :: 0 <= k < i ==> arr[k] == [Times(points[k].samples[..n]), Values(points[k].samples[..n])]
      {
        var times: seq<real> := [];
        var values: seq<real> := [];
        for j := 0 to n
          invariant |times| == j && |values| == j && j <= |points[i].samples|
          invariant forall m :: 0 <= m < j ==>
                      times[m] == points[i].samples[m].time && values[m] == points[i].samples[m].value
        {
          if j >= |points[i].samples| {
            return Failure(IndexOutOfBounds);
          }
          times := times + [points[i].samples[j].time];
          values := values + [points[i].samples[j].value];
        }
        assert times == Times(points[i].samples[..n]);
        assert values == Values(points[i].samples[..n]);
        arr := arr + [[times, values]];
      }
      r := Success(arr);
    }

    /** `getAnnotations`: every annotation once, in the set's (unspecified) order. */
    method GetAnnotations() returns (list: seq<Annotation>)
      ensures forall a :: a in list <==> a in annotations
      ensures forall a, b :: 0 <= a < b < |list| ==> list[a] != list[b]
    {
      list := [];
      var rest := annotations;
      while rest != {}
        invariant rest <= annotations
        invariant forall a :: a in list <==> a in annotations && a !in rest
        invariant forall a, b :: 0 <= a < b < |list| ==> list[a] != list[b]
        decreases |rest|
      {
        var a :| a in rest;
        list := list + [a];
        rest := rest - {a};
      }
    }

    /** `addAnnotation(type, time)`. */
    method AddAnnotation(kind: int, time: real)
      modifies this`annotations
      ensures annotations == old(annotations) + {Annotation(kind, time)}
    {
      annotations := annotations + {Annotation(kind, time)};
    }

    /** `setAnnotations(annos)`: the set of the listed annotations. */
    method SetAnnotations(annos: seq<Annotation>)
      modifies this`annotations
      ensures forall a :: a in annotations <==> a in annos
    {
      annotations := set a | a in annos;
    }

    /** `clearAnnotations`. */
    method ClearAnnotations()
      modifies this`annotations
      ensures annotations == {}
    {
      annotations := {};
    }
  }

  /** The good entries of layout `l` in their order. */
  ghost predicate LayoutOf(l: seq<Coord>, lay: seq<Coord>) {
    |lay| == |GoodCols(l)| && forall k :: 0 <= k < |lay| ==> lay[k] == l[GoodCols(l)[k]]
  }

  /** Lead k holds column cols[k] of every row, as read. */
  ghost predicate LeadsOf(raw: seq<Row>, cols: seq<nat>, leads: seq<DataSet>) {
    Filled(raw, |raw|, cols, leads, 0, |leads|)
  }

  /** Lead k holds column cols[k] of every row with the column's median
      subtracted. */
  ghost predicate CorrectedLeadsOf(raw: seq<Row>, cols: seq<nat>, leads: seq<DataSet>) {
    |leads| == |cols| && (|raw| > 0 || |cols| == 0) &&
    forall k :: 0 <= k < |cols| ==>
      WideEnough(raw, cols[k] + 1) && leads[k] == DataSet(Corrected(Column(raw, cols[k], |raw|)), false, [])
  }

  /** Slots lo..hi of `a` hold the leads of the columns `cols` lists, each built
      from the first n rows. */
  ghost predicate Filled(raw: seq<Row>, n: nat, cols: seq<nat>, a: seq<DataSet>, lo: int, hi: int) {
    n <= |raw| && |a| == |cols| && 0 <= lo <= hi <= |a| &&
    forall k {:trigger a[k]} :: lo <= k < hi ==>
      WideEnough(raw, cols[k] + 1) && a[k] == DataSet(Column(raw, cols[k], n), false, [])
  }

  /** Midway through row i: the slots before `upto` already hold row i, the
      others (from the second row on) still hold the rows before it. */
  ghost predicate RowFilled(raw: seq<Row>, i: nat, cols: seq<nat>, a: seq<DataSet>, upto: int) {
    Filled(raw, i + 1, cols, a, 0, upto) && (i > 0 ==> Filled(raw, i, cols, a, upto, |a|))
  }

  /** Filling the next slot during row i: the slot's lead gains row i's value of
      its own column, and the filled prefix grows by one. */
  lemma FillSlot(raw: seq<Row>, i: nat, cols: seq<nat>, a: seq<DataSet>, slot: nat, d: DataSet)
    requires i < |raw| && slot < |a| == |cols| && WideEnough(raw, cols[slot] + 1)
    requires RowFilled(raw, i, cols, a, slot)
    requires d == AddTuple(if i == 0 then EmptyDataSet else a[slot], raw[i].time, raw[i].values[cols[slot]])
    ensures RowFilled(raw, i, cols, a[slot := d], slot + 1)
  {
    NextSample(raw, cols[slot], i);
    if i > 0 {
      assert a[slot] == DataSet(Column(raw, cols[slot], i), false, []);
    }
    var b := a[slot := d];
    assert b[slot] == DataSet(Column(raw, cols[slot], i + 1), false, []);
    forall k | 0 <= k < slot
      ensures WideEnough(raw, cols[k] + 1) && b[k] == DataSet(Column(raw, cols[k], i + 1), false, [])
    {
      assert b[k] == a[k];
    }
    if i > 0 {
      forall k | slot < k < |a|
        ensures WideEnough(raw, cols[k] + 1) && b[k] == DataSet(Column(raw, cols[k], i), false, [])
      {
        assert b[k] == a[k];
      }
    }
  }

  /** Appending row i's value of column c extends the column by one row. */
  lemma NextSample(raw: seq<Row>, c: nat, i: nat)
    requires i < |raw| && WideEnough(raw, c + 1)
    ensures AddTuple(DataSet(Column(raw, c, i), false, []), raw[i].time, raw[i].values[c])
            == DataSet(Column(raw, c, i + 1), false, [])
    ensures i == 0 ==> EmptyDataSet == DataSet(Column(raw, c, i), false, [])
  {
  }

  /** After an import the lead arrays partition the channels, and every lead,
      good or ignored, has one sample per raw row. */
  lemma ImportShape(m: ECGModel, rec: Recording)
    requires m.Imported(rec)
    ensures m.points.Length + m.ignoredLeads.Length == m.actualSize
    ensures m.layout.Length == m.points.Length
    ensures forall k :: 0 <= k < m.points.Length ==> |m.points[k].samples| == |rec.raw|
    ensures forall k :: 0 <= k < m.ignoredLeads.Length ==> |m.ignoredLeads[k].samples| == |rec.raw|
  {
    PartitionSizes(rec.layout, |rec.layout|);
    forall k | 0 <= k < m.ignoredLeads.Length
      ensures |m.ignoredLeads[k].samples| == |rec.raw|
    {
      assert m.ignoredLeads[..][k] == m.ignoredLeads[k];
    }
  }

  /** After an import sample r of good lead k is row r's time with row r's value
      in the lead's column minus the lead's median, and the median of every good
      lead is zero. */
  lemma ImportedSamples(m: ECGModel, rec: Recording, k: int, r: int)
    requires m.Imported(rec) && 0 <= k < m.points.Length && 0 <= r < |rec.raw|
    ensures var c := GoodCols(rec.layout)[k];
            var col := Column(rec.raw, c, |rec.raw|);
            m.points[k].samples[r] == Sample(rec.raw[r].time, rec.raw[r].values[c] - Median(Values(col))) &&
            Median(Values(m.points[k].samples)) == 0.0
  {
    var c := GoodCols(rec.layout)[k];
    CorrectedMedianIsZero(Column(rec.raw, c, |rec.raw|));
  }

  /** Clones do not share storage: flagging a lead of the copy leaves the
      original as it was. */
  method CloneThenFlag(m: ECGModel, i: int, isBad: bool) returns (copy: ECGModel)
    requires m.Valid() && 0 <= i < m.points.Length
    ensures fresh(copy) && copy.points.Length == m.points.Length && copy.IsBad(i) == isBad
    ensures m.points[..] == old(m.points[..]) && m.ignoredLeads[..] == old(m.ignoredLeads[..])
  {
    var r := m.Clone();
    copy := r.value;
    copy.SetBad(i, isBad);
  }
}
