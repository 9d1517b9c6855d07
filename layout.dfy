/** Lead classification and un-interleaving of ECGModel.readData: which layout
    entries are ignored, which slot every column of a raw row lands in, and what
    each lead series holds afterwards. */
module Layout {
  import opened Signals

  /** One entry `{x, y}` of the electrode layout an ECGFile reports. */
  datatype Coord = Coord(x: int, y: int)

  /** The sentinel test of readData: a negative coordinate marks a lead that is
      not an acquisition channel. */
  predicate Ignored(c: Coord) {
    c.x < 0 || c.y < 0
  }

  /** One raw row: the sample time and one value per column. */
  datatype Row = Row(time: real, values: seq<real>)

  /** Every row has a value for each of the first `width` columns. */
  predicate WideEnough(raw: seq<Row>, width: nat) {
    forall r :: 0 <= r < |raw| ==> width <= |raw[r].values|
  }

  /** The columns among the first `n` entries of `l` whose class is `ignored`, in
      ascending order.  `Cols(l, |l|, false)` lists the good columns and
      `Cols(l, |l|, true)` the ignored ones; position k in the list is the slot the
      column fills in `points` or `ignoredLeads`. */
  function Cols(l: seq<Coord>, n: nat, ignored: bool): (r: seq<nat>)
    requires n <= |l|
    ensures forall k :: 0 <= k < |r| ==> r[k] < n && Ignored(l[r[k]]) == ignored
    decreases n
  {
    if n == 0 then []
    else Cols(l, n - 1, ignored) + (if Ignored(l[n - 1]) == ignored then [n - 1] else [])
  }

  /** The slot list is strictly ascending: slots keep the columns' order. */
  lemma {:induction false} ColsAscending(l: seq<Coord>, n: nat, ignored: bool)
    requires n <= |l|
    ensures forall a, b :: 0 <= a < b < |Cols(l, n, ignored)| ==> Cols(l, n, ignored)[a] < Cols(l, n, ignored)[b]
  {
    if n > 0 {
      ColsAscending(l, n - 1, ignored);
    }
  }

  /** No column of the class is missing from the list. */
  lemma {:induction false} ColsComplete(l: seq<Coord>, n: nat, ignored: bool)
    requires n <= |l|
    ensures forall c :: 0 <= c < n && Ignored(l[c]) == ignored ==> c in Cols(l, n, ignored)
  {
    if n > 0 {
      ColsComplete(l, n - 1, ignored);
    }
  }

  function GoodCols(l: seq<Coord>): seq<nat> {
    Cols(l, |l|, false)
  }

  function IgnoredCols(l: seq<Coord>): seq<nat> {
    Cols(l, |l|, true)
  }

  /** Every one of the first n columns is good or ignored, never both. */
  lemma {:induction false} PartitionSizes(l: seq<Coord>, n: nat)
    requires n <= |l|
    ensures |Cols(l, n, false)| + |Cols(l, n, true)| == n
  {
    if n > 0 {
      PartitionSizes(l, n - 1);
      var g, i := Cols(l, n - 1, false), Cols(l, n - 1, true);
      if Ignored(l[n - 1]) {
        assert Cols(l, n, false) == g + [];
        assert Cols(l, n, true) == i + [n - 1];
      } else {
        assert Cols(l, n, false) == g + [n - 1];
        assert Cols(l, n, true) == i + [];
      }
    }
  }

  /** Classifying fewer columns yields a prefix of the slot list. */
  lemma {:induction false} ColsPrefix(l: seq<Coord>, j: nat, n: nat, ignored: bool)
    requires j <= n <= |l|
    ensures |Cols(l, j, ignored)| <= |Cols(l, n, ignored)|
    ensures Cols(l, j, ignored) == Cols(l, n, ignored)[..|Cols(l, j, ignored)|]
    decreases n - j
  {
    if j < n {
      ColsPrefix(l, j, n - 1, ignored);
    }
  }

  /** The slot of column j is the number of columns of its own class before it:
      the slot expressions `j - normoff` (good) and `j - igoff` (ignored) of
      readData, where `normoff` counts the ignored and `igoff` the good columns
      seen so far in the row.  The slot is in range and names column j. */
  lemma SlotOf(l: seq<Coord>, j: nat, ignored: bool)
    requires j < |l| && Ignored(l[j]) == ignored
    ensures j - |Cols(l, j, !ignored)| == |Cols(l, j, ignored)|
    ensures |Cols(l, j, ignored)| < |Cols(l, |l|, ignored)|
    ensures Cols(l, |l|, ignored)[|Cols(l, j, ignored)|] == j
  {
    PartitionSizes(l, j);
    ColsPrefix(l, j + 1, |l|, ignored);
  }

  /** Lead series of column c built from the first n rows, one sample per row. */
  function Column(raw: seq<Row>, c: nat, n: nat): (s: seq<Sample>)
    requires n <= |raw| && WideEnough(raw, c + 1)
    ensures |s| == n
    ensures forall r :: 0 <= r < n ==> s[r] == Sample(raw[r].time, raw[r].values[c])
  {
    if n == 0 then [] else Column(raw, c, n - 1) + [Sample(raw[n - 1].time, raw[n - 1].values[c])]
  }

  /** The number of ignored entries before the first good one: what the
      documentation of getOffset says the offset is. */
  function LeadingIgnored(l: seq<Coord>): (k: nat)
    ensures k <= |l|
    ensures forall i :: 0 <= i < k ==> Ignored(l[i])
    ensures k < |l| ==> !Ignored(l[k])
  {
    if |l| == 0 || !Ignored(l[0]) then 0 else 1 + LeadingIgnored(l[1..])
  }

  /** All ignored entries lead the layout: none follows a good entry. */
  predicate IgnoredLead(l: seq<Coord>) {
    forall i, j :: 0 <= i < j < |l| && Ignored(l[j]) ==> Ignored(l[i])
  }

  /** readData counts every ignored entry into the offset (its `stop` flag is
      never raised); that count is at least the leading run, and equal to it
      exactly when no ignored entry follows a good one. */
  lemma LeadingIgnoredAtMostAll(l: seq<Coord>)
    ensures LeadingIgnored(l) <= |IgnoredCols(l)|
    ensures LeadingIgnored(l) == |IgnoredCols(l)| <==> IgnoredLead(l)
  {
    var k := LeadingIgnored(l);
    LeadingRun(l, k);
    ColsPrefix(l, k, |l|, true);
    if k == |IgnoredCols(l)| {
      AllIgnoredLeading(l);
    } else {
      LaterIgnored(l);
    }
  }

  lemma AllIgnoredLeading(l: seq<Coord>)
    requires LeadingIgnored(l) == |IgnoredCols(l)|
    ensures IgnoredLead(l)
  {
    var k, ign := LeadingIgnored(l), IgnoredCols(l);
    ColsPrefix(l, k, |l|, true);
    LeadingRun(l, k);
    assert ign == Cols(l, k, true) by { assert ign[..k] == ign; }
    ColsComplete(l, |l|, true);
    forall i, j | 0 <= i < j < |l| && Ignored(l[j]) ensures Ignored(l[i]) {
      assert j in ign;
    }
  }

  lemma LaterIgnored(l: seq<Coord>)
    requires LeadingIgnored(l) != |IgnoredCols(l)|
    ensures !IgnoredLead(l)
  {
    var k, ign := LeadingIgnored(l), IgnoredCols(l);
    LeadingRun(l, k);
    ColsPrefix(l, k, |l|, true);
    ColsAtLeastIndex(l, |l|, true);
    var j := ign[k];
    assert k < j && Ignored(l[j]) && !Ignored(l[k]);
  }

  /** The list has at most n entries, and its k-th entry is at least k. */
  lemma {:induction false} ColsAtLeastIndex(l: seq<Coord>, n: nat, ignored: bool)
    requires n <= |l|
    ensures |Cols(l, n, ignored)| <= n
    ensures forall k :: 0 <= k < |Cols(l, n, ignored)| ==> k <= Cols(l, n, ignored)[k]
  {
    if n > 0 {
      ColsAtLeastIndex(l, n - 1, ignored);
    }
  }

  /** The first k entries all ignored: they fill the first k ignored slots. */
  lemma {:induction false} LeadingRun(l: seq<Coord>, k: nat)
    requires k <= |l| && forall i :: 0 <= i < k ==> Ignored(l[i])
    ensures |Cols(l, k, true)| == k
  {
    if k > 0 {
      LeadingRun(l, k - 1);
    }
  }

  /** The layout [ignored, ignored, good, ignored, good]: the leading run is 2,
      readData's offset is 3. */
  lemma OffsetExample()
    ensures var l := [Coord(-1, 0), Coord(0, -1), Coord(1, 1), Coord(-1, -1), Coord(2, 2)];
            LeadingIgnored(l) == 2 && |IgnoredCols(l)| == 3
  {
    var l := [Coord(-1, 0), Coord(0, -1), Coord(1, 1), Coord(-1, -1), Coord(2, 2)];
    assert l[1..][1..] == l[2..];
    PartitionSizes(l, 5);
    assert |Cols(l, 5, false)| == 2;
  }
}
