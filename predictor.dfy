/**
 * The rule-based parts of the heatmap predictor: ranking the hot zones of the recent records,
 * the prediction confidence, the lag and moving-average features, collecting predictions for
 * several intervals, and the data gate in front of training. The regression model itself is not
 * modelled: its predictions and its training outcome are inputs.
 */
module Predictor {
  import opened Wrappers
  import opened PyOps
  import Sorting
  import Settings
  import Arith

  /** A hexagon's centre: latitude and longitude. */
  type Position = (real, real)

  /** A grid cell: a position rounded to two decimals, the key zones are counted under. */
  type Cell = (real, real)

  /** A stored hexagon; `geoCenter` is `None` when the record has no, or an empty, `geo_center`. */
  datatype StoredHexagon = StoredHexagon(geoCenter: Option<Position>)

  /** A stored heatmap record: its hexagons and its `hexagon_count`. */
  datatype StoredRecord = StoredRecord(hexagons: seq<StoredHexagon>, hexagonCount: int)

  /** The cells of the hexagons that have a centre, in order; `bucket` is the rounding to the grid. */
  function CellsOf(hexagons: seq<StoredHexagon>, bucket: Position -> Cell): (cells: seq<Cell>)
    ensures |cells| <= |hexagons|
    decreases |hexagons|
  {
    if hexagons == [] then []
    else
      var last := hexagons[|hexagons| - 1];
      CellsOf(hexagons[..|hexagons| - 1], bucket) + (if last.geoCenter.Some? then [bucket(last.geoCenter.value)] else [])
  }

  /** The cells of all records, record by record. */
  function AllCells(records: seq<StoredRecord>, bucket: Position -> Cell): seq<Cell>
    decreases |records|
  {
    if records == [] then []
    else AllCells(records[..|records| - 1], bucket) + CellsOf(records[|records| - 1].hexagons, bucket)
  }

  /** `zone_frequency`: a dict keeps its keys in the order they were first inserted. */
  datatype Tally = Tally(order: seq<Cell>, counts: map<Cell, nat>)

  /** `zone_frequency.get(key, 0)` */
  function Get(counts: map<Cell, nat>, key: Cell): nat {
    if key in counts then counts[key] else 0
  }

  /** `zone_frequency[key] = zone_frequency.get(key, 0) + 1` */
  function Bump(t: Tally, key: Cell): Tally {
    Tally(if key in t.counts then t.order else t.order + [key], t.counts[key := Get(t.counts, key) + 1])
  }

  /** The tally after counting `cells` one by one. */
  function Count(cells: seq<Cell>): Tally
    decreases |cells|
  {
    if cells == [] then Tally([], map[]) else Bump(Count(cells[..|cells| - 1]), cells[|cells| - 1])
  }

  predicate Distinct<T(==)>(s: seq<T>) {
    forall i, j :: 0 <= i < j < |s| ==> s[i] != s[j]
  }

  /** Keys in first-seen order, each once, and a count per key. */
  ghost predicate WellFormed(t: Tally) {
    Distinct(t.order) && forall k :: k in t.order <==> k in t.counts
  }

  lemma CountSnoc(cells: seq<Cell>, c: Cell)
    ensures Count(cells + [c]) == Bump(Count(cells), c)
  {
    assert (cells + [c])[..|cells|] == cells;
  }

  /** Each cell seen adds exactly one to its own count; the keys are the cells seen, each once. */
  lemma {:induction false} CountIsOccurrences(cells: seq<Cell>)
    ensures WellFormed(Count(cells))
    ensures forall k :: k in Count(cells).counts <==> k in cells
    ensures forall k :: Get(Count(cells).counts, k) == multiset(cells)[k]
    decreases |cells|
  {
    if cells != [] {
      var init, c := cells[..|cells| - 1], cells[|cells| - 1];
      assert cells == init + [c];
      CountIsOccurrences(init);
      var t := Count(init);
      assert Count(cells) == Bump(t, c);
      if c !in t.counts {
        forall i, j | 0 <= i < j < |t.order + [c]| ensures (t.order + [c])[i] != (t.order + [c])[j] {
          if j == |t.order| {
            assert (t.order + [c])[i] == t.order[i];
            assert t.order[i] in t.counts;
          }
        }
      }
      forall k ensures Get(Count(cells).counts, k) == multiset(cells)[k] {
        assert multiset(cells) == multiset(init) + multiset{c};
      }
    }
  }

  /** The sum of the counts of the keys in `order`. */
  function SumCounts(order: seq<Cell>, counts: map<Cell, nat>): nat
    decreases |order|
  {
    if order == [] then 0 else SumCounts(order[..|order| - 1], counts) + Get(counts, order[|order| - 1])
  }

  /** A count of a key not in `order` does not enter the sum. */
  lemma {:induction false} SumCountsFrame(order: seq<Cell>, counts: map<Cell, nat>, key: Cell, v: nat)
    requires key !in order
    ensures SumCounts(order, counts[key := v]) == SumCounts(order, counts)
    decreases |order|
  {
    if order != [] {
      assert order[|order| - 1] != key;
      SumCountsFrame(order[..|order| - 1], counts, key, v);
    }
  }

  /** A key that `order` holds once adds its increment to the sum once. */
  lemma {:induction false} SumCountsBump(order: seq<Cell>, counts: map<Cell, nat>, key: Cell)
    requires Distinct(order) && key in order
    ensures SumCounts(order, counts[key := Get(counts, key) + 1]) == SumCounts(order, counts) + 1
    decreases |order|
  {
    var init, last := order[..|order| - 1], order[|order| - 1];
    assert forall i :: 0 <= i < |init| ==> init[i] == order[i];
    if last == key {
      assert key !in init;
      SumCountsFrame(init, counts, key, Get(counts, key) + 1);
    } else {
      SumCountsBump(init, counts, key);
    }
  }

  /** The counts add up to the number of hexagons with a centre. */
  lemma {:induction false} CountTotal(cells: seq<Cell>)
    ensures SumCounts(Count(cells).order, Count(cells).counts) == |cells|
    decreases |cells|
  {
    if cells != [] {
      var init, c := cells[..|cells| - 1], cells[|cells| - 1];
      CountTotal(init);
      CountIsOccurrences(init);
      var t := Count(init);
      if c in t.counts {
        SumCountsBump(t.order, t.counts, c);
      } else {
        SumCountsFrame(t.order, t.counts, c, 1);
      }
    }
  }

  /** `zone_frequency.items()`: each key with its count, in dict order. */
  function Items(t: Tally): (items: seq<(Cell, nat)>)
    ensures |items| == |t.order|
    ensures forall i :: 0 <= i < |items| ==> items[i] == (t.order[i], Get(t.counts, t.order[i]))
  {
    seq(|t.order|, i requires 0 <= i < |t.order| => (t.order[i], Get(t.counts, t.order[i])))
  }

  /** The sort key `lambda x: x[1]`. */
  function Frequency(item: (Cell, nat)): real {
    item.1 as real
  }

  /** `sorted(zone_frequency.items(), key=lambda x: x[1], reverse=True)` */
  function Ranked(records: seq<StoredRecord>, bucket: Position -> Cell): seq<(Cell, nat)> {
    Sorting.SortDesc(Items(Count(AllCells(records, bucket))), Frequency)
  }

  /** A predicted zone: its cell, its intensity and its confidence. */
  datatype Zone = Zone(center: Cell, predictedIntensity: real, confidence: real)

  /** The zone made from the `i`-th ranked cell. */
  function ZoneAt(item: (Cell, nat), i: nat): Zone {
    Zone(item.0, MinReal(1.0, item.1 as real / 10.0), 0.8 - i as real * 0.1)
  }

  /** `_generate_predicted_zones`: a zone for each of the first `int(predicted_count)` ranked cells. */
  function PredictedZones(records: seq<StoredRecord>, bucket: Position -> Cell, predictedCount: real): seq<Zone> {
    ZonesOf(Take(Ranked(records, bucket), Trunc(predictedCount)))
  }

  /** The zones of the kept cells, numbered from 0. */
  function ZonesOf(top: seq<(Cell, nat)>): (zones: seq<Zone>)
    ensures |zones| == |top|
    ensures forall i :: 0 <= i < |top| ==> zones[i] == ZoneAt(top[i], i)
  {
    seq(|top|, i requires 0 <= i < |top| => ZoneAt(top[i], i))
  }

  lemma CellsOfSnoc(hexagons: seq<StoredHexagon>, j: nat, bucket: Position -> Cell)
    requires j < |hexagons|
    ensures CellsOf(hexagons[..j + 1], bucket)
            == CellsOf(hexagons[..j], bucket)
               + (if hexagons[j].geoCenter.Some? then [bucket(hexagons[j].geoCenter.value)] else [])
  {
    assert hexagons[..j + 1][..j] == hexagons[..j];
  }

  lemma AllCellsSnoc(records: seq<StoredRecord>, r: nat, bucket: Position -> Cell)
    requires r < |records|
    ensures AllCells(records[..r + 1], bucket) == AllCells(records[..r], bucket) + CellsOf(records[r].hexagons, bucket)
  {
    assert records[..r + 1][..r] == records[..r];
  }

  /** Counting one more hexagon bumps its cell, if it has a centre. */
  lemma CountStep(before: seq<Cell>, hexagons: seq<StoredHexagon>, j: nat, bucket: Position -> Cell)
    requires j < |hexagons|
    ensures var t := Count(before + CellsOf(hexagons[..j], bucket));
            var h := hexagons[j];
            Count(before + CellsOf(hexagons[..j + 1], bucket))
            == if h.geoCenter.Some? then Bump(t, bucket(h.geoCenter.value)) else t
  {
    var seen := before + CellsOf(hexagons[..j], bucket);
    CellsOfSnoc(hexagons, j, bucket);
    var h := hexagons[j];
    if h.geoCenter.Some? {
      var key := bucket(h.geoCenter.value);
      assert before + CellsOf(hexagons[..j + 1], bucket) == seen + [key];
      CountSnoc(seen, key);
    } else {
      assert before + CellsOf(hexagons[..j + 1], bucket) == seen;
    }
  }

  /** The inner loop over one record's hexagons. */
  method CountHexagons(t0: Tally, ghost before: seq<Cell>, hexagons: seq<StoredHexagon>, bucket: Position -> Cell)
    returns (t: Tally)
    requires t0 == Count(before)
    ensures t == Count(before + CellsOf(hexagons, bucket))
  {
    t := t0;
    assert before + CellsOf(hexagons[..0], bucket) == before;
    for j := 0 to |hexagons|
      invariant t == Count(before + CellsOf(hexagons[..j], bucket))
    {
      var hexagon := hexagons[j];
      CountStep(before, hexagons, j, bucket);
      if hexagon.geoCenter.Some? {
        var key := bucket(hexagon.geoCenter.value);
        t := Bump(t, key);
      }
    }
    assert hexagons[..|hexagons|] == hexagons;
  }

  /** The outer loop of `_generate_predicted_zones`: every record's hexagons counted into `zone_frequency`. */
  method CountRecords(records: seq<StoredRecord>, bucket: Position -> Cell) returns (t: Tally)
    ensures t == Count(AllCells(records, bucket))
  {
    t := Tally([], map[]);
    for r := 0 to |records|
      invariant t == Count(AllCells(records[..r], bucket))
    {
      t := CountHexagons(t, AllCells(records[..r], bucket), records[r].hexagons, bucket);
      AllCellsSnoc(records, r, bucket);
    }
    assert records[..|records|] == records;
  }

  /** The loop that turns the kept cells into zones. */
  method NumberZones(top: seq<(Cell, nat)>) returns (zones: seq<Zone>)
    ensures zones == ZonesOf(top)
  {
    zones := [];
    for i := 0 to |top|
      invariant |zones| == i
      invariant forall k :: 0 <= k < i ==> zones[k] == ZoneAt(top[k], k)
    {
      var (key, frequency) := top[i];
      zones := zones + [Zone(key, MinReal(1.0, frequency as real / 10.0), 0.8 - i as real * 0.1)];
    }
  }

  /** `_generate_predicted_zones` step by step: count per cell, rank, keep the first cells, number the zones. */
  method GeneratePredictedZones(records: seq<StoredRecord>, bucket: Position -> Cell, predictedCount: real)
    returns (zones: seq<Zone>)
    ensures zones == PredictedZones(records, bucket, predictedCount)
  {
    var t := CountRecords(records, bucket);
    var sorted := Sorting.SortDesc(Items(t), Frequency);
    var top := Take(sorted, Trunc(predictedCount));
    zones := NumberZones(top);
  }

  /** A multiset holds an element of a sequence free of repeats once. */
  lemma {:induction false} DistinctOnce<T>(s: seq<T>, x: T)
    requires Distinct(s)
    ensures multiset(s)[x] <= 1
    decreases |s|
  {
    if s != [] {
      var init, last := s[..|s| - 1], s[|s| - 1];
      assert s == init + [last];
      assert Distinct(init);
      DistinctOnce(init, x);
      if last == x {
        assert x !in init;
      }
    }
  }

  /** Two positions holding the same element make it occur twice. */
  lemma TwiceOccurs<T>(s: seq<T>, i: nat, j: nat)
    requires i < j < |s| && s[i] == s[j]
    ensures multiset(s)[s[i]] >= 2
  {
    assert s == s[..j] + [s[j]] + s[j + 1..];
    assert s[..j][i] == s[i];
    assert s[i] in multiset(s[..j]);
  }

  /** The dict's items: distinct, each a cell seen with how often it was seen, every cell seen among them. */
  lemma ItemsFacts(cells: seq<Cell>)
    ensures var items := Items(Count(cells));
            Distinct(items)
            && (forall p :: 0 <= p < |items| ==> items[p].0 in cells && items[p].1 == multiset(cells)[items[p].0])
            && (forall c :: c in cells ==> exists p :: 0 <= p < |items| && items[p].0 == c)
  {
    var t := Count(cells);
    CountIsOccurrences(cells);
    var items := Items(t);
    forall i, j | 0 <= i < j < |items| ensures items[i] != items[j] {
      assert t.order[i] != t.order[j];
    }
    forall p | 0 <= p < |items| ensures items[p].0 in cells {
      assert t.order[p] in t.counts;
    }
    forall c | c in cells ensures exists p :: 0 <= p < |items| && items[p].0 == c {
      assert c in t.order;
      var p :| 0 <= p < |t.order| && t.order[p] == c;
      assert items[p].0 == c;
    }
  }

  /** A reordering of the items has the same entries. */
  lemma PermutedEntries(items: seq<(Cell, nat)>, ranked: seq<(Cell, nat)>, cells: seq<Cell>)
    requires multiset(ranked) == multiset(items)
    requires forall p :: 0 <= p < |items| ==> items[p].0 in cells && items[p].1 == multiset(cells)[items[p].0]
    ensures forall i :: 0 <= i < |ranked| ==> ranked[i].0 in cells && ranked[i].1 == multiset(cells)[ranked[i].0]
  {
    forall i | 0 <= i < |ranked| ensures ranked[i].0 in cells && ranked[i].1 == multiset(cells)[ranked[i].0] {
      assert ranked[i] in multiset(items);
      var p :| 0 <= p < |items| && items[p] == ranked[i];
    }
  }

  /** A reordering of distinct items keeps their cells apart, when a cell decides its entry. */
  lemma PermutedDistinct(items: seq<(Cell, nat)>, ranked: seq<(Cell, nat)>, cells: seq<Cell>)
    requires multiset(ranked) == multiset(items) && Distinct(items)
    requires forall i :: 0 <= i < |ranked| ==> ranked[i].1 == multiset(cells)[ranked[i].0]
    ensures forall i, j :: 0 <= i < j < |ranked| ==> ranked[i].0 != ranked[j].0
  {
    forall i, j | 0 <= i < j < |ranked| ensures ranked[i].0 != ranked[j].0 {
      if ranked[i].0 == ranked[j].0 {
        assert ranked[i] == ranked[j];
        TwiceOccurs(ranked, i, j);
        DistinctOnce(items, ranked[i]);
        assert false;
      }
    }
  }

  /** A reordering of the items still holds every cell. */
  lemma PermutedComplete(items: seq<(Cell, nat)>, ranked: seq<(Cell, nat)>, cells: seq<Cell>)
    requires multiset(ranked) == multiset(items)
    requires forall c :: c in cells ==> exists p :: 0 <= p < |items| && items[p].0 == c
    ensures forall c :: c in cells ==> exists i :: 0 <= i < |ranked| && ranked[i].0 == c
  {
    forall c | c in cells ensures exists i :: 0 <= i < |ranked| && ranked[i].0 == c {
      var p :| 0 <= p < |items| && items[p].0 == c;
      assert items[p] in multiset(ranked);
      var i :| 0 <= i < |ranked| && ranked[i] == items[p];
    }
  }

  /** Each ranked entry is a cell seen with how often it was seen. */
  lemma RankedCounts(records: seq<StoredRecord>, bucket: Position -> Cell)
    ensures var ranked, cells := Ranked(records, bucket), AllCells(records, bucket);
            forall i :: 0 <= i < |ranked| ==> ranked[i].0 in cells && ranked[i].1 == multiset(cells)[ranked[i].0]
  {
    var cells := AllCells(records, bucket);
    ItemsFacts(cells);
    PermutedEntries(Items(Count(cells)), Ranked(records, bucket), cells);
  }

  /**
   * The ranking: non-increasing frequencies; each entry is a distinct cell seen with how often it
   * was seen; every cell seen is ranked.
   */
  lemma RankedFacts(records: seq<StoredRecord>, bucket: Position -> Cell)
    ensures var ranked, cells := Ranked(records, bucket), AllCells(records, bucket);
            Sorting.SortedDesc(ranked, Frequency)
            && (forall i :: 0 <= i < |ranked| ==> ranked[i].0 in cells && ranked[i].1 == multiset(cells)[ranked[i].0])
            && (forall i, j :: 0 <= i < j < |ranked| ==> ranked[i].0 != ranked[j].0)
            && (forall c :: c in cells ==> exists i :: 0 <= i < |ranked| && ranked[i].0 == c)
  {
    var cells := AllCells(records, bucket);
    var items := Items(Count(cells));
    var ranked := Ranked(records, bucket);
    ItemsFacts(cells);
    PermutedEntries(items, ranked, cells);
    PermutedDistinct(items, ranked, cells);
    PermutedComplete(items, ranked, cells);
  }

  /**
   * How many zones there are: `int(predicted_count)` when that is not negative and there are as
   * many cells, every cell when there are fewer, and by Python's slice rule all but the last
   * `-int(predicted_count)` when that is negative.
   */
  lemma ZonesCount(records: seq<StoredRecord>, bucket: Position -> Cell, predictedCount: real)
    ensures var zones, ranked := PredictedZones(records, bucket, predictedCount), Ranked(records, bucket);
            var n := Trunc(predictedCount);
            (0 <= n ==> |zones| == Min(n, |ranked|))
            && (0.0 <= predictedCount ==> 0 <= n && |zones| as real <= predictedCount)
            && (n < 0 ==> |zones| == Max(0, |ranked| + n))
  {
  }

  /** The zones of a prefix of the ranking carry the ranked cells, numbered, with the intensity of their counts. */
  lemma ZonesOfPrefix(top: seq<(Cell, nat)>, ranked: seq<(Cell, nat)>)
    requires top <= ranked
    ensures var zones := ZonesOf(top);
            forall i :: 0 <= i < |zones| ==>
              i < |ranked| && zones[i].center == ranked[i].0 && zones[i].confidence == 0.8 - i as real * 0.1
              && zones[i].predictedIntensity == MinReal(1.0, ranked[i].1 as real / 10.0)
  {
    var zones := ZonesOf(top);
    forall i | 0 <= i < |zones|
      ensures i < |ranked| && zones[i].center == ranked[i].0 && zones[i].confidence == 0.8 - i as real * 0.1
      ensures zones[i].predictedIntensity == MinReal(1.0, ranked[i].1 as real / 10.0)
    {
      assert top[i] == ranked[i];
    }
  }

  /**
   * Zone `i` is the `i`-th ranked cell, with confidence 0.8 - 0.1·i and intensity min(1, count / 10);
   * `RankedCounts` says the count is how often the cell was seen.
   */
  lemma ZonesRanked(records: seq<StoredRecord>, bucket: Position -> Cell, predictedCount: real)
    ensures var zones, ranked := PredictedZones(records, bucket, predictedCount), Ranked(records, bucket);
            forall i :: 0 <= i < |zones| ==>
              i < |ranked| && zones[i].center == ranked[i].0 && zones[i].confidence == 0.8 - i as real * 0.1
              && zones[i].predictedIntensity == MinReal(1.0, ranked[i].1 as real / 10.0)
  {
    var top := Take(Ranked(records, bucket), Trunc(predictedCount));
    assert PredictedZones(records, bucket, predictedCount) == ZonesOf(top);
    ZonesOfPrefix(top, Ranked(records, bucket));
  }

  /** Intensities do not increase along the zones, and no cell makes two zones. */
  lemma ZonesOrdered(records: seq<StoredRecord>, bucket: Position -> Cell, predictedCount: real)
    ensures var zones := PredictedZones(records, bucket, predictedCount);
            (forall i, j :: 0 <= i < j < |zones| ==> zones[i].predictedIntensity >= zones[j].predictedIntensity)
            && (forall i, j :: 0 <= i < j < |zones| ==> zones[i].center != zones[j].center)
            && (forall i :: 0 <= i < |zones| ==> zones[i].center in AllCells(records, bucket))
  {
    RankedFacts(records, bucket);
    ZonesRanked(records, bucket, predictedCount);
    var ranked := Ranked(records, bucket);
    var zones := PredictedZones(records, bucket, predictedCount);
    forall i, j | 0 <= i < j < |zones| ensures zones[i].predictedIntensity >= zones[j].predictedIntensity {
      assert Frequency(ranked[i]) >= Frequency(ranked[j]);
    }
  }

  /** A cell seen that did not make a zone was seen no more often than the cell of any zone. */
  lemma ZonesAreHottest(records: seq<StoredRecord>, bucket: Position -> Cell, predictedCount: real, c: Cell, i: nat)
    requires c in AllCells(records, bucket)
    requires var zones := PredictedZones(records, bucket, predictedCount);
             i < |zones| && forall k :: 0 <= k < |zones| ==> zones[k].center != c
    ensures var cells := AllCells(records, bucket);
            multiset(cells)[c] <= multiset(cells)[PredictedZones(records, bucket, predictedCount)[i].center]
  {
    RankedFacts(records, bucket);
    ZonesRanked(records, bucket, predictedCount);
    var ranked := Ranked(records, bucket);
    var zones := PredictedZones(records, bucket, predictedCount);
    var p :| 0 <= p < |ranked| && ranked[p].0 == c;
    forall k | 0 <= k < |zones| ensures ranked[k].0 != c {
      assert zones[k].center == ranked[k].0;
    }
    assert p >= |zones|;
    assert Frequency(ranked[i]) >= Frequency(ranked[p]);
  }

  /** The counts of the ranked cells add up to the number of hexagons with a centre. */
  lemma RankedTotal(records: seq<StoredRecord>, bucket: Position -> Cell)
    ensures var t := Count(AllCells(records, bucket));
            SumCounts(t.order, t.counts) == |AllCells(records, bucket)| && |Ranked(records, bucket)| == |t.order|
  {
    CountTotal(AllCells(records, bucket));
  }

  // ---------------------------------------------------------------------------------------------
  // Confidence

  /**
   * `_calculate_prediction_confidence`: 0.7, raised by 0.1 in working hours (7 to 19 inclusive)
   * and by 0.1 with more than ten records in the last day, capped at 1.0, which it never reaches.
   */
  method CalculatePredictionConfidence(hour: int, recentCount: nat) returns (confidence: real)
    ensures confidence == 0.7 + (if 7 <= hour <= 19 then 0.1 else 0.0) + (if recentCount > 10 then 0.1 else 0.0)
    ensures 0.7 <= confidence <= 0.9
    ensures confidence >= 0.8 <==> (7 <= hour <= 19 || recentCount > 10)
    ensures confidence == 0.9 <==> (7 <= hour <= 19 && recentCount > 10)
  {
    var base := 0.7;
    if 7 <= hour <= 19 {
      base := base + 0.1;
    }
    if recentCount > 10 {
      base := base + 0.1;
    }
    confidence := MinReal(1.0, base);
  }

  // ---------------------------------------------------------------------------------------------
  // Scalar features

  function Sum(s: seq<int>): int
    decreases |s|
  {
    if s == [] then 0 else Sum(s[..|s| - 1]) + s[|s| - 1]
  }

  /** `np.mean` of a non-empty list of integers. */
  function Mean(s: seq<int>): real
    requires s != []
  {
    Sum(s) as real / |s| as real
  }

  /** The sum of values between `lo` and `hi` lies between `|s|·lo` and `|s|·hi`. */
  lemma {:induction false} SumBounds(s: seq<int>, lo: int, hi: int)
    requires forall k :: 0 <= k < |s| ==> lo <= s[k] <= hi
    ensures lo * |s| <= Sum(s) <= hi * |s|
    decreases |s|
  {
    if s != [] {
      SumBounds(s[..|s| - 1], lo, hi);
      assert lo * |s| == lo * (|s| - 1) + lo;
      assert hi * |s| == hi * (|s| - 1) + hi;
    }
  }

  lemma CastMul(a: int, b: int)
    ensures (a * b) as real == a as real * b as real
  {
  }

  /** A mean lies between the smallest and the largest value. */
  lemma MeanBounds(s: seq<int>, lo: int, hi: int)
    requires s != []
    requires forall k :: 0 <= k < |s| ==> lo <= s[k] <= hi
    ensures lo as real <= Mean(s) <= hi as real
  {
    SumBounds(s, lo, hi);
    var n := |s| as real;
    CastMul(lo, |s|);
    CastMul(hi, |s|);
    Arith.DivAtLeast(Sum(s) as real, n, lo as real);
    Arith.DivAtMost(Sum(s) as real, n, hi as real);
  }

  /** The features `_prepare_prediction_features` computes from the recent counts (newest first) and the target time. */
  datatype ScalarFeatures = ScalarFeatures(lag1: int, lag2: int, ma3: real, ma6: real, hour: int, dayOfWeek: int, isHoliday: bool)

  /** `weekday() >= 5` */
  predicate IsHoliday(weekday: int) {
    weekday >= 5
  }

  /** `[d['hexagon_count'] for d in recent_data[:6]]` */
  function RecentCounts(recent: seq<StoredRecord>): (counts: seq<int>)
    ensures |counts| == Min(6, |recent|)
    ensures forall k :: 0 <= k < |counts| ==> counts[k] == recent[k].hexagonCount
  {
    var first := Take(recent, 6);
    seq(|first|, k requires 0 <= k < |first| => first[k].hexagonCount)
  }

  function ScalarFeaturesOf(recent: seq<StoredRecord>, hour: int, weekday: int): ScalarFeatures {
    var lag1 := if recent != [] then recent[0].hexagonCount else 0;
    var lag2 := if |recent| > 1 then recent[1].hexagonCount else 0;
    var recentCounts := RecentCounts(recent);
    var ma3 := if |recentCounts| >= 3 then Mean(Take(recentCounts, 3)) else 0.0;
    var ma6 := if |recentCounts| >= 6 then Mean(recentCounts) else 0.0;
    ScalarFeatures(lag1, lag2, ma3, ma6, hour, weekday, IsHoliday(weekday))
  }

  /** The counts of the first `n` records. */
  function FirstCounts(recent: seq<StoredRecord>, n: nat): seq<int>
    requires n <= |recent|
  {
    seq(n, k requires 0 <= k < n => recent[k].hexagonCount)
  }

  /**
   * The lag features are the newest two counts, or 0; each moving average is the mean of the
   * newest 3 (or 6) counts when there are that many, else 0, and lies between their extremes;
   * the holiday flag marks Saturday and Sunday.
   */
  lemma ScalarFeaturesMeaning(recent: seq<StoredRecord>, hour: int, weekday: int, lo: int, hi: int)
    requires forall k :: 0 <= k < |recent| ==> lo <= recent[k].hexagonCount <= hi
    ensures var f := ScalarFeaturesOf(recent, hour, weekday);
            f.lag1 == (if |recent| >= 1 then recent[0].hexagonCount else 0)
            && f.lag2 == (if |recent| >= 2 then recent[1].hexagonCount else 0)
            && (|recent| >= 3 ==> f.ma3 == Mean(FirstCounts(recent, 3)) && lo as real <= f.ma3 <= hi as real)
            && (|recent| < 3 ==> f.ma3 == 0.0)
            && (|recent| >= 6 ==> f.ma6 == Mean(FirstCounts(recent, 6)) && lo as real <= f.ma6 <= hi as real)
            && (|recent| < 6 ==> f.ma6 == 0.0)
            && (0 <= weekday < 7 ==> (f.isHoliday <==> weekday == 5 || weekday == 6))
  {
    var recentCounts := RecentCounts(recent);
    if |recent| >= 3 {
      assert Take(recentCounts, 3) == FirstCounts(recent, 3);
      MeanBounds(FirstCounts(recent, 3), lo, hi);
    }
    if |recent| >= 6 {
      assert recentCounts == FirstCounts(recent, 6);
      MeanBounds(FirstCounts(recent, 6), lo, hi);
    }
  }

  /** Two days in seven are holidays. */
  lemma HolidaysPerWeek()
    ensures |set d | 0 <= d < 7 && IsHoliday(d)| == 2
  {
    assert (set d | 0 <= d < 7 && IsHoliday(d)) == {5, 6};
  }

  // ---------------------------------------------------------------------------------------------
  // Predictions for several intervals

  /** A prediction tagged with the interval it was made for. */
  datatype Tagged<P> = Tagged(prediction: P, intervalMinutes: int)

  /** The predictions `predict_multiple_times` keeps: the intervals that produced one, in order. */
  function Kept<P>(intervals: seq<int>, predict: int -> Option<P>): (r: seq<Tagged<P>>)
    ensures |r| <= |intervals|
    decreases |intervals|
  {
    if intervals == [] then []
    else
      var last := intervals[|intervals| - 1];
      Kept(intervals[..|intervals| - 1], predict)
      + (if predict(last).Some? then [Tagged(predict(last).value, last)] else [])
  }

  /** `predict_multiple_times`; `predict` stands for `predict_heatmap` at the base time plus the interval. */
  method PredictMultipleTimes<P>(intervals: seq<int>, predict: int -> Option<P>) returns (predictions: seq<Tagged<P>>)
    ensures predictions == Kept(intervals, predict)
  {
    predictions := [];
    for i := 0 to |intervals|
      invariant predictions == Kept(intervals[..i], predict)
    {
      assert intervals[..i + 1][..i] == intervals[..i];
      var interval := intervals[i];
      var prediction := predict(interval);
      if prediction.Some? {
        predictions := predictions + [Tagged(prediction.value, interval)];
      }
    }
    assert intervals[..|intervals|] == intervals;
  }

  /** Every kept prediction is what its interval produced. */
  lemma {:induction false} KeptSound<P>(intervals: seq<int>, predict: int -> Option<P>)
    ensures forall t :: t in Kept(intervals, predict) ==>
              t.intervalMinutes in intervals && predict(t.intervalMinutes) == Some(t.prediction)
    decreases |intervals|
  {
    if intervals != [] {
      var init := intervals[..|intervals| - 1];
      KeptSound(init, predict);
      assert forall x :: x in init ==> x in intervals;
    }
  }

  /** Every interval that produced a prediction is kept. */
  lemma {:induction false} KeptComplete<P>(intervals: seq<int>, predict: int -> Option<P>, j: nat)
    requires j < |intervals| && predict(intervals[j]).Some?
    ensures Tagged(predict(intervals[j]).value, intervals[j]) in Kept(intervals, predict)
    decreases |intervals|
  {
    var init := intervals[..|intervals| - 1];
    if j < |init| {
      assert init[j] == intervals[j];
      KeptComplete(init, predict, j);
    }
  }

  /** When every interval produces a prediction, they are all kept, in interval order. */
  lemma {:induction false} KeptAll<P>(intervals: seq<int>, predict: int -> Option<P>)
    requires forall k :: 0 <= k < |intervals| ==> predict(intervals[k]).Some?
    ensures |Kept(intervals, predict)| == |intervals|
    ensures forall k :: 0 <= k < |intervals| ==> Kept(intervals, predict)[k].intervalMinutes == intervals[k]
    decreases |intervals|
  {
    if intervals != [] {
      var init := intervals[..|intervals| - 1];
      assert forall k :: 0 <= k < |init| ==> init[k] == intervals[k];
      KeptAll(init, predict);
    }
  }

  // ---------------------------------------------------------------------------------------------
  // Training gate

  /** `update_model` reaches training only with records, and at least `min_data_points` of them. */
  predicate EnoughData<R>(records: Option<seq<R>>, minDataPoints: int) {
    records.Some? && records.value != [] && |records.value| >= minDataPoints
  }

  /** With the shipped minimum of 100, the count check alone decides, and fewer than 100 records never train. */
  lemma ShippedGate<R>(records: Option<seq<R>>)
    ensures EnoughData(records, Settings.Shipped.minDataPoints) <==> records.Some? && |records.value| >= 100
  {
  }

  /** `HeatmapPredictor`: only whether a model is trained is modelled. */
  class HeatmapPredictor {
    var isTrained: bool
    const minDataPoints: int

    /** `__init__` loads a saved model when both files exist. */
    constructor (cfg: Settings.Config, savedModel: bool)
      ensures isTrained == savedModel && minDataPoints == cfg.minDataPoints
    {
      isTrained := savedModel;
      minDataPoints := cfg.minDataPoints;
    }

    /**
     * `update_model`: `prepared` says whether `_prepare_training_data` produced data and `trained`
     * whether `_train_model` succeeded. Success is the only way to become trained.
     */
    method UpdateModel<R>(records: Option<seq<R>>, prepared: bool, trained: bool) returns (ok: bool)
      modifies this
      ensures ok == (EnoughData(records, minDataPoints) && prepared && trained)
      ensures isTrained == (old(isTrained) || ok)
    {
      if records.None? || records.value == [] {
        return false;
      }
      if |records.value| < minDataPoints {
        return false;
      }
      if !prepared {
        return false;
      }
      if trained {
        isTrained := true;
        return true;
      }
      return false;
    }
  }
}
