/**
 * The three synthetic catalogues of the wildfire design problem: aircraft, ground crews
 * and retardant supply. Each generator draws `n` rows from fixed bins with bounded noise,
 * clamps the derived quantities from below, appends two anchor rows, and formats one
 * implementation block per row under a header that declares the units.
 *
 * The random draws are inputs here: a draw records the bin values `random.choice` picked
 * and the integers `random.randint` returned.
 */
module GenCatalogues {
  import opened Wrappers
  import opened CatalogueText

  // ---------------------------------------------------------------------------------
  // Aircraft: F = [ha], R = [USD, kg, min]
  // ---------------------------------------------------------------------------------

  const AircraftAreaBins: seq<nat> := [10, 15, 20, 25, 30, 35, 40, 45, 50]
  const AircraftTimeBins: seq<nat> := [6, 8, 10, 12, 15, 18, 22, 26, 30]

  /** The values drawn for one aircraft row. */
  datatype AircraftDraw = AircraftDraw(area: nat, time: nat, costNoise: int, loadNoise: int)

  /** What `random.choice` and `random.randint(-25_000, 25_000)`, `(-200, 200)` can return. */
  predicate ValidAircraftDraw(d: AircraftDraw) {
    && d.area in AircraftAreaBins && d.time in AircraftTimeBins
    && -25000 <= d.costNoise <= 25000 && -200 <= d.loadNoise <= 200
  }

  /** A row `(area, cost, load, time)`: hectares, USD, kg, minutes. */
  datatype AircraftRow = AircraftRow(area: nat, cost: nat, load: nat, time: nat)

  /** The synthetic cost before clamping: more area and a faster response cost more. */
  function AircraftRawCost(d: AircraftDraw): int {
    150000 + d.area * 25000 + Max(0, 22 - d.time) * 40000 + d.costNoise
  }

  /** The synthetic logistics load before clamping. */
  function AircraftRawLoad(d: AircraftDraw): int {
    1200 + d.area * 55 + Max(0, 22 - d.time) * 95 + d.loadNoise
  }

  /** One generated row: the drawn area and time, cost at least 120000, load at least 500. */
  function AircraftRowOf(d: AircraftDraw): (r: AircraftRow)
    ensures r.area == d.area && r.time == d.time
    ensures r.cost >= 120000 && r.load >= 500
    ensures r.cost >= AircraftRawCost(d) && r.load >= AircraftRawLoad(d)
  {
    AircraftRow(d.area, Max(AircraftRawCost(d), 120000) as nat, Max(AircraftRawLoad(d), 500) as nat, d.time)
  }

  /** The slow, cheap anchor and the fast, expensive, heavy anchor. */
  const AircraftAnchors: seq<AircraftRow> := [AircraftRow(10, 250000, 1500, 30), AircraftRow(50, 2000000, 7000, 6)]

  /**
   * The rows `gen_aircraft` formats: one per draw, in draw order, then the two anchors.
   * Every row respects the floors; with valid draws every area and time is a bin value.
   */
  function AircraftRows(draws: seq<AircraftDraw>): (rows: seq<AircraftRow>)
    ensures |rows| == |draws| + 2 && rows[|draws|..] == AircraftAnchors
    ensures forall i :: 0 <= i < |draws| ==> rows[i] == AircraftRowOf(draws[i])
    ensures forall i :: 0 <= i < |rows| ==> rows[i].cost >= 120000 && rows[i].load >= 500
    ensures (forall i :: 0 <= i < |draws| ==> ValidAircraftDraw(draws[i])) ==>
      forall i :: 0 <= i < |rows| ==> rows[i].area in AircraftAreaBins && rows[i].time in AircraftTimeBins
  {
    seq(|draws|, i requires 0 <= i < |draws| => AircraftRowOf(draws[i])) + AircraftAnchors
  }

  const AircraftTitle := "Catalogue of aircraft options"
  const AircraftSchema := Schema(AircraftTitle, ["ha"], ["USD", "kg", "min"])

  /** The header text `gen_aircraft` writes, line by line. */
  const AircraftHeader: string :=
    "# " + AircraftTitle + "\n" + "F: [ha]\n" + ("R:\n" + "  - USD\n" + "  - kg\n" + "  - min\n") + "\nimplementations:\n"

  /** The written header declares exactly the aircraft units: `F: [ha]`, `R: USD, kg, min`. */
  lemma AircraftHeaderDeclares()
    ensures HeaderText(AircraftSchema) == AircraftHeader
  {
    BlockList3("R", "USD", "kg", "min");
  }

  /** The implementation block's quantities: the area provided; cost, load and time required. */
  function AircraftEntry(r: AircraftRow): (e: Entry)
    ensures Conforms(e, AircraftSchema)
    ensures e.fMax[0].value == r.area
    ensures e.rMin[0].value == r.cost && e.rMin[1].value == r.load && e.rMin[2].value == r.time
  {
    Entry([Quantity(r.area, "ha")], [Quantity(r.cost, "USD"), Quantity(r.load, "kg"), Quantity(r.time, "min")])
  }

  function AircraftEntries(rows: seq<AircraftRow>): (es: seq<Entry>)
    ensures |es| == |rows| && forall k :: 0 <= k < |rows| ==> es[k] == AircraftEntry(rows[k])
  {
    seq(|rows|, k requires 0 <= k < |rows| => AircraftEntry(rows[k]))
  }

  /**
   * `gen_aircraft(len(draws))`: the aircraft catalogue of the given draws; `write_yaml`
   * writes it without its final blank line.
   */
  method GenAircraft(draws: seq<AircraftDraw>) returns (text: string)
    ensures text == Text(AircraftSchema, AircraftEntries(AircraftRows(draws)))
    ensures FileText(text) == text[..|text| - 1]
  {
    var rows: seq<AircraftRow> := [];
    var i := 0;
    while i < |draws|
      invariant 0 <= i <= |draws| && |rows| == i
      invariant forall j :: 0 <= j < i ==> rows[j] == AircraftRowOf(draws[j])
    {
      var d := draws[i];
      var cost := 150000 + d.area * 25000 + Max(0, 22 - d.time) * 40000 + d.costNoise;
      var load := 1200 + d.area * 55 + Max(0, 22 - d.time) * 95 + d.loadNoise;
      cost := Max(cost, 120000);
      load := Max(load, 500);
      rows := rows + [AircraftRow(d.area, cost as nat, load as nat, d.time)];
      i := i + 1;
    }
    rows := rows + AircraftAnchors;
    assert rows == AircraftRows(draws);

    var es := AircraftEntries(rows);
    var impl := FormatBlocks(es);
    AircraftHeaderDeclares();
    text := AircraftHeader + Concat(impl) + "\n";
    WrittenCatalogue(AircraftSchema, es);
  }

  /** With valid draws the floors never bind: every row carries the unclamped formula. */
  lemma AircraftFloorsInactive(d: AircraftDraw)
    requires ValidAircraftDraw(d)
    ensures AircraftRowOf(d).cost == AircraftRawCost(d) >= 375000
    ensures AircraftRowOf(d).load == AircraftRawLoad(d) >= 1550
  {
    assert d.area >= 10 by { BinsAtLeast(AircraftAreaBins, d.area, 10); }
  }

  /**
   * More area and a faster response never lower the cost or the load (same noise); with
   * valid draws strictly more area strictly raises both.
   */
  lemma AircraftMonotone(d1: AircraftDraw, d2: AircraftDraw)
    requires d1.costNoise == d2.costNoise && d1.loadNoise == d2.loadNoise
    requires d1.area <= d2.area && d1.time >= d2.time
    ensures AircraftRowOf(d1).cost <= AircraftRowOf(d2).cost
    ensures AircraftRowOf(d1).load <= AircraftRowOf(d2).load
    ensures ValidAircraftDraw(d1) && ValidAircraftDraw(d2) && d1.area < d2.area ==>
      AircraftRowOf(d1).cost < AircraftRowOf(d2).cost && AircraftRowOf(d1).load < AircraftRowOf(d2).load
  {
    if ValidAircraftDraw(d1) && ValidAircraftDraw(d2) {
      AircraftFloorsInactive(d1);
      AircraftFloorsInactive(d2);
    }
  }

  // ---------------------------------------------------------------------------------
  // Ground crews: F = [ha], R = [USD, min]
  // ---------------------------------------------------------------------------------

  const CrewAreaBins: seq<nat> := [20, 30, 40, 50, 60, 70, 80, 90, 100, 110, 120]
  const CrewTimeBins: seq<nat> := [10, 15, 18, 20, 25, 30, 35, 40, 45, 60]

  datatype CrewDraw = CrewDraw(area: nat, time: nat, costNoise: int)

  /** What `random.choice` and `random.randint(-12_000, 12_000)` can return. */
  predicate ValidCrewDraw(d: CrewDraw) {
    d.area in CrewAreaBins && d.time in CrewTimeBins && -12000 <= d.costNoise <= 12000
  }

  /** A row `(area, cost, time)`. */
  datatype CrewRow = CrewRow(area: nat, cost: nat, time: nat)

  function CrewRawCost(d: CrewDraw): int {
    80000 + d.area * 6500 + Max(0, 45 - d.time) * 8000 + d.costNoise
  }

  function CrewRowOf(d: CrewDraw): (r: CrewRow)
    ensures r.area == d.area && r.time == d.time
    ensures r.cost >= 60000 && r.cost >= CrewRawCost(d)
  {
    CrewRow(d.area, Max(CrewRawCost(d), 60000) as nat, d.time)
  }

  const CrewAnchors: seq<CrewRow> := [CrewRow(20, 150000, 60), CrewRow(120, 1050000, 10)]

  /** The rows `gen_crews` formats: one per draw, then the two anchors. */
  function CrewRows(draws: seq<CrewDraw>): (rows: seq<CrewRow>)
    ensures |rows| == |draws| + 2 && rows[|draws|..] == CrewAnchors
    ensures forall i :: 0 <= i < |draws| ==> rows[i] == CrewRowOf(draws[i])
    ensures forall i :: 0 <= i < |rows| ==> rows[i].cost >= 60000
    ensures (forall i :: 0 <= i < |draws| ==> ValidCrewDraw(draws[i])) ==>
      forall i :: 0 <= i < |rows| ==> rows[i].area in CrewAreaBins && rows[i].time in CrewTimeBins
  {
    seq(|draws|, i requires 0 <= i < |draws| => CrewRowOf(draws[i])) + CrewAnchors
  }

  const CrewTitle := "Catalogue of ground crew options"
  const CrewSchema := Schema(CrewTitle, ["ha"], ["USD", "min"])

  /** The header text `gen_crews` writes, line by line. */
  const CrewHeader: string :=
    "# " + CrewTitle + "\n" + "F: [ha]\n" + ("R:\n" + "  - USD\n" + "  - min\n") + "\nimplementations:\n"

  /** The written header declares exactly the crew units: `F: [ha]`, `R: USD, min`. */
  lemma CrewHeaderDeclares()
    ensures HeaderText(CrewSchema) == CrewHeader
  {
    BlockList2("R", "USD", "min");
  }

  function CrewEntry(r: CrewRow): (e: Entry)
    ensures Conforms(e, CrewSchema)
    ensures e.fMax[0].value == r.area && e.rMin[0].value == r.cost && e.rMin[1].value == r.time
  {
    Entry([Quantity(r.area, "ha")], [Quantity(r.cost, "USD"), Quantity(r.time, "min")])
  }

  function CrewEntries(rows: seq<CrewRow>): (es: seq<Entry>)
    ensures |es| == |rows| && forall k :: 0 <= k < |rows| ==> es[k] == CrewEntry(rows[k])
  {
    seq(|rows|, k requires 0 <= k < |rows| => CrewEntry(rows[k]))
  }

  /** `gen_crews(len(draws))`. */
  method GenCrews(draws: seq<CrewDraw>) returns (text: string)
    ensures text == Text(CrewSchema, CrewEntries(CrewRows(draws)))
    ensures FileText(text) == text[..|text| - 1]
  {
    var rows: seq<CrewRow> := [];
    var i := 0;
    while i < |draws|
      invariant 0 <= i <= |draws| && |rows| == i
      invariant forall j :: 0 <= j < i ==> rows[j] == CrewRowOf(draws[j])
    {
      var d := draws[i];
      var cost := 80000 + d.area * 6500 + Max(0, 45 - d.time) * 8000 + d.costNoise;
      cost := Max(cost, 60000);
      rows := rows + [CrewRow(d.area, cost as nat, d.time)];
      i := i + 1;
    }
    rows := rows + CrewAnchors;
    assert rows == CrewRows(draws);

    var es := CrewEntries(rows);
    var impl := FormatBlocks(es);
    CrewHeaderDeclares();
    text := CrewHeader + Concat(impl) + "\n";
    WrittenCatalogue(CrewSchema, es);
  }

  /** With valid draws the floor never binds. */
  lemma CrewFloorInactive(d: CrewDraw)
    requires ValidCrewDraw(d)
    ensures CrewRowOf(d).cost == CrewRawCost(d) >= 198000
  {
    assert d.area >= 20 by { BinsAtLeast(CrewAreaBins, d.area, 20); }
  }

  /** More area and a faster response never lower a crew's cost; strictly more area raises it. */
  lemma CrewMonotone(d1: CrewDraw, d2: CrewDraw)
    requires d1.costNoise == d2.costNoise && d1.area <= d2.area && d1.time >= d2.time
    ensures CrewRowOf(d1).cost <= CrewRowOf(d2).cost
    ensures ValidCrewDraw(d1) && ValidCrewDraw(d2) && d1.area < d2.area ==>
      CrewRowOf(d1).cost < CrewRowOf(d2).cost
  {
    if ValidCrewDraw(d1) && ValidCrewDraw(d2) {
      CrewFloorInactive(d1);
      CrewFloorInactive(d2);
    }
  }

  // ---------------------------------------------------------------------------------
  // Retardant supply: F = [kg], R = [USD]
  // ---------------------------------------------------------------------------------

  const RetardantLoadBins: seq<nat> := [1000, 1500, 2000, 2500, 3000, 4000, 5000, 6000, 7000]

  datatype RetardantDraw = RetardantDraw(load: nat, costNoise: int)

  /** What `random.choice` and `random.randint(-3_000, 3_000)` can return. */
  predicate ValidRetardantDraw(d: RetardantDraw) {
    d.load in RetardantLoadBins && -3000 <= d.costNoise <= 3000
  }

  /** A row `(load, cost)`. */
  datatype RetardantRow = RetardantRow(load: nat, cost: nat)

  function RetardantRawCost(d: RetardantDraw): int {
    20000 + d.load * 18 + d.costNoise
  }

  function RetardantRowOf(d: RetardantDraw): (r: RetardantRow)
    ensures r.load == d.load && r.cost >= 10000 && r.cost >= RetardantRawCost(d)
  {
    RetardantRow(d.load, Max(RetardantRawCost(d), 10000) as nat)
  }

  const RetardantAnchors: seq<RetardantRow> := [RetardantRow(2000, 50000), RetardantRow(6000, 50000)]

  /** The rows `gen_retardant` formats: one per draw, then the two anchors. */
  function RetardantRows(draws: seq<RetardantDraw>): (rows: seq<RetardantRow>)
    ensures |rows| == |draws| + 2 && rows[|draws|..] == RetardantAnchors
    ensures forall i :: 0 <= i < |draws| ==> rows[i] == RetardantRowOf(draws[i])
    ensures forall i :: 0 <= i < |rows| ==> rows[i].cost >= 10000
    ensures (forall i :: 0 <= i < |draws| ==> ValidRetardantDraw(draws[i])) ==>
      forall i :: 0 <= i < |rows| ==> rows[i].load in RetardantLoadBins
  {
    seq(|draws|, i requires 0 <= i < |draws| => RetardantRowOf(draws[i])) + RetardantAnchors
  }

  const RetardantTitle := "Catalogue of retardant/supply options"
  const RetardantSchema := Schema(RetardantTitle, ["kg"], ["USD"])

  /** The header text `gen_retardant` writes, line by line. */
  const RetardantHeader: string :=
    "# " + RetardantTitle + "\n" + "F: [kg]\n" + "R: [USD]\n" + "\nimplementations:\n"

  /** The written header declares exactly the retardant units: `F: [kg]`, `R: [USD]`. */
  lemma RetardantHeaderDeclares()
    ensures HeaderText(RetardantSchema) == RetardantHeader
  {
    assert UnitList("F", ["kg"]) == "F: [kg]\n";
    assert UnitList("R", ["USD"]) == "R: [USD]\n";
  }

  function RetardantEntry(r: RetardantRow): (e: Entry)
    ensures Conforms(e, RetardantSchema)
    ensures e.fMax[0].value == r.load && e.rMin[0].value == r.cost
  {
    Entry([Quantity(r.load, "kg")], [Quantity(r.cost, "USD")])
  }

  function RetardantEntries(rows: seq<RetardantRow>): (es: seq<Entry>)
    ensures |es| == |rows| && forall k :: 0 <= k < |rows| ==> es[k] == RetardantEntry(rows[k])
  {
    seq(|rows|, k requires 0 <= k < |rows| => RetardantEntry(rows[k]))
  }

  /** `gen_retardant(len(draws))`. */
  method GenRetardant(draws: seq<RetardantDraw>) returns (text: string)
    ensures text == Text(RetardantSchema, RetardantEntries(RetardantRows(draws)))
    ensures FileText(text) == text[..|text| - 1]
  {
    var rows: seq<RetardantRow> := [];
    var i := 0;
    while i < |draws|
      invariant 0 <= i <= |draws| && |rows| == i
      invariant forall j :: 0 <= j < i ==> rows[j] == RetardantRowOf(draws[j])
    {
      var d := draws[i];
      var cost := 20000 + d.load * 18 + d.costNoise;
      cost := Max(cost, 10000);
      rows := rows + [RetardantRow(d.load, cost as nat)];
      i := i + 1;
    }
    rows := rows + RetardantAnchors;
    assert rows == RetardantRows(draws);

    var es := RetardantEntries(rows);
    var impl := FormatBlocks(es);
    RetardantHeaderDeclares();
    text := RetardantHeader + Concat(impl) + "\n";
    WrittenCatalogue(RetardantSchema, es);
  }

  /** With valid draws the floor never binds. */
  lemma RetardantFloorInactive(d: RetardantDraw)
    requires ValidRetardantDraw(d)
    ensures RetardantRowOf(d).cost == RetardantRawCost(d) >= 35000
  {
    assert d.load >= 1000 by { BinsAtLeast(RetardantLoadBins, d.load, 1000); }
  }

  /** More supplied retardant never costs less; with valid draws it costs strictly more. */
  lemma RetardantMonotone(d1: RetardantDraw, d2: RetardantDraw)
    requires d1.costNoise == d2.costNoise && d1.load <= d2.load
    ensures RetardantRowOf(d1).cost <= RetardantRowOf(d2).cost
    ensures ValidRetardantDraw(d1) && ValidRetardantDraw(d2) && d1.load < d2.load ==>
      RetardantRowOf(d1).cost < RetardantRowOf(d2).cost
  {
    if ValidRetardantDraw(d1) && ValidRetardantDraw(d2) {
      RetardantFloorInactive(d1);
      RetardantFloorInactive(d2);
    }
  }

  // ---------------------------------------------------------------------------------
  // Shared facts
  // ---------------------------------------------------------------------------------

  /** A list of two units is written as a block list. */
  lemma BlockList2(key: string, u: string, v: string)
    ensures UnitList(key, [u, v]) == key + ":\n" + UnitItem(u) + UnitItem(v)
  {
    var items := seq(2, i requires 0 <= i < 2 => UnitItem([u, v][i]));
    assert items == [UnitItem(u), UnitItem(v)];
    assert items[..1] == [UnitItem(u)] && items[..1][..0] == [];
    assert Concat(items[..1]) == UnitItem(u);
    assert Concat(items) == UnitItem(u) + UnitItem(v);
  }

  /** A list of three units is written as a block list. */
  lemma BlockList3(key: string, u: string, v: string, w: string)
    ensures UnitList(key, [u, v, w]) == key + ":\n" + UnitItem(u) + UnitItem(v) + UnitItem(w)
  {
    var items := seq(3, i requires 0 <= i < 3 => UnitItem([u, v, w][i]));
    assert items == [UnitItem(u), UnitItem(v), UnitItem(w)];
    assert items[..2] == [UnitItem(u), UnitItem(v)] && items[..1] == [UnitItem(u)] && items[..1][..0] == [];
    assert Concat(items[..1]) == UnitItem(u);
    assert Concat(items[..2]) == UnitItem(u) + UnitItem(v);
    assert Concat(items) == UnitItem(u) + UnitItem(v) + UnitItem(w);
  }

  /** The `impl` list: the implementation block of every row, keyed by its position. */
  method FormatBlocks(es: seq<Entry>) returns (impl: seq<string>)
    ensures impl == EntryTexts(es)
  {
    impl := [];
    var k := 0;
    while k < |es|
      invariant 0 <= k <= |es|
      invariant |impl| == k && forall j :: 0 <= j < k ==> impl[j] == EntryText(j, es[j])
    {
      impl := impl + [EntryText(k, es[k])];
      k := k + 1;
    }
  }

  /** A value drawn from bins that are all at least `lo` is at least `lo`. */
  lemma BinsAtLeast(bins: seq<nat>, x: nat, lo: nat)
    requires x in bins && forall i :: 0 <= i < |bins| ==> bins[i] >= lo
    ensures x >= lo
  {
  }

  /**
   * Every implementation block of a generated catalogue has its own key, and lists as
   * many `r_min` lines as the header declares resources.
   */
  lemma CatalogueBlocks(s: Schema, es: seq<Entry>, j: nat, k: nat)
    requires j < k < |es|
    requires Conforms(es[k], s)
    requires forall i :: 0 <= i < |s.resources| ==> '\n' !in s.resources[i]
    ensures ModelName(j) != ModelName(k)
    ensures Occurrences(QuantityLines(es[k].rMin), '\n') == |s.resources|
  {
    if ModelName(j) == ModelName(k) {
      ModelNameInjective(j, k);
    }
    ResourceLines(es[k], s);
  }
}
