/** The day ledgers of the funnel: one mutable ledger per account and day. */
module FinanceDays {
  import opened Wrappers
  import opened Ledger
  import opened Accruals
  import opened Buyouts
  import opened BuyoutLedger
  import opened Settlement
  import opened AccrualEconomicsClass
  import opened FunnelEconomics
  import opened BuyoutEffects
  import opened DayBooks

  function DayKey(r: Record): Key
    requires r.payload.date.Some?
  {
    (r.account, if |r.payload.date.value| <= 10 then r.payload.date.value else r.payload.date.value[..10])
  }

  lemma DayKeyIs(r: Record)
    requires r.payload.date.Some?
    ensures DayKey(r).0 == r.account && RecordOn(r, r.account, DayKey(r).1)
  {
  }

  /** The map of ledgers holds distinct objects whose states are `states`. */
  ghost predicate Holds(engines: map<Key, AccrualEconomics>, states: map<Key, Books>)
    reads engines.Values
  {
    && engines.Keys == states.Keys
    && (forall k :: k in engines ==> engines[k].State() == states[k])
    && DistinctEngines(engines)
  }

  method EngineFor(engines: map<Key, AccrualEconomics>, key: Key, ghost states: map<Key, Books>)
    returns (all: map<Key, AccrualEconomics>, engine: AccrualEconomics)
    requires Holds(engines, states)
    ensures key in all && engine == all[key] && all.Keys == engines.Keys + {key}
    ensures Holds(all, states[key := StateOf(states, key)])
    ensures forall k :: k in engines ==> all[k] == engines[k]
    ensures key !in engines ==> fresh(engine)
  {
    all := engines;
    if key !in all {
      var e := new AccrualEconomics();
      all := all[key := e];
    }
    engine := all[key];
  }

  predicate DistinctEngines(engines: map<Key, AccrualEconomics>) {
    forall k, l :: k in engines && l in engines && k != l ==> engines[k] != engines[l]
  }

  /** Changing one ledger leaves the others as they were. */
  lemma HoldsAfter(engines: map<Key, AccrualEconomics>, states: map<Key, Books>, key: Key, after: Books)
    requires engines.Keys == states.Keys + {key} && DistinctEngines(engines)
    requires engines[key].State() == after
    requires forall k :: k in engines && k != key ==> engines[k].State() == states[k]
    ensures Holds(engines, states[key := after])
  {
    hide AccrualEconomics.State;
  }

  method BookRecord(engines: map<Key, AccrualEconomics>, r: Record, ghost states: map<Key, Books>)
    returns (all: map<Key, AccrualEconomics>)
    requires r.payload.date.Some? && Holds(engines, states)
    modifies engines.Values
    ensures all.Keys == engines.Keys + {DayKey(r)} && forall k :: k in engines ==> all[k] == engines[k]
    ensures DayKey(r) !in engines ==> fresh(all[DayKey(r)])
    ensures RecordOn(r, DayKey(r).0, DayKey(r).1)
    ensures Holds(all, states[DayKey(r) := Accruals.Add(StateOf(states, DayKey(r)), r.payload)])
  {
    hide Accruals.Add, StateOf, AccrualEconomics.State;
    DayKeyIs(r);
    var key := DayKey(r);
    var engine;
    all, engine := EngineFor(engines, key, states);
    ghost var before := states[key := StateOf(states, key)];
    engine.Add(r.payload);
    forall k | k in all && k != key ensures all[k].State() == states[k] {
      assert all[k] != engine && before[k] == states[k];
    }
    HoldsAfter(all, states, key, engine.State());
  }

  method BookRecords(records: seq<Record>) returns (engines: map<Key, AccrualEconomics>, ghost states: map<Key, Books>)
    requires EveryRecordDated(records)
    ensures Holds(engines, states) && forall k :: k in engines ==> fresh(engines[k])
    ensures AllSound(states) && PaysAtHome(states, records) && KnowsSales(states, records)
    ensures LedgersAre(states, map[], records, []) && DaysAre(states, records, [])
  {
    hide AllSound, PaysAtHome, KnowsSales, Accruals.Add, StateOf, LedgersAre, DaysAre, RecordOn, DayKey;
    engines, states := map[], map[];
    FunnelEconomics.NothingBooked(records);
    NothingYet(map[]);
    assert records[..0] == [];
    for i := 0 to |records|
      invariant Holds(engines, states) && forall k :: k in engines ==> fresh(engines[k])
      invariant AllSound(states) && PaysAtHome(states, records[..i]) && KnowsSales(states, records[..i])
      invariant LedgersAre(states, map[], records[..i], []) && DaysAre(states, records[..i], [])
    {
      var r := records[i];
      DayKeyIs(r);
      engines := BookRecord(engines, r, states);
      RecordBooked(states, records, i, DayKey(r).1);
      RecordKeepsLedgers(states, map[], records, [], i, DayKey(r).1);
      RecordKeepsDays(states, records, i, DayKey(r).1, Accruals.Add(StateOf(states, DayKey(r)), r.payload));
      states := states[DayKey(r) := Accruals.Add(StateOf(states, DayKey(r)), r.payload)];
    }
    assert records[..|records|] == records;
  }

  // ----- Reports -----

  method GatherSales(engines: map<Key, AccrualEconomics>, account: string, own: AccrualEconomics,
                     ghost states: map<Key, Books>)
    returns (merged: map<Key, Sale>)
    requires Holds(engines, states)
    requires exists k :: k in engines && k.0 == account && engines[k] == own
    ensures forall id :: id in merged <==> KnowsSale(states, account, id)
  {
    merged := own.domesticSales;
    forall id | id in merged ensures KnowsSale(states, account, id) {
      var k :| k in engines && k.0 == account && engines[k] == own;
      assert k in states && id in states[k].domestic;
    }
    var todo := engines.Keys;
    while todo != {}
      invariant todo <= engines.Keys
      invariant forall id :: id in merged ==> KnowsSale(states, account, id)
      invariant forall k, id :: k in engines && k !in todo && k.0 == account && id in states[k].domestic ==> id in merged
      decreases todo
    {
      var k :| k in todo;
      if k.0 == account {
        forall id | id in engines[k].domesticSales ensures KnowsSale(states, account, id) {
          assert id in states[k].domestic;
        }
        merged := merged + engines[k].domesticSales;
      }
      todo := todo - {k};
    }
  }

  lemma ToldIsPrepared(states: map<Key, Books>, seen: map<string, map<Key, Buyout>>, account: string, day: string,
                       merged: map<Key, Sale>)
    requires forall id :: id in merged <==> KnowsSale(states, account, id)
    ensures Prepared(states, seen, account, day,
                     StateOf(states, (account, day)).(domestic := merged, seen := SeenOf(seen, account)))
  {
  }

  lemma SeenIsState(engine: AccrualEconomics)
    ensures engine.State().seen == engine.seenBuyouts && engine.State().domestic == engine.domesticSales
  {
  }

  method Tell(engine: AccrualEconomics, sales: map<Key, Sale>, seen: map<Key, Buyout>)
    modifies engine
    ensures engine.State() == old(engine.State()).(domestic := sales, seen := seen)
  {
    engine.domesticSales := sales;
    engine.seenBuyouts := seen;
  }

  /** The ledger of an account and day, told every domestic sale and every earlier record of the account. */
  method PreparedEngine(engines: map<Key, AccrualEconomics>, r: Report, seen: map<string, map<Key, Buyout>>,
                        ghost states: map<Key, Books>)
    returns (all: map<Key, AccrualEconomics>, engine: AccrualEconomics, ghost b: Books)
    requires Holds(engines, states)
    modifies engines.Values
    ensures forall k :: k in all ==> (k in engines && all[k] == engines[k]) || fresh(all[k])
    ensures (r.account, r.day) in all && all[(r.account, r.day)] == engine && engine.State() == b
    ensures Prepared(states, seen, r.account, r.day, b)
    ensures Holds(all, states[(r.account, r.day) := b])
  {
    hide Prepared, KnowsSale, StateOf, AccrualEconomics.State;
    var key := (r.account, r.day);
    all, engine := EngineFor(engines, key, states);
    ghost var before := states[key := StateOf(states, key)];
    var merged := GatherSales(all, r.account, engine, before);
    SameSales(states, key, r.account);
    Tell(engine, merged, SeenOf(seen, r.account));
    b := engine.State();
    ToldIsPrepared(states, seen, r.account, r.day, merged);
    forall k | k in all && k != key ensures all[k].State() == states[k] {
      assert all[k] != engine && before[k] == states[k];
    }
    HoldsAfter(all, states, key, b);
  }

  /** Books one report on the ledger of its account and day. */
  method BookReport(engines: map<Key, AccrualEconomics>, r: Report, seen: map<string, map<Key, Buyout>>,
                    ghost states: map<Key, Books>)
    returns (ok: bool, all: map<Key, AccrualEconomics>, seenNext: map<string, map<Key, Buyout>>,
             ghost b: Books, ghost after: Books)
    requires Holds(engines, states)
    modifies engines.Values
    ensures forall k :: k in all ==> (k in engines && all[k] == engines[k]) || fresh(all[k])
    ensures Prepared(states, seen, r.account, r.day, b)
    ensures var lines := Foreign(r.lines, b.domestic.Keys);
      if ok then
        AcceptableReport(Some(lines)) && BooksReport(b, r.day, lines, Done(after)) &&
        Holds(all, states[(r.account, r.day) := after]) && seenNext == seen[r.account := after.seen]
      else
        AcceptableReport(Some(lines)) ==> BooksReport(b, r.day, lines, Conflict(after))
  {
    hide Foreign, AcceptableReport, BooksReport, Prepared, KnowsSale, StateOf, AccrualEconomics.State;
    var key := (r.account, r.day);
    var engine;
    all, engine, b := PreparedEngine(engines, r, seen, states);
    ghost var before := states[key := b];
    SeenIsState(engine);
    var lines := Foreign(r.lines, engine.domesticSales.Keys);
    var outcome := engine.AddBuyouts(r.day, Some(lines));
    after := engine.State();
    ok := outcome.Ok?;
    seenNext := seen;
    if ok {
      SeenIsState(engine);
      seenNext := seen[r.account := engine.seenBuyouts];
      forall k | k in all && k != key ensures all[k].State() == states[k] {
        assert all[k] != engine && before[k] == states[k];
      }
      HoldsAfter(all, states, key, after);
    }
  }

  lemma SameSales(states: map<Key, Books>, key: Key, account: string)
    ensures forall id :: KnowsSale(states[key := StateOf(states, key)], account, id) <==> KnowsSale(states, account, id)
  {
    forall id ensures KnowsSale(states[key := StateOf(states, key)], account, id) <==> KnowsSale(states, account, id) {
      KnowsSaleUpdate(states, key, StateOf(states, key), account, id);
      if key.0 == account && id in StateOf(states, key).domestic {
        assert key in states && KnowsSale(states, account, id);
      }
    }
  }

  // ----- The whole computation -----

  method BookReports(start: map<Key, AccrualEconomics>, records: seq<Record>, reports: seq<Report>,
                     ghost states: map<Key, Books>)
    returns (ok: bool, engines: map<Key, AccrualEconomics>, seen: map<string, map<Key, Buyout>>,
             ghost booked: map<Key, Books>)
    requires Holds(start, states)
    requires AllSound(states) && PaysAtHome(states, records) && KnowsSales(states, records)
    requires LedgersAre(states, map[], records, []) && DaysAre(states, records, [])
    modifies start.Values
    ensures forall k :: k in engines ==> engines[k] in start.Values || fresh(engines[k])
    ensures ok <==> AllAcceptable(records, reports) && Consistent(records, reports)
    ensures ok ==> Holds(engines, booked) && Settled(booked, seen, records, reports)
    ensures ok ==> LedgersAre(booked, seen, records, reports) && DaysAre(booked, records, reports)
  {
    hide AllSound, PaysAtHome, KnowsSales, Settled, Holds, Prepared, AcceptableReport, BooksReport, Foreign,
      AllAcceptable, Consistent, LedgersAre, DaysAre;
    assert reports[..0] == [];
    ok, engines, seen, booked := true, start, map[], states;
    NoReports(states, records, reports);
    var i := 0;
    while i < |reports|
      invariant 0 <= i <= |reports|
      invariant Holds(engines, booked) && Settled(booked, seen, records, reports[..i])
      invariant LedgersAre(booked, seen, records, reports[..i]) && DaysAre(booked, records, reports[..i])
      invariant forall k :: k in engines ==> engines[k] in start.Values || fresh(engines[k])
    {
      var r := reports[i];
      ghost var b, after;
      var next, seenNext;
      ok, next, seenNext, b, after := BookReport(engines, r, seen, booked);
      engines := next;
      if !ok {
        RefusalIsJustified(booked, seen, records, reports, i, b, after);
        return;
      }
      NextSettled(booked, seen, records, reports, i, b, after);
      SettledIsAccounted(booked, seen, records, reports[..i]);
      ReportKeepsLedgers(booked, seen, records, reports, i, b, after);
      ReportKeepsDays(booked, records, reports, i, after);
      booked := booked[(r.account, r.day) := after];
      seen := seenNext;
      i := i + 1;
    }
    assert reports[..i] == reports;
    ok := true;
    SettledIsConsistent(booked, seen, records, reports);
  }

  lemma SettledIsAccounted(states: map<Key, Books>, seen: map<string, map<Key, Buyout>>,
                           records: seq<Record>, reports: seq<Report>)
    requires Settled(states, seen, records, reports)
    ensures Accounted(states, seen, records, reports)
  {
  }

  lemma SettledIsConsistent(states: map<Key, Books>, seen: map<string, map<Key, Buyout>>,
                            records: seq<Record>, reports: seq<Report>)
    requires Settled(states, seen, records, reports)
    ensures AllAcceptable(records, reports) && Consistent(records, reports)
  {
    AllSeenIsConsistent(seen, records, reports);
  }

  lemma SettledCountsOnce(states: map<Key, Books>, seen: map<string, map<Key, Buyout>>,
                          records: seq<Record>, reports: seq<Report>)
    requires Settled(states, seen, records, reports)
    ensures AllSound(states) && CountsOnce(states, seen, records, reports)
    ensures LinesAreSeen(seen, records, reports) && SeenIsFromLines(seen, records, reports)
  {
  }

  /** Allocates one day; it is refused exactly when the day does not reconcile. */
  method AllocateDay(engines: map<Key, AccrualEconomics>, key: Key, ghost states: map<Key, Books>) returns (refused: bool)
    requires Holds(engines, states) && key in engines
    modifies engines.Values
    ensures Holds(engines, states[key := Settlement.Allocate(states[key])])
    ensures refused <==> !Reconciles(Settlement.Allocate(states[key]))
  {
    hide AccrualEconomics.State, Settlement.Allocate, Reconciles;
    var engine := engines[key];
    var rest, one := engine.Allocate();
    refused := one;
    forall k | k in engines && k != key ensures engines[k].State() == states[k] {
      assert engines[k] != engine;
    }
    HoldsAfter(engines, states, key, engine.State());
  }

  method AllocateDays(engines: map<Key, AccrualEconomics>, seen: map<string, map<Key, Buyout>>,
                      records: seq<Record>, reports: seq<Report>, ghost states: map<Key, Books>)
    returns (refused: bool, ghost closed: map<Key, Books>)
    requires Holds(engines, states) && AllSound(states) && CountsOnce(states, seen, records, reports)
    requires LedgersAre(states, seen, records, reports)
    modifies engines.Values
    ensures !refused && LedgersAre(closed, seen, records, reports)
    ensures Holds(engines, closed) && AllSound(closed) && CountsOnce(closed, seen, records, reports)
    ensures forall k :: k in engines ==> engines[k].State().pool == map[]
  {
    hide AllSound, CountsOnce, AccrualEconomics.State, Reconciles, DistinctEngines, LedgersAre, LedgerIs;
    refused, closed := false, states;
    var todo := engines.Keys;
    while todo != {}
      invariant todo <= engines.Keys && !refused
      invariant Holds(engines, closed) && AllSound(closed) && CountsOnce(closed, seen, records, reports)
      invariant LedgersAre(closed, seen, records, reports)
      invariant forall k :: k in engines && k !in todo ==> closed[k].pool == map[]
      decreases todo
    {
      var key :| key in todo;
      AllocateOneDay(closed, key, seen, records, reports);
      AllocateKeepsLedgers(closed, key, seen, records, reports);
      var one := AllocateDay(engines, key, closed);
      refused := refused || one;
      closed := closed[key := Settlement.Allocate(closed[key])];
      todo := todo - {key};
    }
  }

  // ----- The rows of the result -----

  datatype DayRow = DayRow(sold: real, returned: real, revenue: real, buyer: real, mpCost: real)

  /** What the marketplace costs: the commission and every expense but advertising. */
  const COSTS: seq<Column> :=
    [Delivery, Partners, Promotion, Fbo, OtherServices, Compensation, OtherAccruals,
     Acquiring, Logistics, ReverseLogistics, Storage, CrossDocking]

  function RowOfDay(row: Row): DayRow {
    DayRow(Get(row, SalesQty) + Get(row, SalesCis), -Get(row, ReturnsQty), Get(row, Revenue), Get(row, BuyerRevenue),
           Get(row, Commission) + SumColumns(row, COSTS))
  }

  /** One row for every article; the row without one is left out. */
  function DayRows(rows: Rows): map<string, DayRow> {
    map sku | sku in rows && sku != UNALLOCATED :: RowOfDay(rows[sku])
  }

  type Result = map<Key, map<string, DayRow>>

  method ReadRows(engine: AccrualEconomics) returns (rows: map<string, DayRow>)
    ensures rows == DayRows(engine.State().rows)
  {
    hide RowOfDay;
    rows := map[];
    var todo := engine.rows.Keys;
    while todo != {}
      invariant todo <= engine.rows.Keys
      invariant rows == map sku | sku in engine.rows && sku !in todo && sku != UNALLOCATED :: RowOfDay(engine.rows[sku])
      decreases todo
    {
      var sku :| sku in todo;
      if sku != UNALLOCATED { rows := rows[sku := RowOfDay(engine.rows[sku])]; }
      todo := todo - {sku};
    }
  }

  method ReadResult(engines: map<Key, AccrualEconomics>, ghost states: map<Key, Books>) returns (result: Result)
    requires Holds(engines, states)
    ensures result == map key | key in states :: DayRows(states[key].rows)
  {
    hide AccrualEconomics.State, DayRows, DistinctEngines;
    result := map[];
    var todo := engines.Keys;
    while todo != {}
      invariant todo <= engines.Keys
      invariant result == map key | key in states && key !in todo :: DayRows(states[key].rows)
      decreases todo
    {
      var key :| key in todo;
      var rows := ReadRows(engines[key]);
      result := result[key := rows];
      todo := todo - {key};
    }
  }

  /** What the records of the day book in a column of the article, and the foreign sales first reported
      on it. */
  ghost function DayCell(seen: map<string, map<Key, Buyout>>, records: seq<Record>, reports: seq<Report>,
                         key: Key, sku: string, c: Column): real {
    RecordsCell(records, key.0, key.1, sku, c) + Shifted(TakenOn(SeenOf(seen, key.0), reports, key.0, key.1), sku, c)
  }

  ghost predicate IsDayRow(row: DayRow, cell: Column -> real) {
    && row.sold == cell(SalesQty) + cell(SalesCis)
    && row.returned == -cell(ReturnsQty)
    && row.revenue == cell(Revenue)
    && row.buyer == cell(BuyerRevenue)
    && row.mpCost == cell(Commission) + cell(Delivery) + cell(Partners) + cell(Promotion) + cell(Fbo) +
         cell(OtherServices) + cell(Compensation) + cell(OtherAccruals) + cell(Acquiring) + cell(Logistics) +
         cell(ReverseLogistics) + cell(Storage) + cell(CrossDocking)
  }

  predicate Shows(seen: map<string, map<Key, Buyout>>, records: seq<Record>, reports: seq<Report>, key: Key, sku: string) {
    sku != UNALLOCATED &&
    (RecordsName(records, key.0, key.1, sku) || TakenOf(TakenOn(SeenOf(seen, key.0), reports, key.0, key.1), sku))
  }

  /** The result has the days of the records and reports; a day has the articles that its records name or
      its reports bring; and each row shows what those records and reports book. */
  ghost predicate ResultIs(result: Result, seen: map<string, map<Key, Buyout>>, records: seq<Record>, reports: seq<Report>) {
    && (forall account, day :: (account, day) in result <==> HasDay(records, reports, account, day))
    && (forall key, sku :: key in result ==> (sku in result[key] <==> Shows(seen, records, reports, key, sku)))
    && (forall key, sku :: key in result && sku in result[key] ==>
          IsDayRow(result[key][sku], c => DayCell(seen, records, reports, key, sku, c)))
  }

  lemma {:induction false} ColumnsConcat(row: Row, a: seq<Column>, b: seq<Column>)
    ensures SumColumns(row, a + b) == SumColumns(row, a) + SumColumns(row, b)
  {
    hide Get;
    if a == [] {
      assert a + b == b;
    } else {
      assert (a + b)[1..] == a[1..] + b;
      ColumnsConcat(row, a[1..], b);
    }
  }

  lemma FourColumns(row: Row, p: Column, q: Column, r: Column, s: Column)
    ensures SumColumns(row, [p, q, r, s]) == Get(row, p) + Get(row, q) + Get(row, r) + Get(row, s)
  {
    hide Get;
    assert [p, q, r, s][1..] == [q, r, s] && [q, r, s][1..] == [r, s] && [r, s][1..] == [s] && [s][1..] == [];
    assert SumColumns(row, [s]) == Get(row, s);
    assert SumColumns(row, [r, s]) == Get(row, r) + SumColumns(row, [s]);
    assert SumColumns(row, [q, r, s]) == Get(row, q) + SumColumns(row, [r, s]);
  }

  lemma CostsAre(row: Row)
    ensures SumColumns(row, COSTS) ==
      Get(row, Delivery) + Get(row, Partners) + Get(row, Promotion) + Get(row, Fbo) + Get(row, OtherServices) +
      Get(row, Compensation) + Get(row, OtherAccruals) + Get(row, Acquiring) + Get(row, Logistics) +
      Get(row, ReverseLogistics) + Get(row, Storage) + Get(row, CrossDocking)
  {
    hide Get, SumColumns;
    var a, b := [Delivery, Partners, Promotion, Fbo], [OtherServices, Compensation, OtherAccruals, Acquiring];
    var c := [Logistics, ReverseLogistics, Storage, CrossDocking];
    assert COSTS == a + b + c;
    ColumnsConcat(row, a, b);
    ColumnsConcat(row, a + b, c);
    FourColumns(row, Delivery, Partners, Promotion, Fbo);
    FourColumns(row, OtherServices, Compensation, OtherAccruals, Acquiring);
    FourColumns(row, Logistics, ReverseLogistics, Storage, CrossDocking);
  }

  lemma RowShowsTheDay(b: Books, taken: map<Key, Taking>, records: seq<Record>, account: string, day: string, sku: string)
    requires LedgerIs(b, taken, records, account, day) && sku in b.rows && sku != UNALLOCATED
    ensures IsDayRow(RowOfDay(b.rows[sku]), c => RecordsCell(records, account, day, sku, c) + Shifted(taken, sku, c))
  {
    hide Shifted, RecordsCell, Get, SumColumns, MoneyIs, ArticlesAre;
    CostsAre(b.rows[sku]);
    forall c ensures Get(b.rows[sku], c) == RecordsCell(records, account, day, sku, c) + Shifted(taken, sku, c) {
      assert CellOf(b, sku, c) == Get(RowOf(b.rows, sku), c);
    }
  }

  lemma ResultShowsTheDays(states: map<Key, Books>, seen: map<string, map<Key, Buyout>>, records: seq<Record>,
                           reports: seq<Report>, result: Result)
    requires LedgersAre(states, seen, records, reports) && DaysAre(states, records, reports)
    requires result == map key | key in states :: DayRows(states[key].rows)
    ensures ResultIs(result, seen, records, reports)
  {
    hide HasDay, LedgerIs, RecordsName, TakenOf, RowOfDay, IsDayRow, RecordsCell, Shifted;
    forall key, sku | key in result
      ensures sku in result[key] <==> Shows(seen, records, reports, key, sku)
      ensures sku in result[key] ==> IsDayRow(result[key][sku], c => DayCell(seen, records, reports, key, sku, c))
    {
      var b, taken := states[key], TakenOn(SeenOf(seen, key.0), reports, key.0, key.1);
      assert LedgerIs(StateOf(states, (key.0, key.1)), taken, records, key.0, key.1);
      ArticlesOfLedger(b, taken, records, key.0, key.1, sku);
      if sku in b.rows && sku != UNALLOCATED {
        RowShowsTheDay(b, taken, records, key.0, key.1, sku);
        SameRow(RowOfDay(b.rows[sku]), c => RecordsCell(records, key.0, key.1, sku, c) + Shifted(taken, sku, c),
                c => DayCell(seen, records, reports, key, sku, c));
      }
    }
  }

  lemma SameRow(row: DayRow, f: Column -> real, g: Column -> real)
    requires IsDayRow(row, f) && forall c :: f(c) == g(c)
    ensures IsDayRow(row, g)
  {
  }

  lemma ArticlesOfLedger(b: Books, taken: map<Key, Taking>, records: seq<Record>, account: string, day: string, sku: string)
    requires LedgerIs(b, taken, records, account, day)
    ensures sku != UNALLOCATED ==> (sku in b.rows <==> RecordsName(records, account, day, sku) || TakenOf(taken, sku))
  {
  }

  /** Finance by account and day. It fails exactly when a report cannot be read or two lines of an
      account contradict each other; otherwise every day reconciles, and the buyer money of all days
      of an account is what its accruals say plus the receipt of each distinct foreign sale, once:
      `seen` holds a record for every foreign line of the account, with the line's own amounts, and
      no other record. Each ledger, and each row of the result, holds what the records of its account
      and day say, and the foreign sales that a report of that day was the first to name. */
  method FinanceDays(records: seq<Record>, reports: seq<Report>)
    returns (ok: bool, result: Result, engines: map<Key, AccrualEconomics>, seen: map<string, map<Key, Buyout>>,
             ghost states: map<Key, Books>)
    requires EveryRecordDated(records)
    ensures ok <==> AllAcceptable(records, reports) && Consistent(records, reports)
    ensures ok ==> Holds(engines, states) && AllSound(states) && CountsOnce(states, seen, records, reports)
    ensures ok ==> LinesAreSeen(seen, records, reports) && SeenIsFromLines(seen, records, reports)
    ensures ok ==> LedgersAre(states, seen, records, reports) && DaysAre(states, records, reports)
    ensures ok ==> ResultIs(result, seen, records, reports)
    ensures ok ==> forall k :: k in engines ==> engines[k].State().pool == map[]
  {
    hide AllSound, CountsOnce, AllAcceptable, Consistent, Settled, AccrualEconomics.State, LinesAreSeen, SeenIsFromLines,
      LedgersAre, DaysAre, ResultIs, DayRows;
    result := map[];
    engines, states := BookRecords(records);
    ok, engines, seen, states := BookReports(engines, records, reports, states);
    if ok {
      SettledCountsOnce(states, seen, records, reports);
      var refused;
      ghost var before := states;
      refused, states := AllocateDays(engines, seen, records, reports, states);
      SameDays(before, states, records, reports);
      ok := !refused;
      result := ReadResult(engines, states);
      ResultShowsTheDays(states, seen, records, reports, result);
    }
  }

  lemma SameDays(states: map<Key, Books>, closed: map<Key, Books>, records: seq<Record>, reports: seq<Report>)
    requires DaysAre(states, records, reports) && closed.Keys == states.Keys
    ensures DaysAre(closed, records, reports)
  {
    hide HasDay;
  }
}
