/** The mutable ledger: every method updates the books in place and is proved against the
    postings of module `Accruals` and its companions. */
module AccrualEconomicsClass {
  import opened Wrappers
  import opened Sums
  import opened Ledger
  import opened Accruals
  import opened PayloadCells
  import opened Buyouts
  import opened BuyoutLedger
  import opened Settlement

  class AccrualEconomics {
    var rows: Rows
    var pool: map<Column, real>
    var rawTotal: real
    var operations: nat
    var saleDays: Days
    var campaignCharges: map<Key, real>
    var domesticSales: map<Key, Sale>
    var buyoutReceipts: real
    var buyoutOverlapCount: nat
    var cisSaleDays: Days
    var seenBuyouts: map<Key, Buyout>
    var runningNet: real

    ghost function State(): Books
      reads this
    {
      Books(rows, pool, rawTotal, operations, saleDays, campaignCharges, domesticSales,
            buyoutReceipts, buyoutOverlapCount, cisSaleDays, seenBuyouts, runningNet)
    }

    constructor ()
      ensures State() == EMPTY
    {
      rows, pool, rawTotal, operations := map[], map[], 0.0, 0;
      saleDays, campaignCharges, domesticSales := map[], map[], map[];
      buyoutReceipts, buyoutOverlapCount, cisSaleDays, seenBuyouts := 0.0, 0, map[], map[];
      runningNet := 0.0;
    }

    // ----- Single postings -----

    method AddTo(sku: string, c: Column, x: real)
      modifies this`rows
      ensures State() == Post(old(State()), ToRow(sku, c, x))
    {
      rows := Bump(rows, sku, c, x);
    }

    method AddToPool(c: Column, x: real)
      modifies this`pool
      ensures State() == Post(old(State()), ToPool(c, x))
    {
      pool := pool[c := At(pool, c) + x];
    }

    method AddToMonth(sku: string, month: string, x: real)
      modifies this`saleDays
      ensures State() == Post(old(State()), ToMonth(sku, month, x))
    {
      saleDays := BumpDay(saleDays, sku, month, x);
    }

    method AddToCisMonth(sku: string, month: string, x: real)
      modifies this`cisSaleDays
      ensures State() == Post(old(State()), ToCisMonth(sku, month, x))
    {
      cisSaleDays := BumpDay(cisSaleDays, sku, month, x);
    }

    method AddToDomestic(key: Key, quantity: real, gross: real, receipt: real, deduction: real)
      modifies this`domesticSales
      ensures State() == Post(old(State()), ToDomestic(key, Sale(quantity, gross, receipt, deduction)))
    {
      var sale := SaleOf(domesticSales, key);
      domesticSales := domesticSales[key := Sale(sale.quantity + quantity, sale.gross + gross,
                                                 sale.receipt + receipt, sale.deduction + deduction)];
    }

    method AddToCampaign(key: Key, x: real)
      modifies this`campaignCharges
      ensures State() == Post(old(State()), ToCampaign(key, x))
    {
      campaignCharges := campaignCharges[key := At(campaignCharges, key) + x];
    }

    // ----- Accruals -----

    method Fee(sku: string, fee: Fee) returns (amount: real)
      modifies this`rows, this`pool
      ensures State() == Post(old(State()), FeePosting(sku, fee))
      ensures amount == fee.accrued
      ensures forall c :: Belongs(fee.typeId, c) ==>
        if sku != "" then Get(RowOf(rows, sku), c) == Get(RowOf(old(rows), sku), c) - fee.accrued && pool == old(pool)
        else At(pool, c) == At(old(pool), c) - fee.accrued && rows == old(rows)
    {
      hide Category, Belongs;
      forall c ensures Belongs(fee.typeId, c) <==> c == Category(fee.typeId) { FeesGoWhereTheyBelong(fee.typeId, c); }
      amount := fee.accrued;
      if sku != "" {
        AddTo(sku, Category(fee.typeId), -amount);
      } else {
        AddToPool(Category(fee.typeId), -amount);
      }
    }

    method Fees(sku: string, fees: seq<Fee>) returns (total: real)
      modifies this`rows, this`pool
      ensures State() == PostAll(old(State()), FeeJournal(sku, fees))
      ensures total == SumFees(fees)
    {
      hide Belongs, Category;
      total := 0.0;
      for i := 0 to |fees|
        invariant State() == PostAll(old(State()), FeeJournal(sku, fees[..i]))
        invariant total == SumFees(fees[..i])
      {
        var amount := Fee(sku, fees[i]);
        total := total + amount;
        assert fees[..i + 1][..i] == fees[..i];
        PostOne(old(State()), FeeJournal(sku, fees[..i]), FeePosting(sku, fees[i]));
      }
      assert fees[..|fees|] == fees;
    }

    /** The row postings of a sale or a return. */
    method AddSaleRow(line: Line, month: string)
      modifies this`rows, this`saleDays
      ensures State() == PostAll(old(State()), SaleCore(line, month))
    {
      hide Post, PostAll;
      var sku, revenue := line.sku, line.saleAmount;
      var signed := if revenue < 0.0 then -line.quantity else line.quantity;
      var buyer := Abs(line.salePrice) * signed;
      assert signed == SignedQuantity(line) && buyer == BuyerMoney(line);
      ghost var start := State();
      AddTo(sku, if revenue > 0.0 then SalesQty else ReturnsQty, signed);
      AddTo(sku, Revenue, revenue);
      AddTo(sku, BuyerRevenue, buyer);
      AddTo(sku, RevenueRf, revenue);
      AddTo(sku, BuyerRf, buyer);
      AddTo(sku, CommissionRf, -line.commission);
      AddToMonth(sku, month, buyer);
      AddTo(sku, Commission, -line.commission);
      EightPosts(start, SaleCore(line, month));
    }

    /** The sale or return of one product line. */
    method AddSaleOf(line: Line, date: Option<string>, unit: Option<string>)
      requires line.saleAmount != 0.0 && date.Some?
      modifies this`rows, this`saleDays, this`domesticSales
      ensures State() == PostAll(old(State()), SaleJournal(line, Month(Printed(date)), unit))
    {
      hide Post, PostAll, SaleCore;
      ghost var start, core := State(), SaleCore(line, Month(date.value));
      AddSaleRow(line, Month(date.value));
      if line.saleAmount > 0.0 && unit.Some? && unit.value != "" {
        var receipt := Abs(line.salePrice) * line.quantity;
        assert Sale(line.quantity, line.saleAmount, receipt, -line.commission) == DomesticSale(line);
        AddToDomestic((unit.value, line.sku), line.quantity, line.saleAmount, receipt, -line.commission);
        PostOne(start, core, ToDomestic((unit.value, line.sku), DomesticSale(line)));
      } else {
        assert core + [] == core;
      }
    }

    /** One product line of the payload, and the part of the total it explains. */
    method AddLine(line: Line, p: Payload) returns (delta: real)
      requires line.sku != "" && line.saleAmount != 0.0 ==> p.date.Some?
      modifies this`rows, this`pool, this`saleDays, this`domesticSales
      ensures State() == PostAll(old(State()), LineJournal(line, p))
      ensures delta == JournalNet(LineJournal(line, p))
    {
      hide Post, PostAll, JournalNet, SaleJournal, FeeJournal;
      delta := 0.0;
      LineNet(line, p);
      if line.sku == "" {
        NoPostings(State());
        return;
      }
      ghost var start, sale := State(), SaleJournal(line, Month(Printed(p.date)), p.unit);
      if line.saleAmount != 0.0 {
        AddSaleOf(line, p.date, p.unit);
        delta := delta + line.saleAmount + line.commission;
      } else {
        NoSale(line, p);
      }
      NoPostings(start);
      var services := Fees(line.sku, line.services);
      PostConcat(start, sale, FeeJournal(line.sku, line.services));
      var difference := line.totalAccrued - services;
      AddTo(line.sku, OtherServices, -difference);
      PostOne(start, sale + FeeJournal(line.sku, line.services), ToRow(line.sku, OtherServices, -difference));
      delta := delta + services + difference;
    }

    /** Adds one payload. The running delta is never compared with the rows, and still the books
        end up as if the remainder had been found by re-scanning everything posted. */
    method Add(p: Payload)
      requires Dated(p)
      modifies this
      ensures State() == Accruals.Add(old(State()), p)
    {
      hide Post, PostAll, ExplainedJournal, JournalNet, Dated;
      ghost var b := State();
      rawTotal := rawTotal + p.total;
      operations := operations + 1;
      ghost var start := State();
      var delta := AddExplained(p);
      var remainder := p.total - delta;
      AddToPool(OtherAccruals, -remainder);
      PostOne(start, ExplainedJournal(p), ToPool(OtherAccruals, -remainder));
      PostingsOnlyPost(start, AddJournal(p));
      runningNet := runningNet + p.total;
      PostIgnoresTotals(b, AddJournal(p), rawTotal, operations, b.runningNet);
    }

    /** Posts everything the payload explains and returns its sum, kept step by step. */
    method AddExplained(p: Payload) returns (delta: real)
      requires Dated(p)
      modifies this
      ensures State() == PostAll(old(State()), ExplainedJournal(p))
      ensures delta == JournalNet(ExplainedJournal(p))
    {
      hide Post, PostAll, LinesJournal, ItemFeesJournal, NonItemJournal, FeeJournal, JournalNet, FeePosting, Dated;
      ghost var start := State();
      ghost var lines, items := LinesJournal(p.products, p), ItemFeesJournal(p.itemFees);
      delta := AddLines(p);
      delta := AddItemFees(p, delta);
      PostConcat(start, lines, items);
      JournalNetConcat(lines, items);
      delta := AddNonItemFee(p, delta);
      PostConcat(start, lines + items, NonItemJournal(p));
      JournalNetConcat(lines + items, NonItemJournal(p));
      var container := Fees("", p.containerFees);
      delta := delta + container;
      PostConcat(start, lines + items + NonItemJournal(p), FeeJournal("", p.containerFees));
      JournalNetConcat(lines + items + NonItemJournal(p), FeeJournal("", p.containerFees));
      FeesNet("", p.containerFees);
    }

    method AddLines(p: Payload) returns (delta: real)
      requires Dated(p)
      modifies this`rows, this`pool, this`saleDays, this`domesticSales
      ensures State() == PostAll(old(State()), LinesJournal(p.products, p))
      ensures delta == JournalNet(LinesJournal(p.products, p))
    {
      delta := 0.0;
      for i := 0 to |p.products|
        invariant State() == PostAll(old(State()), LinesJournal(p.products[..i], p))
        invariant delta == JournalNet(LinesJournal(p.products[..i], p))
      {
        var one := AddLine(p.products[i], p);
        delta := delta + one;
        assert p.products[..i + 1][..i] == p.products[..i];
        PostConcat(old(State()), LinesJournal(p.products[..i], p), LineJournal(p.products[i], p));
        JournalNetConcat(LinesJournal(p.products[..i], p), LineJournal(p.products[i], p));
      }
      assert p.products[..|p.products|] == p.products;
    }

    method AddItemFees(p: Payload, before: real) returns (delta: real)
      modifies this`rows, this`pool
      ensures State() == PostAll(old(State()), ItemFeesJournal(p.itemFees))
      ensures delta == before + JournalNet(ItemFeesJournal(p.itemFees))
    {
      delta := before;
      for i := 0 to |p.itemFees|
        invariant State() == PostAll(old(State()), ItemFeesJournal(p.itemFees[..i]))
        invariant delta == before + JournalNet(ItemFeesJournal(p.itemFees[..i]))
      {
        var item := p.itemFees[i];
        var fees := Fees(item.sku, item.fees);
        delta := delta + fees;
        assert p.itemFees[..i + 1][..i] == p.itemFees[..i];
        PostConcat(old(State()), ItemFeesJournal(p.itemFees[..i]), FeeJournal(item.sku, item.fees));
        JournalNetConcat(ItemFeesJournal(p.itemFees[..i]), FeeJournal(item.sku, item.fees));
        FeesNet(item.sku, item.fees);
      }
      assert p.itemFees[..|p.itemFees|] == p.itemFees;
    }

    method AddNonItemFee(p: Payload, before: real) returns (delta: real)
      modifies this`rows, this`pool, this`campaignCharges
      ensures State() == PostAll(old(State()), NonItemJournal(p))
      ensures delta == before + JournalNet(NonItemJournal(p))
    {
      hide Belongs, Category;
      delta := before;
      NonItemNet(p);
      if p.nonItemFee.Some? {
        var fee := p.nonItemFee.value;
        ghost var start := State();
        var amount := Fee("", fee);
        delta := delta + amount;
        PostOne(start, [], FeePosting("", fee));
        assert [] + [FeePosting("", fee)] == [FeePosting("", fee)];
        if fee.typeId in CAMPAIGN_TYPES {
          var key := (Printed(p.date), Printed(p.unit));
          AddToCampaign(key, -fee.accrued);
          PostOne(start, [FeePosting("", fee)], ToCampaign(key, -fee.accrued));
        }
        assert [FeePosting("", fee)] + [] == [FeePosting("", fee)];
      }
    }

    // ----- The re-scan -----

    /** The net total, computed from every row and the pool. */
    method NetOfBooks() returns (net: real)
      ensures net == Net(rows, pool)
    {
      net := 0.0;
      var todo := rows.Keys;
      ghost var nets := RowNets(rows);
      TotalOfRowNets(rows);
      assert nets - (rows.Keys - todo) == nets;
      while todo != {}
        invariant todo <= rows.Keys
        invariant net + SumMap(nets - (rows.Keys - todo)) == SumMap(nets)
        decreases todo
      {
        var sku :| sku in todo;
        net := net + RowNet(rows[sku]);
        SumMapRemove(nets - (rows.Keys - todo), sku);
        assert nets - (rows.Keys - todo) - {sku} == nets - (rows.Keys - (todo - {sku}));
        todo := todo - {sku};
      }
      assert nets - rows.Keys == map[];
      var columns := pool.Keys;
      assert nets - (rows.Keys - {}) == map[];
      assert Total(rows, RowNet) == SumMap(nets) == net;
      assert pool - (pool.Keys - columns) == pool;
      while columns != {}
        invariant columns <= pool.Keys
        invariant net - SumMap(pool - (pool.Keys - columns)) == Net(rows, pool)
        decreases columns
      {
        var c :| c in columns;
        net := net - pool[c];
        SumMapRemove(pool - (pool.Keys - columns), c);
        assert pool - (pool.Keys - columns) - {c} == pool - (pool.Keys - (columns - {c}));
        columns := columns - {c};
      }
      assert pool - pool.Keys == map[];
    }

    // ----- Buyouts -----

    /** Adds one buyout report. A refused report changes nothing; a record that contradicts one
        seen before ends the run after the records in front of it. */
    method AddBuyouts(day: string, products: Option<seq<ReportLine>>) returns (r: Result<(), Option<Problem>>)
      modifies this
      ensures (r.Err? && r.error.Some?) <==> !AcceptableReport(products)
      ensures !AcceptableReport(products) ==> State() == old(State())
      ensures AcceptableReport(products) ==>
        BooksReport(old(State()), day, products.value, if r.Ok? then Done(State()) else Conflict(State()))
    {
      var parsed := ParseBuyouts(products);
      if parsed.Err? {
        return Err(Some(parsed.error));
      }
      var records := parsed.value;
      var i := 0;
      ghost var b, events := State(), EventsOf(day, records);
      while i < |records|
        invariant 0 <= i <= |records|
        invariant ApplyAll(b, events[..i]) == Done(State())
      {
        var conflict := AddBuyout(day, records[i]);
        NextEvent(b, day, records, i);
        i := i + 1;
        if conflict {
          ConflictStays(b, events, i);
          return Err(None);
        }
      }
      assert events[..i] == events;
      return Ok(());
    }

    method AddBuyout(day: string, record: Buyout) returns (conflict: bool)
      modifies this
      ensures Apply(old(State()), Event(day, record)) == if conflict then Conflict(State()) else Done(State())
    {
      hide Post, PostAll, MoveJournal, OwnJournal;
      var identity, sku := record.Id(), record.sku;
      if identity in seenBuyouts {
        if seenBuyouts[identity] != record {
          return true;
        }
        buyoutOverlapCount := buyoutOverlapCount + 1;
        return false;
      }
      seenBuyouts := seenBuyouts[identity := record];
      if identity in domesticSales {
        buyoutOverlapCount := buyoutOverlapCount + 1;
        MoveSale(sku, domesticSales[identity]);
        return false;
      }
      ghost var start := State();
      BookOwn(day, record);
      PostingsOnlyPost(start, OwnJournal(Event(day, record)));
      buyoutReceipts := buyoutReceipts + record.receipt;
      rawTotal := rawTotal + record.receipt;
      return false;
    }

    /** Moves a recorded domestic sale to the foreign side of its row. */
    method MoveSale(sku: string, original: Sale)
      modifies this`rows
      ensures State() == PostAll(old(State()), MoveJournal(sku, original))
    {
      hide Post, PostAll;
      ghost var start := State();
      AddTo(sku, SalesQty, -original.quantity);
      AddTo(sku, SalesCis, original.quantity);
      AddTo(sku, RevenueRf, -original.gross);
      AddTo(sku, RevenueCis, original.gross);
      AddTo(sku, BuyerRf, -original.receipt);
      AddTo(sku, BuyerCis, original.receipt);
      AddTo(sku, CommissionRf, -original.deduction);
      AddTo(sku, CommissionCis, original.deduction);
      EightPosts(start, MoveJournal(sku, original));
    }

    /** Books a record with its own amounts. */
    method BookOwn(day: string, record: Buyout)
      modifies this`rows, this`saleDays, this`cisSaleDays
      ensures State() == PostAll(old(State()), OwnJournal(Event(day, record)))
    {
      hide Post, PostAll;
      var sku := record.sku;
      ghost var start, j := State(), OwnJournal(Event(day, record));
      AddTo(sku, SalesCis, record.quantity);
      AddTo(sku, Revenue, record.gross);
      AddTo(sku, RevenueCis, record.gross);
      AddTo(sku, BuyerRevenue, record.receipt);
      AddTo(sku, BuyerCis, record.receipt);
      AddTo(sku, Commission, record.deduction);
      AddTo(sku, CommissionCis, record.deduction);
      AddToMonth(sku, Month(day), record.receipt);
      EightPosts(start, j[..8]);
      AddToCisMonth(sku, Month(day), record.receipt);
      PostOne(start, j[..8], j[8]);
      assert j == j[..8] + [j[8]];
    }

    // ----- Settlement -----

    /** Charges the pool to the row without an article; refuses when the books do not reconcile. */
    method Allocate() returns (original: map<Column, real>, refused: bool)
      modifies this
      ensures State() == Settlement.Allocate(old(State()))
      ensures original == old(pool)
      ensures refused <==> !Reconciles(State())
    {
      original := pool;
      var todo := pool.Keys;
      ghost var row := RowOf(rows, UNALLOCATED);
      ghost var base := rows;
      while todo != {}
        invariant todo <= original.Keys
        invariant State() == old(State()).(rows := rows)
        invariant rows == if NonZero(original) * (original.Keys - todo) == {} then base
                          else base[UNALLOCATED := ChargedSome(row, original, original.Keys - todo)]
        decreases todo
      {
        var key :| key in todo;
        var amount := original[key];
        if amount != 0.0 {
          AddTo(UNALLOCATED, key, amount);
        }
        ChargeNext(base, original, original.Keys - todo, key);
        assert original.Keys - (todo - {key}) == original.Keys - todo + {key};
        todo := todo - {key};
      }
      assert original.Keys - {} == original.Keys && NonZero(original) * original.Keys == NonZero(original);
      assert ChargedSome(row, original, original.Keys) == Charged(row, original);
      pool := map[];
      var net := NetOfBooks();
      refused := net - rawTotal > CENT || rawTotal - net > CENT;
    }

    /** Links advertising costs to articles wherever a campaign charge was booked for that day. */
    method BindAdCosts(records: seq<AdRecord>) returns (linked: real, matched: set<Key>, refused: bool)
      modifies this
      ensures State() == Bind(old(State()), records)
      ensures linked == Linked(old(State()), records)
      ensures forall key :: key in matched <==>
        exists i :: 0 <= i < |records| && Links(old(State()), records[i]) && records[i].Id() == key
      ensures refused <==> !Reconciles(State())
    {
      hide Post, Bump;
      linked, matched := 0.0, {};
      ghost var b := State();
      for i := 0 to |records|
        invariant State() == Bind(b, records[..i])
        invariant campaignCharges == b.campaignCharges
        invariant linked == Linked(b, records[..i])
        invariant forall key :: key in matched <==>
          exists k :: 0 <= k < i && Links(b, records[k]) && records[k].Id() == key
      {
        var r := records[i];
        assert records[..i + 1][..i] == records[..i];
        assert Links(b, r) <==> r.Id() in campaignCharges && r.cost != 0.0;
        if r.Id() in campaignCharges && r.cost != 0.0 {
          TwoRowPosts(State(), r.sku, UNALLOCATED, Marketing, r.cost);
          AddTo(r.sku, Marketing, r.cost);
          AddTo(UNALLOCATED, Marketing, -r.cost);
          linked := linked + r.cost;
          matched := matched + {r.Id()};
        }
      }
      assert records[..|records|] == records;
      var net := NetOfBooks();
      refused := net - rawTotal > CENT || rawTotal - net > CENT;
    }

    method AddStandardizedSale(s: StandardSale)
      modifies this
      ensures State() == AddStandard(old(State()), s)
    {
      hide Post, PostAll, SevenJournal;
      ghost var b := State();
      operations := operations + 1;
      ghost var start := State();
      var sku := ArticleOr(s.sku);
      var counter := if s.qty >= 0.0 then SalesQty else ReturnsQty;
      ghost var sale := SevenJournal(sku, counter, s.qty, s.revenue, s.buyerRevenue, s.commission);
      AddSeven(sku, counter, s.qty, s.revenue, s.buyerRevenue, s.commission);
      AddTo(sku, Acquiring, s.acquiring);
      PostOne(start, sale, ToRow(sku, Acquiring, s.acquiring));
      AddTo(sku, Logistics, s.logistics);
      PostOne(start, sale + [ToRow(sku, Acquiring, s.acquiring)], ToRow(sku, Logistics, s.logistics));
      ghost var j := StandardJournal(s);
      assert j == sale + [ToRow(sku, Acquiring, s.acquiring)] + [ToRow(sku, Logistics, s.logistics)];
      PostingsOnlyPost(start, j);
      PostingsOnlyPost(b, j);
      PostIgnoresTotals(b, j, b.rawTotal, operations, b.runningNet);
      rawTotal := rawTotal + s.revenue - s.commission - s.acquiring - s.logistics;
    }

    method ChargeIf(sku: string, c: Column, x: real)
      modifies this
      ensures State() == PostAll(old(State()), Charge(sku, c, x)).(rawTotal := old(rawTotal) - x)
    {
      PostOne(State(), [], ToRow(sku, c, x));
      assert [] + [ToRow(sku, c, x)] == [ToRow(sku, c, x)];
      if x != 0.0 {
        AddTo(sku, c, x);
        rawTotal := rawTotal - x;
      }
    }

    /** Adds one realisation line. */
    method AddWbRealizationRow(w: WbLine)
      modifies this
      ensures State() == AddWb(old(State()), w)
    {
      hide Post, PostAll, SevenJournal, Charge, Contains, Positive, Abs;
      ghost var b := State();
      operations := operations + 1;
      ghost var start := State();
      var sku, seller := w.Article(), w.SellerAmount();
      if w.IsSale() {
        var commission := Positive(seller - w.forPay);
        AddSeven(sku, SalesQty, w.quantity, seller, w.retailAmount, commission);
        rawTotal := rawTotal + w.forPay;
      } else if w.IsReturn() {
        var commission := Positive(Abs(seller) - Abs(w.forPay));
        AddSeven(sku, ReturnsQty, -Abs(w.quantity), -Abs(seller), -Abs(w.retailAmount), -commission);
        rawTotal := rawTotal - Abs(w.forPay);
      }
      PostingsOnlyPost(start, WbSaleJournal(w));
      NoPostings(start);
      ghost var raw := rawTotal;
      assert State() == PostAll(start, WbSaleJournal(w)).(rawTotal := raw);
      AddCharges(w, sku);
      WbAssembled(b, w, raw);
    }

    method AddSeven(sku: string, counter: Column, quantity: real, revenue: real, buyer: real, commission: real)
      modifies this`rows
      ensures State() == PostAll(old(State()), SevenJournal(sku, counter, quantity, revenue, buyer, commission))
    {
      ghost var start := State();
      AddTo(sku, counter, quantity);
      AddTo(sku, Revenue, revenue);
      AddTo(sku, RevenueRf, revenue);
      AddTo(sku, BuyerRevenue, buyer);
      AddTo(sku, BuyerRf, buyer);
      AddTo(sku, Commission, commission);
      AddTo(sku, CommissionRf, commission);
      SevenPosts(start, SevenJournal(sku, counter, quantity, revenue, buyer, commission));
    }

    method AddCharges(w: WbLine, sku: string)
      requires sku == w.Article()
      modifies this
      ensures State() == PostAll(old(State()), WbChargesJournal(w)).(rawTotal := old(rawTotal) -
        Abs(w.acquiring) - Abs(w.delivery) - Abs(w.storage) - Abs(w.acceptance) -
        (Abs(w.penalty) + Abs(w.deduction)) + w.additional)
    {
      hide Post, PostAll, Charge, Contains, Abs;
      ghost var b := State();
      ghost var j: seq<Posting> := [];
      NoPostings(b);
      var way := if w.IsReturn() then ReverseLogistics else Logistics;
      ChargeIf(sku, Acquiring, Abs(w.acquiring));
      j := ChargeJoins(b, j, Charge(sku, Acquiring, Abs(w.acquiring)), b.rawTotal);
      ghost var raw := rawTotal;
      ChargeIf(sku, way, Abs(w.delivery));
      j := ChargeJoins(b, j, Charge(sku, way, Abs(w.delivery)), raw);
      raw := rawTotal;
      ChargeIf(sku, Storage, Abs(w.storage));
      j := ChargeJoins(b, j, Charge(sku, Storage, Abs(w.storage)), raw);
      raw := rawTotal;
      ChargeIf(sku, CrossDocking, Abs(w.acceptance));
      j := ChargeJoins(b, j, Charge(sku, CrossDocking, Abs(w.acceptance)), raw);
      raw := rawTotal;
      ChargeIf(sku, OtherServices, Abs(w.penalty) + Abs(w.deduction));
      j := ChargeJoins(b, j, Charge(sku, OtherServices, Abs(w.penalty) + Abs(w.deduction)), raw);
      raw := rawTotal;
      ChargeIf(sku, OtherServices, -w.additional);
      j := ChargeJoins(b, j, Charge(sku, OtherServices, -w.additional), raw);
      assert j == WbChargesJournal(w);
    }
  }

  // ----- Lemmas the methods use -----

  function EventsOf(day: string, records: seq<Buyout>): (r: seq<Event>)
    ensures |r| == |records| && forall i :: 0 <= i < |r| ==> r[i] == Event(day, records[i])
  {
    seq(|records|, i requires 0 <= i < |records| => Event(day, records[i]))
  }

  /** The records of the report's lines, in order, lead from the books to the outcome. */
  ghost predicate BooksReport(b: Books, day: string, lines: seq<ReportLine>, outcome: Outcome) {
    exists records :: RendersAll(lines, records) && ApplyAll(b, EventsOf(day, records)) == outcome
  }

  lemma NextEvent(b: Books, day: string, records: seq<Buyout>, i: nat)
    requires i < |records|
    ensures var events := EventsOf(day, records);
      var before := ApplyAll(b, events[..i]);
      ApplyAll(b, events[..i + 1]) ==
        if before.Conflict? then before else Apply(before.books, Event(day, records[i]))
  {
    var events := EventsOf(day, records);
    assert events[..i + 1][..i] == events[..i] && events[..i + 1][i] == Event(day, records[i]);
  }

  lemma TwoRowPosts(b: Books, one: string, other: string, c: Column, x: real)
    ensures Post(Post(b, ToRow(one, c, x)), ToRow(other, c, -x)) ==
            b.(rows := Bump(Bump(b.rows, one, c, x), other, c, -x))
  {
  }

  /** The two halves of a realisation line, with the totals set aside, make the whole. */
  lemma WbAssembled(b: Books, w: WbLine, raw: real)
    ensures var start := b.(operations := b.operations + 1);
      PostAll(PostAll(start, WbSaleJournal(w)).(rawTotal := raw), WbChargesJournal(w)) ==
      PostAll(b, WbJournal(w)).(operations := b.operations + 1, rawTotal := raw)
  {
    hide Post, PostAll, WbSaleJournal, WbChargesJournal;
    var start := b.(operations := b.operations + 1);
    var sale := PostAll(start, WbSaleJournal(w));
    PostingsOnlyPost(start, WbSaleJournal(w));
    PostingsOnlyPost(b, WbJournal(w));
    PostIgnoresTotals(sale, WbChargesJournal(w), raw, sale.operations, sale.runningNet);
    PostConcat(start, WbSaleJournal(w), WbChargesJournal(w));
    PostIgnoresTotals(b, WbJournal(w), b.rawTotal, b.operations + 1, b.runningNet);
  }

  lemma NoSale(line: Line, p: Payload)
    requires line.saleAmount == 0.0
    ensures SaleJournal(line, Month(Printed(p.date)), p.unit) == []
  {
  }

  lemma NoPostings(b: Books)
    ensures PostAll(b, []) == b
  {
  }

  lemma {:induction false} ConflictStays(b: Books, events: seq<Event>, n: nat)
    requires n <= |events| && ApplyAll(b, events[..n]).Conflict?
    ensures ApplyAll(b, events) == ApplyAll(b, events[..n])
  {
    if n == |events| {
      assert events[..n] == events;
    } else {
      assert events[..|events| - 1][..n] == events[..n];
      ConflictStays(b, events[..|events| - 1], n);
    }
  }

  lemma {:induction false} EightPosts(b: Books, j: seq<Posting>)
    requires |j| == 8
    ensures PostAll(b, j) == Post(Post(Post(Post(Post(Post(Post(Post(b, j[0]), j[1]), j[2]), j[3]), j[4]), j[5]), j[6]), j[7])
  {
    hide Post;
    SevenPosts(b, j[..7]);
  }

  lemma {:induction false} SevenPosts(b: Books, j: seq<Posting>)
    requires |j| == 7
    ensures PostAll(b, j) == Post(Post(Post(Post(Post(Post(Post(b, j[0]), j[1]), j[2]), j[3]), j[4]), j[5]), j[6])
  {
    hide Post;
    assert PostAll(b, j[..0]) == b;
    assert j[..1][..0] == j[..0] && j[..2][..1] == j[..1] && j[..3][..2] == j[..2];
    assert j[..4][..3] == j[..3] && j[..5][..4] == j[..4] && j[..6][..5] == j[..5];
    assert PostAll(b, j[..1]) == Post(b, j[0]);
    assert PostAll(b, j[..2]) == Post(PostAll(b, j[..1]), j[1]);
    assert PostAll(b, j[..3]) == Post(PostAll(b, j[..2]), j[2]);
    assert PostAll(b, j[..4]) == Post(PostAll(b, j[..3]), j[3]);
    assert PostAll(b, j[..5]) == Post(PostAll(b, j[..4]), j[4]);
    assert PostAll(b, j[..6]) == Post(PostAll(b, j[..5]), j[5]);
  }

  /** Postings neither read nor write the totals. */
  lemma {:induction false} PostIgnoresTotals(b: Books, journal: seq<Posting>, raw: real, operations: nat, net: real)
    ensures PostAll(b.(rawTotal := raw, operations := operations, runningNet := net), journal) ==
            PostAll(b, journal).(rawTotal := raw, operations := operations, runningNet := net)
  {
    if journal != [] {
      PostIgnoresTotals(b, journal[..|journal| - 1], raw, operations, net);
      PostingIgnoresTotals(PostAll(b, journal[..|journal| - 1]), journal[|journal| - 1], raw, operations, net);
    }
  }

  lemma PostingIgnoresTotals(b: Books, p: Posting, raw: real, operations: nat, net: real)
    ensures Post(b.(rawTotal := raw, operations := operations, runningNet := net), p) ==
            Post(b, p).(rawTotal := raw, operations := operations, runningNet := net)
  {
    match p case _ =>
  }

  lemma ChargeJoins(b: Books, journal: seq<Posting>, charge: seq<Posting>, raw: real) returns (all: seq<Posting>)
    ensures all == journal + charge
    ensures PostAll(PostAll(b, journal).(rawTotal := raw), charge) == PostAll(b, all).(rawTotal := raw)
  {
    all := journal + charge;
    PostConcat(b, journal, charge);
    var mid := PostAll(b, journal);
    PostIgnoresTotals(mid, charge, raw, mid.operations, mid.runningNet);
    PostingsOnlyPost(mid, charge);
    assert mid.(rawTotal := raw, operations := mid.operations, runningNet := mid.runningNet) == mid.(rawTotal := raw);
  }

  lemma {:induction false} FeesNet(sku: string, fees: seq<Fee>)
    ensures JournalNet(FeeJournal(sku, fees)) == SumFees(fees)
  {
    if fees != [] {
      var before, last := FeeJournal(sku, fees[..|fees| - 1]), FeePosting(sku, fees[|fees| - 1]);
      FeesNet(sku, fees[..|fees| - 1]);
      assert (before + [last])[..|before|] == before;
    }
  }

  lemma SaleNet(line: Line, month: string, unit: Option<string>)
    ensures JournalNet(SaleJournal(line, month, unit)) ==
      if line.saleAmount == 0.0 then 0.0 else line.saleAmount + line.commission
  {
    if line.saleAmount != 0.0 {
      SaleCoreNet(line, month);
      WeightlessJournal(DomesticJournal(line, unit));
      JournalNetConcat(SaleCore(line, month), DomesticJournal(line, unit));
    }
  }

  lemma OneNet(p: Posting)
    ensures JournalNet([p]) == NetOf(p)
  {
    assert [p][..0] == [];
  }

  lemma SaleCoreNet(line: Line, month: string)
    ensures JournalNet(SaleCore(line, month)) == line.saleAmount + line.commission
  {
    hide JournalNet;
    var j := SaleCore(line, month);
    SevenNet(j[..7]);
    OneNet(j[7]);
    JournalNetConcat(j[..7], [j[7]]);
    assert j == j[..7] + [j[7]];
  }

  lemma LineNet(line: Line, p: Payload)
    ensures JournalNet(LineJournal(line, p)) ==
      if line.sku == "" then 0.0
      else (if line.saleAmount == 0.0 then 0.0 else line.saleAmount + line.commission) + line.totalAccrued
  {
    hide SaleJournal, FeeJournal;
    if line.sku != "" {
      var sale := SaleJournal(line, Month(Printed(p.date)), p.unit);
      var rest := ToRow(line.sku, OtherServices, -(line.totalAccrued - SumFees(line.services)));
      SaleNet(line, Month(Printed(p.date)), p.unit);
      FeesNet(line.sku, line.services);
      ChargeNetAlways(line.sku, OtherServices, -(line.totalAccrued - SumFees(line.services)));
      JournalNetConcat(sale, FeeJournal(line.sku, line.services));
      JournalNetConcat(sale + FeeJournal(line.sku, line.services), [rest]);
    }
  }

  lemma NonItemNet(p: Payload)
    ensures JournalNet(NonItemJournal(p)) == if p.nonItemFee.Some? then p.nonItemFee.value.accrued else 0.0
  {
    hide JournalNet;
    if p.nonItemFee.Some? {
      var rest := NonItemJournal(p)[1..];
      OneNet(FeePosting("", p.nonItemFee.value));
      WeightlessJournal(rest);
      JournalNetConcat([FeePosting("", p.nonItemFee.value)], rest);
      assert NonItemJournal(p) == [FeePosting("", p.nonItemFee.value)] + rest;
    } else {
      EmptyNet();
    }
  }

  function ChargedSome(row: Row, pool: map<Column, real>, done: set<Column>): Row {
    map c | c in row.Keys + NonZero(pool) * done :: Get(row, c) + if c in done then At(pool, c) else 0.0
  }

  lemma ChargeNext(base: Rows, pool: map<Column, real>, done: set<Column>, key: Column)
    requires key in pool && key !in done && done <= pool.Keys
    ensures var row := RowOf(base, UNALLOCATED);
      var before := if NonZero(pool) * done == {} then base else base[UNALLOCATED := ChargedSome(row, pool, done)];
      var after := if NonZero(pool) * (done + {key}) == {} then base
                   else base[UNALLOCATED := ChargedSome(row, pool, done + {key})];
      after == if pool[key] == 0.0 then before else Bump(before, UNALLOCATED, key, pool[key])
  {
    var row := RowOf(base, UNALLOCATED);
    if pool[key] == 0.0 {
      assert NonZero(pool) * (done + {key}) == NonZero(pool) * done;
      assert ChargedSome(row, pool, done + {key}) == ChargedSome(row, pool, done);
    } else {
      var before := if NonZero(pool) * done == {} then row else ChargedSome(row, pool, done);
      NothingCharged(row, pool, done);
      assert key in NonZero(pool) * (done + {key});
      ChargedRows(row, pool, done, key);
      var rows := if NonZero(pool) * done == {} then base else base[UNALLOCATED := ChargedSome(row, pool, done)];
      assert RowOf(rows, UNALLOCATED) == before;
      assert rows[UNALLOCATED := ChargedSome(row, pool, done + {key})] == base[UNALLOCATED := ChargedSome(row, pool, done + {key})];
    }
  }

  lemma NothingCharged(row: Row, pool: map<Column, real>, done: set<Column>)
    requires done <= pool.Keys
    ensures NonZero(pool) * done == {} ==> ChargedSome(row, pool, done) == ChargedSome(row, pool, {})
    ensures ChargedSome(row, pool, {}) == row
  {
    if NonZero(pool) * done == {} {
      forall c | c in done ensures At(pool, c) == 0.0 {
        assert c !in NonZero(pool) * done;
      }
    }
  }

  lemma ChargedRows(row: Row, pool: map<Column, real>, done: set<Column>, key: Column)
    requires key in pool && key !in done && pool[key] != 0.0
    ensures ChargedSome(row, pool, done + {key}) == BumpRow(ChargedSome(row, pool, done), key, pool[key])
  {
    assert NonZero(pool) * (done + {key}) == NonZero(pool) * done + {key};
  }
}
