/** Whole Ozon runs: what every order of accruals, buyouts and settlement keeps. */
module OzonRuns {
  import opened Wrappers
  import opened Sums
  import opened Ledger
  import opened Accruals
  import opened BuyoutLedger
  import opened Settlement

  predicate OzonOp(op: Op) {
    (op.AddOp? || op.BuyoutsOp? || op.AllocateOp? || op.BindOp?) && HonestOp(op)
  }

  lemma BindKeepsBooksSound(b: Books, records: seq<AdRecord>)
    requires Sound(b)
    ensures Sound(Bind(b, records))
  {
    hide Bind, Net;
    var after := Bind(b, records);
    BindMovesMarketing(b, records, UNALLOCATED, Marketing);
    forall sku
      ensures RowSplits(RowOf(after.rows, sku))
      ensures SumMap(DayOf(after.saleDays, sku)) == Get(RowOf(after.rows, sku), BuyerRevenue)
    {
      BindKeepsSplits(b, records, sku);
    }
  }

  lemma BindKeepsSplits(b: Books, records: seq<AdRecord>, sku: string)
    requires RowSplits(RowOf(b.rows, sku))
    ensures RowSplits(RowOf(Bind(b, records).rows, sku))
    ensures Get(RowOf(Bind(b, records).rows, sku), BuyerRevenue) == Get(RowOf(b.rows, sku), BuyerRevenue)
  {
    hide Bind, Get, RowOf, Net, LinkedTo, Linked;
    BindMovesMarketing(b, records, sku, Revenue);
    BindMovesMarketing(b, records, sku, RevenueRf);
    BindMovesMarketing(b, records, sku, RevenueCis);
    BindMovesMarketing(b, records, sku, BuyerRevenue);
    BindMovesMarketing(b, records, sku, BuyerRf);
    BindMovesMarketing(b, records, sku, BuyerCis);
    BindMovesMarketing(b, records, sku, Commission);
    BindMovesMarketing(b, records, sku, CommissionRf);
    BindMovesMarketing(b, records, sku, CommissionCis);
  }

  /** After any sequence of Ozon operations, refused reports and conflicts included, the books
      balance exactly, every total is the sum of its domestic and foreign part, and the sale months
      of every article add up to its buyer revenue. */
  lemma {:induction false} OzonRunKeepsBooksSound(ops: seq<Op>)
    requires forall i :: 0 <= i < |ops| ==> OzonOp(ops[i])
    ensures Sound(Run(EMPTY, ops))
  {
    hide Sound, Step;
    if ops == [] {
      EmptyBooksBalance();
    } else {
      OzonRunKeepsBooksSound(ops[..|ops| - 1]);
      OzonStepKeepsBooksSound(Run(EMPTY, ops[..|ops| - 1]), ops[|ops| - 1]);
    }
  }

  lemma OzonStepKeepsBooksSound(b: Books, op: Op)
    requires Sound(b) && OzonOp(op)
    ensures Sound(Step(b, op))
  {
    hide Sound;
    match op
    case AddOp(p) => AddKeepsBooksSound(b, p);
    case BuyoutsOp(events) => RunKeepsBooksSound(b, events);
    case AllocateOp => AllocateKeepsBooksSound(b);
    case BindOp(records) => BindKeepsBooksSound(b, records);
  }

  // ----- Totals over all articles -----

  function JournalTotal(journal: seq<Posting>, c: Column): real {
    if journal == [] then 0.0
    else
      var p := journal[|journal| - 1];
      JournalTotal(journal[..|journal| - 1], c) + if p.ToRow? && p.column == c then p.amount else 0.0
  }

  lemma {:induction false} JournalTotalConcat(a: seq<Posting>, b: seq<Posting>, c: Column)
    ensures JournalTotal(a + b, c) == JournalTotal(a, c) + JournalTotal(b, c)
  {
    if b == [] {
      assert a + b == a;
    } else {
      JournalTotalConcat(a, b[..|b| - 1], c);
      assert (a + b)[..|a + b| - 1] == a + b[..|b| - 1];
    }
  }

  lemma {:induction false} TotalOfPosted(b: Books, journal: seq<Posting>, c: Column)
    ensures ColumnTotal(PostAll(b, journal).rows, c) == ColumnTotal(b.rows, c) + JournalTotal(journal, c)
  {
    hide ColumnTotal, Bump;
    if journal != [] {
      var mid, p := PostAll(b, journal[..|journal| - 1]), journal[|journal| - 1];
      TotalOfPosted(b, journal[..|journal| - 1], c);
      if p.ToRow? { ColumnTotalBump(mid.rows, p.sku, p.column, p.amount, c); }
    }
  }

  lemma AllocateKeepsBuyers(b: Books)
    requires PoolIsExpenses(b)
    ensures ColumnTotal(Allocate(b).rows, BuyerRevenue) == ColumnTotal(b.rows, BuyerRevenue)
  {
    var row := RowOf(b.rows, UNALLOCATED);
    GetCharged(row, b.pool, BuyerRevenue);
    TotalUpdate(b.rows, UNALLOCATED, Charged(row, b.pool), (r: Row) => Get(r, BuyerRevenue));
  }

  lemma {:induction false} BindKeepsBuyers(b: Books, records: seq<AdRecord>)
    ensures ColumnTotal(Bind(b, records).rows, BuyerRevenue) == ColumnTotal(b.rows, BuyerRevenue)
  {
    hide ColumnTotal, Bump;
    if records != [] {
      var at, r := Bind(b, records[..|records| - 1]), records[|records| - 1];
      BindKeepsBuyers(b, records[..|records| - 1]);
      ColumnTotalBump(at.rows, r.sku, Marketing, r.cost, BuyerRevenue);
      ColumnTotalBump(Bump(at.rows, r.sku, Marketing, r.cost), UNALLOCATED, Marketing, -r.cost, BuyerRevenue);
    }
  }

  predicate Skips(p: Posting, c: Column) {
    p.ToRow? ==> p.column != c
  }

  lemma {:induction false} SkippedTotal(journal: seq<Posting>, c: Column)
    requires forall i :: 0 <= i < |journal| ==> Skips(journal[i], c)
    ensures JournalTotal(journal, c) == 0.0
  {
    if journal != [] {
      assert Skips(journal[|journal| - 1], c);
      SkippedTotal(journal[..|journal| - 1], c);
    }
  }

  lemma OneTotal(p: Posting, c: Column)
    ensures JournalTotal([p], c) == if p.ToRow? && p.column == c then p.amount else 0.0
  {
    assert [p][..0] == [];
  }

  /** A journal with a single posting to the column. */
  lemma TotalAt(journal: seq<Posting>, k: nat, c: Column)
    requires k < |journal| && forall i :: 0 <= i < |journal| && i != k ==> Skips(journal[i], c)
    requires journal[k].ToRow? && journal[k].column == c
    ensures JournalTotal(journal, c) == journal[k].amount
  {
    SkippedTotal(journal[..k], c);
    SkippedTotal(journal[k + 1..], c);
    OneTotal(journal[k], c);
    JournalTotalConcat(journal[..k], [journal[k]], c);
    JournalTotalConcat(journal[..k] + [journal[k]], journal[k + 1..], c);
    assert journal == journal[..k] + [journal[k]] + journal[k + 1..];
  }

  // ----- Buyer money of accruals -----

  /** What buyers paid for the lines of a payload, returns counted against sales. */
  function BuyerMoneyOf(lines: seq<Line>): real {
    if lines == [] then 0.0
    else
      var line := lines[|lines| - 1];
      BuyerMoneyOf(lines[..|lines| - 1]) +
      if line.sku == "" || line.saleAmount == 0.0 then 0.0 else BuyerMoney(line)
  }

  lemma {:induction false} FeesSkipBuyers(sku: string, fees: seq<Fee>)
    ensures JournalTotal(FeeJournal(sku, fees), BuyerRevenue) == 0.0
  {
    if fees != [] {
      var before, last := FeeJournal(sku, fees[..|fees| - 1]), FeePosting(sku, fees[|fees| - 1]);
      FeesSkipBuyers(sku, fees[..|fees| - 1]);
      OneTotal(last, BuyerRevenue);
      JournalTotalConcat(before, [last], BuyerRevenue);
    }
  }

  lemma {:induction false} ItemFeesSkipBuyers(items: seq<ItemFees>)
    ensures JournalTotal(ItemFeesJournal(items), BuyerRevenue) == 0.0
  {
    if items != [] {
      var last := items[|items| - 1];
      ItemFeesSkipBuyers(items[..|items| - 1]);
      FeesSkipBuyers(last.sku, last.fees);
      JournalTotalConcat(ItemFeesJournal(items[..|items| - 1]), FeeJournal(last.sku, last.fees), BuyerRevenue);
    }
  }

  lemma LineBuyers(line: Line, p: Payload)
    ensures JournalTotal(LineJournal(line, p), BuyerRevenue) ==
      if line.sku == "" || line.saleAmount == 0.0 then 0.0 else BuyerMoney(line)
  {
    hide JournalTotal, FeeJournal, BuyerMoney;
    if line.sku == "" {
      SkippedTotal([], BuyerRevenue);
    } else {
      var month := Month(Printed(p.date));
      var sale := SaleJournal(line, month, p.unit);
      var rest := [ToRow(line.sku, OtherServices, -(line.totalAccrued - SumFees(line.services)))];
      if line.saleAmount != 0.0 {
        TotalAt(SaleCore(line, month), 2, BuyerRevenue);
        SkippedTotal(DomesticJournal(line, p.unit), BuyerRevenue);
        JournalTotalConcat(SaleCore(line, month), DomesticJournal(line, p.unit), BuyerRevenue);
      } else {
        SkippedTotal(sale, BuyerRevenue);
      }
      FeesSkipBuyers(line.sku, line.services);
      SkippedTotal(rest, BuyerRevenue);
      JournalTotalConcat(sale, FeeJournal(line.sku, line.services), BuyerRevenue);
      JournalTotalConcat(sale + FeeJournal(line.sku, line.services), rest, BuyerRevenue);
    }
  }

  lemma {:induction false} LinesBuyers(lines: seq<Line>, p: Payload)
    ensures JournalTotal(LinesJournal(lines, p), BuyerRevenue) == BuyerMoneyOf(lines)
  {
    hide JournalTotal, LineJournal;
    if lines == [] {
      SkippedTotal([], BuyerRevenue);
    } else {
      var line := lines[|lines| - 1];
      LinesBuyers(lines[..|lines| - 1], p);
      LineBuyers(line, p);
      JournalTotalConcat(LinesJournal(lines[..|lines| - 1], p), LineJournal(line, p), BuyerRevenue);
    }
  }

  lemma AddBooksBuyerMoney(b: Books, p: Payload)
    ensures ColumnTotal(Add(b, p).rows, BuyerRevenue) == ColumnTotal(b.rows, BuyerRevenue) + BuyerMoneyOf(p.products)
  {
    hide JournalTotal, LinesJournal, ItemFeesJournal, FeeJournal, ColumnTotal, PostAll;
    var lines, items := LinesJournal(p.products, p), ItemFeesJournal(p.itemFees);
    var nonItem, container := NonItemJournal(p), FeeJournal("", p.containerFees);
    var rest := [ToPool(OtherAccruals, -(p.total - JournalNet(ExplainedJournal(p))))];
    TotalOfPosted(b, AddJournal(p), BuyerRevenue);
    LinesBuyers(p.products, p);
    ItemFeesSkipBuyers(p.itemFees);
    SkippedTotal(nonItem, BuyerRevenue);
    FeesSkipBuyers("", p.containerFees);
    SkippedTotal(rest, BuyerRevenue);
    JournalTotalConcat(lines, items, BuyerRevenue);
    JournalTotalConcat(lines + items, nonItem, BuyerRevenue);
    JournalTotalConcat(lines + items + nonItem, container, BuyerRevenue);
    JournalTotalConcat(ExplainedJournal(p), rest, BuyerRevenue);
  }

  // ----- Buyer money of buyouts -----

  lemma ApplyBooksBuyerMoney(b: Books, e: Event)
    ensures var after := Apply(b, e).books;
      ColumnTotal(after.rows, BuyerRevenue) - ColumnTotal(b.rows, BuyerRevenue) ==
      after.buyoutReceipts - b.buyoutReceipts
  {
    hide PostAll, ColumnTotal, JournalTotal;
    var r := e.record;
    if r.Id() !in b.seen {
      if r.Id() in b.domestic {
        var start := Marked(b, r).(overlaps := b.overlaps + 1);
        var j := MoveJournal(r.sku, b.domestic[r.Id()]);
        TotalOfPosted(start, j, BuyerRevenue);
        SkippedTotal(j, BuyerRevenue);
        PostingsOnlyPost(start, j);
      } else {
        TotalOfPosted(Marked(b, r), OwnJournal(e), BuyerRevenue);
        TotalAt(OwnJournal(e), 3, BuyerRevenue);
      }
    }
  }

  lemma {:induction false} BuyerMoneyFollowsReceipts(b: Books, events: seq<Event>)
    ensures var after := ApplyAll(b, events).books;
      ColumnTotal(after.rows, BuyerRevenue) - ColumnTotal(b.rows, BuyerRevenue) ==
      after.buyoutReceipts - b.buyoutReceipts
  {
    hide ColumnTotal, Apply;
    if events != [] {
      BuyerMoneyFollowsReceipts(b, events[..|events| - 1]);
      var before := ApplyAll(b, events[..|events| - 1]);
      if before.Done? { ApplyBooksBuyerMoney(before.books, events[|events| - 1]); }
    }
  }

  // ----- Domestic postings of accruals -----

  /** The payload sells `id.1` under posting `id.0`. */
  predicate Sells(p: Payload, id: Key) {
    p.unit.Some? && p.unit.value != "" && p.unit.value == id.0 && id.1 != "" &&
    exists i :: 0 <= i < |p.products| && p.products[i].sku == id.1 && p.products[i].saleAmount > 0.0
  }

  predicate RemembersSale(journal: seq<Posting>, id: Key) {
    exists i :: 0 <= i < |journal| && journal[i].ToDomestic? && journal[i].key == id
  }

  lemma RemembersConcat(a: seq<Posting>, b: seq<Posting>, id: Key)
    ensures RemembersSale(a + b, id) <==> RemembersSale(a, id) || RemembersSale(b, id)
  {
    if RemembersSale(a, id) {
      var i :| 0 <= i < |a| && a[i].ToDomestic? && a[i].key == id;
      assert (a + b)[i] == a[i];
    }
    if RemembersSale(b, id) {
      var i :| 0 <= i < |b| && b[i].ToDomestic? && b[i].key == id;
      assert (a + b)[|a| + i] == b[i];
    }
  }

  lemma DomesticKeysOfPosting(b: Books, p: Posting, id: Key)
    ensures id in Post(b, p).domestic <==> id in b.domestic || (p.ToDomestic? && p.key == id)
  {
    if !p.ToDomestic? { assert Post(b, p).domestic == b.domestic; }
  }

  lemma {:induction false} DomesticKeysOfPosted(b: Books, journal: seq<Posting>, id: Key)
    ensures id in PostAll(b, journal).domestic <==> id in b.domestic || RemembersSale(journal, id)
  {
    hide Post;
    if journal != [] {
      var before, p := journal[..|journal| - 1], journal[|journal| - 1];
      DomesticKeysOfPosted(b, before, id);
      DomesticKeysOfPosting(PostAll(b, before), p, id);
      RemembersConcat(before, [p], id);
      assert [p][0] == p && journal == before + [p];
    }
  }

  lemma {:induction false} FeesRememberNothing(sku: string, fees: seq<Fee>, id: Key)
    ensures !RemembersSale(FeeJournal(sku, fees), id)
  {
    if fees != [] {
      FeesRememberNothing(sku, fees[..|fees| - 1], id);
      RemembersConcat(FeeJournal(sku, fees[..|fees| - 1]), [FeePosting(sku, fees[|fees| - 1])], id);
    }
  }

  lemma {:induction false} ItemFeesRememberNothing(items: seq<ItemFees>, id: Key)
    ensures !RemembersSale(ItemFeesJournal(items), id)
  {
    if items != [] {
      var last := items[|items| - 1];
      ItemFeesRememberNothing(items[..|items| - 1], id);
      FeesRememberNothing(last.sku, last.fees, id);
      RemembersConcat(ItemFeesJournal(items[..|items| - 1]), FeeJournal(last.sku, last.fees), id);
    }
  }

  predicate LineSells(line: Line, unit: Option<string>, id: Key) {
    unit.Some? && unit.value != "" && unit.value == id.0 && id.1 != "" && line.sku == id.1 && line.saleAmount > 0.0
  }

  lemma LineRemembers(line: Line, p: Payload, id: Key)
    ensures RemembersSale(LineJournal(line, p), id) <==> LineSells(line, p.unit, id)
  {
    if line.sku != "" {
      var month := Month(Printed(p.date));
      var sale := SaleJournal(line, month, p.unit);
      var rest := [ToRow(line.sku, OtherServices, -(line.totalAccrued - SumFees(line.services)))];
      FeesRememberNothing(line.sku, line.services, id);
      RemembersConcat(sale, FeeJournal(line.sku, line.services), id);
      RemembersConcat(sale + FeeJournal(line.sku, line.services), rest, id);
      if line.saleAmount != 0.0 {
        SaleRemembers(line, month, p.unit, id);
      }
    }
  }

  lemma SaleRemembers(line: Line, month: string, unit: Option<string>, id: Key)
    requires line.saleAmount != 0.0 && line.sku != ""
    ensures RemembersSale(SaleJournal(line, month, unit), id) <==> LineSells(line, unit, id)
  {
    RemembersConcat(SaleCore(line, month), DomesticJournal(line, unit), id);
    assert forall i :: 0 <= i < 8 ==> !SaleCore(line, month)[i].ToDomestic?;
    if LineSells(line, unit, id) {
      assert DomesticJournal(line, unit)[0].key == id;
    }
  }

  lemma {:induction false} LinesRemember(lines: seq<Line>, p: Payload, id: Key)
    ensures RemembersSale(LinesJournal(lines, p), id) <==>
      exists i :: 0 <= i < |lines| && LineSells(lines[i], p.unit, id)
  {
    hide LineJournal;
    if lines != [] {
      var n := |lines| - 1;
      LinesRemember(lines[..n], p, id);
      LineRemembers(lines[n], p, id);
      RemembersConcat(LinesJournal(lines[..n], p), LineJournal(lines[n], p), id);
      assert forall i :: 0 <= i < n ==> lines[..n][i] == lines[i];
    }
  }

  /** A payload makes exactly the sales it holds known to later buyout reports. */
  lemma AddRemembersSales(b: Books, p: Payload, id: Key)
    ensures id in Add(b, p).domestic <==> id in b.domestic || Sells(p, id)
  {
    hide LinesJournal, ItemFeesJournal, FeeJournal, RemembersSale, PostAll;
    var lines, items := LinesJournal(p.products, p), ItemFeesJournal(p.itemFees);
    var nonItem, container := NonItemJournal(p), FeeJournal("", p.containerFees);
    var rest := [ToPool(OtherAccruals, -(p.total - JournalNet(ExplainedJournal(p))))];
    DomesticKeysOfPosted(b, AddJournal(p), id);
    LinesRemember(p.products, p, id);
    ItemFeesRememberNothing(p.itemFees, id);
    FeesRememberNothing("", p.containerFees, id);
    NothingRemembered(nonItem, id);
    NothingRemembered(rest, id);
    RemembersConcat(lines, items, id);
    RemembersConcat(lines + items, nonItem, id);
    RemembersConcat(lines + items + nonItem, container, id);
    RemembersConcat(ExplainedJournal(p), rest, id);
    SellsByLine(p, id);
  }

  lemma NothingRemembered(journal: seq<Posting>, id: Key)
    requires forall i :: 0 <= i < |journal| ==> !journal[i].ToDomestic?
    ensures !RemembersSale(journal, id)
  {
  }

  lemma SellsByLine(p: Payload, id: Key)
    ensures Sells(p, id) <==> exists i :: 0 <= i < |p.products| && LineSells(p.products[i], p.unit, id)
  {
    if Sells(p, id) {
      var i :| 0 <= i < |p.products| && p.products[i].sku == id.1 && p.products[i].saleAmount > 0.0;
      assert LineSells(p.products[i], p.unit, id);
    }
  }

  // ----- Amounts of domestic sales -----

  const NOTHING := Sale(0.0, 0.0, 0.0, 0.0)

  function JournalSale(journal: seq<Posting>, id: Key): Sale {
    if journal == [] then NOTHING
    else
      var p := journal[|journal| - 1];
      AddSale(JournalSale(journal[..|journal| - 1], id), PostedSale(p, id))
  }

  lemma SalesAddUp(a: Sale, b: Sale, c: Sale)
    ensures AddSale(AddSale(a, b), c) == AddSale(a, AddSale(b, c))
    ensures AddSale(a, NOTHING) == a == AddSale(NOTHING, a)
  {
  }

  /** What a posting makes known of a pair. */
  function PostedSale(p: Posting, id: Key): Sale {
    if p.ToDomestic? && p.key == id then p.sale else NOTHING
  }

  lemma {:induction false} JournalSaleConcat(a: seq<Posting>, b: seq<Posting>, id: Key)
    ensures JournalSale(a + b, id) == AddSale(JournalSale(a, id), JournalSale(b, id))
  {
    hide AddSale, PostedSale, NOTHING;
    if b == [] {
      assert a + b == a;
      SalesAddUp(JournalSale(a, id), NOTHING, NOTHING);
    } else {
      JournalSaleConcat(a, b[..|b| - 1], id);
      SalesAddUp(JournalSale(a, id), JournalSale(b[..|b| - 1], id), PostedSale(b[|b| - 1], id));
      assert (a + b)[..|a + b| - 1] == a + b[..|b| - 1];
    }
  }

  lemma {:induction false} SaleOfPosted(b: Books, journal: seq<Posting>, id: Key)
    ensures SaleOf(PostAll(b, journal).domestic, id) == AddSale(SaleOf(b.domestic, id), JournalSale(journal, id))
  {
    hide Post, AddSale, PostedSale, SaleOf, NOTHING;
    SalesAddUp(SaleOf(b.domestic, id), NOTHING, NOTHING);
    if journal != [] {
      var before, last := journal[..|journal| - 1], journal[|journal| - 1];
      SaleOfPosted(b, before, id);
      SaleOfPosting(PostAll(b, before), last, id);
      SalesAddUp(SaleOf(b.domestic, id), JournalSale(before, id), PostedSale(last, id));
    }
  }

  lemma SaleOfPosting(b: Books, p: Posting, id: Key)
    ensures SaleOf(Post(b, p).domestic, id) == AddSale(SaleOf(b.domestic, id), PostedSale(p, id))
  {
    if !p.ToDomestic? { assert Post(b, p).domestic == b.domestic; }
  }

  lemma {:induction false} NothingSold(journal: seq<Posting>, id: Key)
    requires !RemembersSale(journal, id)
    ensures JournalSale(journal, id) == NOTHING
  {
    if journal != [] {
      var before, last := journal[..|journal| - 1], journal[|journal| - 1];
      assert journal == before + [last] && [last][0] == last;
      RemembersConcat(before, [last], id);
      NothingSold(before, id);
    }
  }

  /** What lines of a posting sell of `id.1`, added up. */
  function SoldBy(lines: seq<Line>, unit: Option<string>, id: Key): Sale {
    if lines == [] then NOTHING
    else
      var line := lines[|lines| - 1];
      AddSale(SoldBy(lines[..|lines| - 1], unit, id), if LineSells(line, unit, id) then DomesticSale(line) else NOTHING)
  }

  lemma LineSale(line: Line, p: Payload, id: Key)
    ensures JournalSale(LineJournal(line, p), id) == if LineSells(line, p.unit, id) then DomesticSale(line) else NOTHING
  {
    hide JournalSale, RemembersSale, FeeJournal, SaleCore, DomesticSale, NOTHING;
    LineRemembers(line, p, id);
    if LineSells(line, p.unit, id) {
      var core, fees := SaleCore(line, Month(Printed(p.date))), FeeJournal(line.sku, line.services);
      var rest := [ToRow(line.sku, OtherServices, -(line.totalAccrued - SumFees(line.services)))];
      var own := DomesticJournal(line, p.unit);
      CoreSellsNothing(line, Month(Printed(p.date)), id);
      FeesRememberNothing(line.sku, line.services, id);
      NothingSold(fees, id);
      NothingRemembered(rest, id);
      NothingSold(rest, id);
      JournalSaleConcat(core, own, id);
      JournalSaleConcat(core + own, fees, id);
      JournalSaleConcat(core + own + fees, rest, id);
      OneSale(id, DomesticSale(line));
    } else {
      NothingSold(LineJournal(line, p), id);
    }
  }

  lemma CoreSellsNothing(line: Line, month: string, id: Key)
    ensures JournalSale(SaleCore(line, month), id) == NOTHING
  {
    NothingRemembered(SaleCore(line, month), id);
    NothingSold(SaleCore(line, month), id);
  }

  lemma OneSale(id: Key, sale: Sale)
    ensures JournalSale([ToDomestic(id, sale)], id) == sale == AddSale(NOTHING, sale)
    ensures AddSale(AddSale(sale, NOTHING), NOTHING) == sale
  {
    hide AddSale, NOTHING;
    assert [ToDomestic(id, sale)][..0] == [];
    SalesAddUp(sale, NOTHING, NOTHING);
  }

  lemma {:induction false} LinesSale(lines: seq<Line>, p: Payload, id: Key)
    ensures JournalSale(LinesJournal(lines, p), id) == SoldBy(lines, p.unit, id)
  {
    hide LineJournal, LineSells, AddSale, DomesticSale;
    if lines != [] {
      var n := |lines| - 1;
      LinesSale(lines[..n], p, id);
      LineSale(lines[n], p, id);
      JournalSaleConcat(LinesJournal(lines[..n], p), LineJournal(lines[n], p), id);
    }
  }

  /** A payload adds to what is remembered of a posting/SKU pair exactly the amounts of its own
      positive lines of that pair. */
  lemma AddRemembersAmounts(b: Books, p: Payload, id: Key)
    ensures SaleOf(Add(b, p).domestic, id) == AddSale(SaleOf(b.domestic, id), SoldBy(p.products, p.unit, id))
  {
    hide LinesJournal, ItemFeesJournal, FeeJournal, RemembersSale, PostAll, JournalSale, SoldBy, SaleOf;
    var lines, items := LinesJournal(p.products, p), ItemFeesJournal(p.itemFees);
    var nonItem, container := NonItemJournal(p), FeeJournal("", p.containerFees);
    var rest := [ToPool(OtherAccruals, -(p.total - JournalNet(ExplainedJournal(p))))];
    SaleOfPosted(b, AddJournal(p), id);
    LinesSale(p.products, p, id);
    ItemFeesRememberNothing(p.itemFees, id);
    FeesRememberNothing("", p.containerFees, id);
    NothingRemembered(nonItem, id);
    NothingRemembered(rest, id);
    NothingSold(items, id);
    NothingSold(nonItem, id);
    NothingSold(container, id);
    NothingSold(rest, id);
    JournalSaleConcat(lines, items, id);
    JournalSaleConcat(lines + items, nonItem, id);
    JournalSaleConcat(lines + items + nonItem, container, id);
    JournalSaleConcat(ExplainedJournal(p), rest, id);
  }
}
