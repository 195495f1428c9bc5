/** The other operations on the books, and what any run of operations does to the balance. */
module Settlement {
  import opened Sums
  import opened Ledger
  import opened Accruals
  import opened BuyoutLedger

  const UNALLOCATED := "unallocated"
  const CENT := 0.01

  /** How far the re-scanned net is from the raw total. */
  ghost function Gap(b: Books): real {
    Net(b.rows, b.pool) - b.rawTotal
  }

  // ----- Moving the pool into the row without an article -----

  function NonZero(pool: map<Column, real>): set<Column> {
    set c | c in pool && pool[c] != 0.0
  }

  function Charged(row: Row, pool: map<Column, real>): Row {
    map c | c in row.Keys + NonZero(pool) :: Get(row, c) + At(pool, c)
  }

  function Allocate(b: Books): Books {
    b.(rows := if NonZero(b.pool) == {} then b.rows
               else b.rows[UNALLOCATED := Charged(RowOf(b.rows, UNALLOCATED), b.pool)],
       pool := map[])
  }

  function SumAt(pool: map<Column, real>, columns: seq<Column>): real {
    if columns == [] then 0.0 else At(pool, columns[0]) + SumAt(pool, columns[1..])
  }

  lemma GetCharged(row: Row, pool: map<Column, real>, c: Column)
    ensures Get(Charged(row, pool), c) == Get(row, c) + At(pool, c)
  {
  }

  lemma {:induction false} ChargedColumns(row: Row, pool: map<Column, real>, columns: seq<Column>)
    ensures SumColumns(Charged(row, pool), columns) == SumColumns(row, columns) + SumAt(pool, columns)
  {
    if columns != [] {
      GetCharged(row, pool, columns[0]);
      ChargedColumns(row, pool, columns[1..]);
    }
  }

  lemma {:induction false} PoolByColumns(pool: map<Column, real>, columns: seq<Column>)
    requires forall i, j :: 0 <= i < j < |columns| ==> columns[i] != columns[j]
    ensures SumMap(pool) == SumAt(pool, columns) + SumMap(pool - (set c | c in columns))
  {
    var all := set c | c in columns;
    if columns == [] {
      assert pool - all == pool;
    } else {
      var rest := set c | c in columns[1..];
      PoolByColumns(pool, columns[1..]);
      assert all == rest + {columns[0]} && columns[0] !in rest;
      assert pool - all == (pool - rest) - {columns[0]};
      if columns[0] in pool {
        SumMapRemove(pool - rest, columns[0]);
      } else {
        assert pool - all == pool - rest;
      }
    }
  }

  lemma ExpensesCoverThePool(pool: map<Column, real>)
    requires forall c :: c in pool ==> IsExpense(c)
    ensures SumAt(pool, EXPENSES) == SumMap(pool)
  {
    hide SumAt;
    PoolByColumns(pool, EXPENSES);
    forall c | c in pool ensures c in EXPENSES { ExpensesAreTheList(c); }
    assert pool - (set c | c in EXPENSES) == map[];
  }

  /** The pool can be charged to a row without moving the net because it holds expenses only. */
  lemma ChargingMovesTheNet(row: Row, pool: map<Column, real>)
    requires forall c :: c in pool ==> IsExpense(c)
    ensures RowNet(Charged(row, pool)) == RowNet(row) - SumMap(pool)
  {
    hide SumColumns, SumAt, Charged;
    ChargedColumns(row, pool, EXPENSES);
    GetCharged(row, pool, Revenue);
    GetCharged(row, pool, Commission);
    ExpensesCoverThePool(pool);
  }

  lemma ZeroPool(pool: map<Column, real>)
    requires NonZero(pool) == {}
    ensures SumMap(pool) == 0.0
    decreases |pool|
  {
    if pool != map[] {
      var c :| c in pool;
      SumMapRemove(pool, c);
      assert c !in NonZero(pool);
      assert NonZero(pool - {c}) == {};
      ZeroPool(pool - {c});
    }
  }

  lemma AllocateKeepsTheNet(b: Books)
    requires PoolIsExpenses(b)
    ensures Gap(Allocate(b)) == Gap(b) && PoolIsExpenses(Allocate(b))
  {
    hide RowNet, Charged, Total;
    if NonZero(b.pool) == {} {
      ZeroPool(b.pool);
    } else {
      var row := RowOf(b.rows, UNALLOCATED);
      ChargingMovesTheNet(row, b.pool);
      EmptyRowNet();
      TotalUpdate(b.rows, UNALLOCATED, Charged(row, b.pool), RowNet);
    }
  }

  lemma EmptyRowNet()
    ensures RowNet(map[]) == 0.0
  {
    EmptyColumns(EXPENSES);
  }

  lemma AllocateKeepsBooksSound(b: Books)
    requires Sound(b)
    ensures Sound(Allocate(b))
  {
    hide Allocate, Net;
    AllocateKeepsTheNet(b);
    AllocateChanges(b);
    var after := Allocate(b);
    forall sku
      ensures RowSplits(RowOf(after.rows, sku))
      ensures SumMap(DayOf(after.saleDays, sku)) == Get(RowOf(after.rows, sku), BuyerRevenue)
    {
      AllocateKeepsSplits(b, sku);
    }
  }

  lemma AllocateKeepsSplits(b: Books, sku: string)
    requires Sound(b)
    ensures RowSplits(RowOf(Allocate(b).rows, sku))
    ensures Get(RowOf(Allocate(b).rows, sku), BuyerRevenue) == SumMap(DayOf(b.saleDays, sku))
  {
    hide RowSplits, Get, Charged, DayOf, Balanced;
    var row := RowOf(b.rows, sku);
    assert RowSplits(row) && Get(row, BuyerRevenue) == SumMap(DayOf(b.saleDays, sku));
    if sku == UNALLOCATED { ChargedKeepsSplits(row, b.pool); }
  }

  lemma ChargedKeepsSplits(row: Row, pool: map<Column, real>)
    requires RowSplits(row) && forall c :: c in pool ==> IsExpense(c)
    ensures RowSplits(Charged(row, pool)) && Get(Charged(row, pool), BuyerRevenue) == Get(row, BuyerRevenue)
  {
    hide Get, Charged;
    GetCharged(row, pool, Revenue);
    GetCharged(row, pool, RevenueRf);
    GetCharged(row, pool, RevenueCis);
    GetCharged(row, pool, BuyerRevenue);
    GetCharged(row, pool, BuyerRf);
    GetCharged(row, pool, BuyerCis);
    GetCharged(row, pool, Commission);
    GetCharged(row, pool, CommissionRf);
    GetCharged(row, pool, CommissionCis);
  }

  lemma AllocateChanges(b: Books)
    ensures var after := Allocate(b); after == b.(rows := after.rows, pool := map[])
  {
  }

  // ----- Linking advertising to articles -----

  datatype AdRecord = AdRecord(day: string, campaign: string, sku: string, cost: real)
  {
    function Id(): Key { (day, campaign) }
  }

  predicate Links(b: Books, r: AdRecord) {
    r.Id() in b.campaignCharges && r.cost != 0.0
  }

  function BindOne(b: Books, r: AdRecord): Books {
    if Links(b, r) then
      b.(rows := Bump(Bump(b.rows, r.sku, Marketing, r.cost), UNALLOCATED, Marketing, -r.cost))
    else b
  }

  function Bind(b: Books, records: seq<AdRecord>): Books {
    if records == [] then b else BindOne(Bind(b, records[..|records| - 1]), records[|records| - 1])
  }

  /** The cost of the records of `sku` that find a campaign charge. */
  function LinkedTo(b: Books, records: seq<AdRecord>, sku: string): real {
    if records == [] then 0.0
    else
      var r := records[|records| - 1];
      LinkedTo(b, records[..|records| - 1], sku) + if Links(b, r) && r.sku == sku then r.cost else 0.0
  }

  function Linked(b: Books, records: seq<AdRecord>): real {
    if records == [] then 0.0
    else
      var r := records[|records| - 1];
      Linked(b, records[..|records| - 1]) + if Links(b, r) then r.cost else 0.0
  }

  /** Linking moves marketing between rows: each article gains its own linked cost, the row without
      an article loses all of it, and neither the net nor anything else changes. */
  lemma {:induction false} BindMovesMarketing(b: Books, records: seq<AdRecord>, sku: string, c: Column)
    ensures var after := Bind(b, records);
      && after == b.(rows := after.rows)
      && Net(after.rows, after.pool) == Net(b.rows, b.pool)
      && Get(RowOf(after.rows, sku), c) == Get(RowOf(b.rows, sku), c) +
           (if c == Marketing then LinkedTo(b, records, sku) else 0.0) -
           (if c == Marketing && sku == UNALLOCATED then Linked(b, records) else 0.0)
  {
    hide Net, Get, RowOf;
    if records != [] {
      BindMovesMarketing(b, records[..|records| - 1], sku, c);
      BindOneMovesMarketing(Bind(b, records[..|records| - 1]), records[|records| - 1], sku, c);
    }
  }

  lemma CellBump(rows: Rows, at: string, c: Column, x: real, sku: string, d: Column)
    ensures Get(RowOf(Bump(rows, at, c, x), sku), d) == Get(RowOf(rows, sku), d) + if at == sku && c == d then x else 0.0
  {
    hide Get;
    GetBump(RowOf(rows, at), c, x, d);
  }

  lemma BindOneMovesMarketing(b: Books, r: AdRecord, sku: string, c: Column)
    ensures var after, x := BindOne(b, r), if Links(b, r) && c == Marketing then r.cost else 0.0;
      && after == b.(rows := after.rows)
      && Net(after.rows, after.pool) == Net(b.rows, b.pool)
      && Get(RowOf(after.rows, sku), c) == Get(RowOf(b.rows, sku), c) +
           (if r.sku == sku then x else 0.0) - (if sku == UNALLOCATED then x else 0.0)
  {
    hide Net, Get, RowOf, Bump;
    if Links(b, r) {
      var one := Bump(b.rows, r.sku, Marketing, r.cost);
      NetBump(b.rows, b.pool, r.sku, Marketing, r.cost);
      NetBump(one, b.pool, UNALLOCATED, Marketing, -r.cost);
      CellBump(b.rows, r.sku, Marketing, r.cost, sku, c);
      CellBump(one, UNALLOCATED, Marketing, -r.cost, sku, c);
    }
  }

  // ----- Normalised sales -----

  datatype StandardSale = StandardSale(sku: string, qty: real, revenue: real, buyerRevenue: real,
                                       commission: real, acquiring: real, logistics: real)

  function ArticleOr(sku: string): string {
    if sku == "" then UNALLOCATED else sku
  }

  function SevenJournal(sku: string, counter: Column, quantity: real, revenue: real, buyer: real,
                        commission: real): seq<Posting> {
    [ToRow(sku, counter, quantity),
     ToRow(sku, Revenue, revenue), ToRow(sku, RevenueRf, revenue),
     ToRow(sku, BuyerRevenue, buyer), ToRow(sku, BuyerRf, buyer),
     ToRow(sku, Commission, commission), ToRow(sku, CommissionRf, commission)]
  }

  function StandardJournal(s: StandardSale): seq<Posting> {
    var sku := ArticleOr(s.sku);
    SevenJournal(sku, if s.qty >= 0.0 then SalesQty else ReturnsQty, s.qty, s.revenue, s.buyerRevenue, s.commission) +
    [ToRow(sku, Acquiring, s.acquiring), ToRow(sku, Logistics, s.logistics)]
  }

  function AddStandard(b: Books, s: StandardSale): Books {
    PostAll(b, StandardJournal(s)).(operations := b.operations + 1,
      rawTotal := b.rawTotal + (s.revenue - s.commission - s.acquiring - s.logistics))
  }

  // ----- Realisation lines -----

  const RETURN_WORD := "возврат"
  const SALE_WORD := "продаж"

  predicate Contains(text: string, word: string) {
    word <= text || (text != [] && Contains(text[1..], word))
  }

  /** One realisation line; the texts are trimmed and in lower case, the amounts are parsed. */
  datatype WbLine = WbLine(nmId: string, docType: string, operName: string, quantity: real, price: real,
                           retailAmount: real, forPay: real, delivery: real, storage: real, penalty: real,
                           deduction: real, acceptance: real, additional: real, acquiring: real)
  {
    predicate IsReturn() {
      Contains(docType, RETURN_WORD) || Contains(operName, RETURN_WORD)
    }

    predicate IsSale() {
      (Contains(docType, SALE_WORD) || Contains(operName, SALE_WORD)) && !IsReturn()
    }

    function Article(): string {
      if nmId != "" && nmId != "0" then nmId else UNALLOCATED
    }

    function SellerAmount(): real {
      price * if quantity == 0.0 then 1.0 else quantity
    }
  }

  function Positive(x: real): real {
    if x < 0.0 then 0.0 else x
  }

  function WbSaleJournal(w: WbLine): seq<Posting> {
    var sku, seller := w.Article(), w.SellerAmount();
    if w.IsSale() then
      SevenJournal(sku, SalesQty, w.quantity, seller, w.retailAmount, Positive(seller - w.forPay))
    else if w.IsReturn() then
      SevenJournal(sku, ReturnsQty, -Abs(w.quantity), -Abs(seller), -Abs(w.retailAmount),
                   -Positive(Abs(seller) - Abs(w.forPay)))
    else []
  }

  /** A charge of zero is not posted. */
  function Charge(sku: string, c: Column, x: real): seq<Posting> {
    if x == 0.0 then [] else [ToRow(sku, c, x)]
  }

  function WbChargesJournal(w: WbLine): seq<Posting> {
    var sku := w.Article();
    Charge(sku, Acquiring, Abs(w.acquiring)) +
    Charge(sku, if w.IsReturn() then ReverseLogistics else Logistics, Abs(w.delivery)) +
    Charge(sku, Storage, Abs(w.storage)) +
    Charge(sku, CrossDocking, Abs(w.acceptance)) +
    Charge(sku, OtherServices, Abs(w.penalty) + Abs(w.deduction)) +
    Charge(sku, OtherServices, -w.additional)
  }

  function WbJournal(w: WbLine): seq<Posting> {
    WbSaleJournal(w) + WbChargesJournal(w)
  }

  /** What the line adds to the raw total. */
  function WbRaw(w: WbLine): real {
    (if w.IsSale() then w.forPay else if w.IsReturn() then -Abs(w.forPay) else 0.0) -
    Abs(w.acquiring) - Abs(w.delivery) - Abs(w.storage) - Abs(w.acceptance) -
    (Abs(w.penalty) + Abs(w.deduction)) + w.additional
  }

  function AddWb(b: Books, w: WbLine): Books {
    PostAll(b, WbJournal(w)).(operations := b.operations + 1, rawTotal := b.rawTotal + WbRaw(w))
  }

  /** What was paid above the seller's own amount: it is not booked as a negative commission,
      so a sale leaves the books short of it and a return leaves them over. */
  function Overpayment(w: WbLine): real {
    if w.IsSale() then -Positive(w.forPay - w.SellerAmount())
    else if w.IsReturn() then Positive(Abs(w.forPay) - Abs(w.SellerAmount()))
    else 0.0
  }

  lemma ChargeNet(sku: string, c: Column, x: real)
    requires IsExpense(c)
    ensures JournalNet(Charge(sku, c, x)) == -x
  {
    if x != 0.0 { assert [ToRow(sku, c, x)][..0] == []; }
  }

  lemma WbChargesNet(w: WbLine)
    ensures JournalNet(WbChargesJournal(w)) ==
      -Abs(w.acquiring) - Abs(w.delivery) - Abs(w.storage) - Abs(w.acceptance) -
      (Abs(w.penalty) + Abs(w.deduction)) + w.additional
  {
    hide JournalNet, Charge, Abs;
    var sku, way := w.Article(), if w.IsReturn() then ReverseLogistics else Logistics;
    var a, b := Charge(sku, Acquiring, Abs(w.acquiring)), Charge(sku, way, Abs(w.delivery));
    var c, d := Charge(sku, Storage, Abs(w.storage)), Charge(sku, CrossDocking, Abs(w.acceptance));
    var e, f := Charge(sku, OtherServices, Abs(w.penalty) + Abs(w.deduction)), Charge(sku, OtherServices, -w.additional);
    ChargeNet(sku, Acquiring, Abs(w.acquiring));
    ChargeNet(sku, way, Abs(w.delivery));
    ChargeNet(sku, Storage, Abs(w.storage));
    ChargeNet(sku, CrossDocking, Abs(w.acceptance));
    ChargeNet(sku, OtherServices, Abs(w.penalty) + Abs(w.deduction));
    ChargeNet(sku, OtherServices, -w.additional);
    JournalNetConcat(a, b);
    JournalNetConcat(a + b, c);
    JournalNetConcat(a + b + c, d);
    JournalNetConcat(a + b + c + d, e);
    JournalNetConcat(a + b + c + d + e, f);
  }

  lemma {:induction false} SevenNet(j: seq<Posting>)
    requires |j| == 7
    ensures JournalNet(j) == NetOf(j[0]) + NetOf(j[1]) + NetOf(j[2]) + NetOf(j[3]) + NetOf(j[4]) + NetOf(j[5]) + NetOf(j[6])
  {
    hide NetOf;
    assert JournalNet(j[..0]) == 0.0;
    assert j[..1][..0] == j[..0] && j[..2][..1] == j[..1] && j[..3][..2] == j[..2];
    assert j[..4][..3] == j[..3] && j[..5][..4] == j[..4] && j[..6][..5] == j[..5];
    assert JournalNet(j[..1]) == NetOf(j[0]);
    assert JournalNet(j[..2]) == JournalNet(j[..1]) + NetOf(j[1]);
    assert JournalNet(j[..3]) == JournalNet(j[..2]) + NetOf(j[2]);
    assert JournalNet(j[..4]) == JournalNet(j[..3]) + NetOf(j[3]);
    assert JournalNet(j[..5]) == JournalNet(j[..4]) + NetOf(j[4]);
    assert JournalNet(j[..6]) == JournalNet(j[..5]) + NetOf(j[5]);
  }

  lemma SevenJournalNet(sku: string, counter: Column, quantity: real, revenue: real, buyer: real, commission: real)
    requires counter == SalesQty || counter == ReturnsQty
    ensures JournalNet(SevenJournal(sku, counter, quantity, revenue, buyer, commission)) == revenue - commission
  {
    hide JournalNet, NetOf;
    var j := SevenJournal(sku, counter, quantity, revenue, buyer, commission);
    SevenNet(j);
    RowNetOf(sku, counter, quantity);
    RowNetOf(sku, Revenue, revenue);
    RowNetOf(sku, RevenueRf, revenue);
    RowNetOf(sku, BuyerRevenue, buyer);
    RowNetOf(sku, BuyerRf, buyer);
    RowNetOf(sku, Commission, commission);
    RowNetOf(sku, CommissionRf, commission);
  }

  lemma RowNetOf(sku: string, c: Column, x: real)
    ensures NetOf(ToRow(sku, c, x)) == Weighted(c, x)
  {
  }

  lemma WbSaleNet(w: WbLine)
    ensures JournalNet(WbSaleJournal(w)) - Overpayment(w) ==
      if w.IsSale() then w.forPay else if w.IsReturn() then -Abs(w.forPay) else 0.0
  {
    hide JournalNet, Contains, SevenJournal;
    var sku, seller := w.Article(), w.SellerAmount();
    if w.IsSale() {
      SevenJournalNet(sku, SalesQty, w.quantity, seller, w.retailAmount, Positive(seller - w.forPay));
    } else if w.IsReturn() {
      SevenJournalNet(sku, ReturnsQty, -Abs(w.quantity), -Abs(seller), -Abs(w.retailAmount),
                      -Positive(Abs(seller) - Abs(w.forPay)));
    } else {
      EmptyNet();
    }
  }

  lemma EmptyNet()
    ensures JournalNet([]) == 0.0
  {
  }

  /** For every realisation line, the books miss the raw total by exactly the overpayment. */
  lemma WbLineLeavesTheOverpayment(w: WbLine)
    ensures JournalNet(WbJournal(w)) - WbRaw(w) == Overpayment(w)
  {
    hide JournalNet, WbSaleJournal, WbChargesJournal, Overpayment;
    JournalNetConcat(WbSaleJournal(w), WbChargesJournal(w));
    WbSaleNet(w);
    WbChargesNet(w);
  }

  lemma StandardPostsItsNet(s: StandardSale)
    ensures JournalNet(StandardJournal(s)) == s.revenue - s.commission - s.acquiring - s.logistics
  {
    hide JournalNet, SevenJournal;
    var sku, counter := ArticleOr(s.sku), if s.qty >= 0.0 then SalesQty else ReturnsQty;
    var sale := SevenJournal(sku, counter, s.qty, s.revenue, s.buyerRevenue, s.commission);
    var a, l := [ToRow(sku, Acquiring, s.acquiring)], [ToRow(sku, Logistics, s.logistics)];
    SevenJournalNet(sku, counter, s.qty, s.revenue, s.buyerRevenue, s.commission);
    ChargeNetAlways(sku, Acquiring, s.acquiring);
    ChargeNetAlways(sku, Logistics, s.logistics);
    JournalNetConcat(sale, a);
    JournalNetConcat(sale + a, l);
    assert StandardJournal(s) == sale + a + l;
  }

  lemma ChargeNetAlways(sku: string, c: Column, x: real)
    requires IsExpense(c)
    ensures JournalNet([ToRow(sku, c, x)]) == -x
  {
    assert [ToRow(sku, c, x)][..0] == [];
  }

  // ----- Closing against another total -----

  /** The difference to another total is booked on the row without an article. */
  function Reconcile(b: Books, target: real): Books {
    var delta := target - b.rawTotal;
    if delta == 0.0 then b
    else b.(rows := Bump(b.rows, UNALLOCATED, OtherAccruals, -delta), rawTotal := b.rawTotal + delta)
  }

  lemma ReconcileMeetsTheTarget(b: Books, target: real)
    ensures Reconcile(b, target).rawTotal == target && Gap(Reconcile(b, target)) == Gap(b)
  {
    NetBump(b.rows, b.pool, UNALLOCATED, OtherAccruals, -(target - b.rawTotal));
  }

  // ----- Runs of any operations -----

  datatype Op =
    | AddOp(payload: Payload)
    | BuyoutsOp(events: seq<Event>)
    | StandardOp(sale: StandardSale)
    | WbOp(line: WbLine)
    | ReconcileOp(target: real)
    | AllocateOp
    | BindOp(records: seq<AdRecord>)

  function Step(b: Books, op: Op): Books {
    match op
    case AddOp(p) => Add(b, p)
    case BuyoutsOp(events) => ApplyAll(b, events).books
    case StandardOp(s) => AddStandard(b, s)
    case WbOp(w) => AddWb(b, w)
    case ReconcileOp(target) => Reconcile(b, target)
    case AllocateOp => Allocate(b)
    case BindOp(records) => Bind(b, records)
  }

  function Run(b: Books, ops: seq<Op>): Books {
    if ops == [] then b else Step(Run(b, ops[..|ops| - 1]), ops[|ops| - 1])
  }

  function Overpayments(ops: seq<Op>): real {
    if ops == [] then 0.0
    else
      var op := ops[|ops| - 1];
      Overpayments(ops[..|ops| - 1]) + if op.WbOp? then Overpayment(op.line) else 0.0
  }

  /** Records come from the reader, which makes them honest. */
  predicate HonestOp(op: Op) {
    op.BuyoutsOp? ==> forall i :: 0 <= i < |op.events| ==> Honest(op.events[i].record)
  }

  predicate PoolPostingsAreExpenses(journal: seq<Posting>) {
    forall i :: 0 <= i < |journal| && journal[i].ToPool? ==> IsExpense(journal[i].column)
  }

  lemma JournalMovesTheGap(b: Books, journal: seq<Posting>, raw: real, operations: nat, net: real)
    requires PoolIsExpenses(b) && PoolPostingsAreExpenses(journal)
    ensures var after := PostAll(b, journal).(rawTotal := b.rawTotal + raw, operations := operations, runningNet := net);
      PoolIsExpenses(after) && Gap(after) == Gap(b) + JournalNet(journal) - raw
  {
    NetOfPosted(b, journal);
    PoolOfPosted(b, journal);
  }

  lemma {:induction false} BuyoutsKeepTheGap(b: Books, events: seq<Event>)
    requires PoolIsExpenses(b) && forall i :: 0 <= i < |events| ==> Honest(events[i].record)
    ensures var after := ApplyAll(b, events).books; PoolIsExpenses(after) && Gap(after) == Gap(b)
  {
    if events != [] {
      BuyoutsKeepTheGap(b, events[..|events| - 1]);
      var before := ApplyAll(b, events[..|events| - 1]);
      if before.Done? { BuyoutKeepsTheGap(before.books, events[|events| - 1]); }
    }
  }

  lemma BuyoutKeepsTheGap(b: Books, e: Event)
    requires PoolIsExpenses(b) && Honest(e.record)
    ensures var after := Apply(b, e).books; PoolIsExpenses(after) && Gap(after) == Gap(b)
  {
    hide PostAll, MoveJournal, OwnJournal, JournalNet, Net, Even;
    var r := e.record;
    if r.Id() !in b.seen {
      if r.Id() in b.domestic {
        var start := Marked(b, r).(overlaps := b.overlaps + 1);
        MoveIsEven(r.sku, b.domestic[r.Id()]);
        MoveChangesRows(start, r.sku, b.domestic[r.Id()]);
        NetOfPosted(start, MoveJournal(r.sku, b.domestic[r.Id()]));
      } else {
        OwnIsEven(e);
        OwnChangesRows(Marked(b, r), e);
        NetOfPosted(Marked(b, r), OwnJournal(e));
      }
    }
  }

  lemma StepMovesTheGap(b: Books, op: Op)
    requires PoolIsExpenses(b) && HonestOp(op)
    ensures PoolIsExpenses(Step(b, op))
    ensures Gap(Step(b, op)) == Gap(b) + if op.WbOp? then Overpayment(op.line) else 0.0
  {
    hide PostAll, PoolIsExpenses, Gap, AddJournal, WbJournal, StandardJournal;
    match op
    case AddOp(p) =>
      AddIsEven(p);
      AddPostsTheTotal(p);
      JournalMovesTheGap(b, AddJournal(p), p.total, b.operations + 1, b.runningNet + p.total);
    case BuyoutsOp(events) =>
      BuyoutsKeepTheGap(b, events);
    case StandardOp(s) =>
      StandardPostsItsNet(s);
      StandardStaysInRows(s);
      JournalOnly(b, StandardJournal(s));
      JournalMovesTheGap(b, StandardJournal(s), s.revenue - s.commission - s.acquiring - s.logistics,
                         b.operations + 1, b.runningNet);
    case WbOp(w) =>
      WbLineLeavesTheOverpayment(w);
      WbStaysInRows(w);
      JournalOnly(b, WbJournal(w));
      JournalMovesTheGap(b, WbJournal(w), WbRaw(w), b.operations + 1, b.runningNet);
    case ReconcileOp(target) =>
      ReconcileMeetsTheTarget(b, target);
      SamePool(b, Reconcile(b, target));
    case AllocateOp =>
      AllocateKeepsTheNet(b);
    case BindOp(records) =>
      BindKeepsTheGap(b, records);
  }

  lemma JournalOnly(b: Books, journal: seq<Posting>)
    ensures PostAll(b, journal).runningNet == b.runningNet
  {
    PostingsOnlyPost(b, journal);
  }

  lemma SamePool(b: Books, after: Books)
    requires PoolIsExpenses(b) && after.pool == b.pool
    ensures PoolIsExpenses(after)
  {
  }

  lemma BindKeepsTheGap(b: Books, records: seq<AdRecord>)
    requires PoolIsExpenses(b)
    ensures PoolIsExpenses(Bind(b, records)) && Gap(Bind(b, records)) == Gap(b)
  {
    BindMovesMarketing(b, records, UNALLOCATED, Marketing);
  }

  lemma StandardStaysInRows(s: StandardSale)
    ensures PoolPostingsAreExpenses(StandardJournal(s))
  {
  }

  lemma WbStaysInRows(w: WbLine)
    ensures PoolPostingsAreExpenses(WbJournal(w))
  {
    hide WbSaleJournal, WbChargesJournal;
    WbSaleStaysInRows(w);
    WbChargesStayInRows(w);
  }

  lemma WbSaleStaysInRows(w: WbLine)
    ensures forall i :: 0 <= i < |WbSaleJournal(w)| ==> WbSaleJournal(w)[i].ToRow?
  {
    hide Contains, Abs, Positive;
  }

  lemma WbChargesStayInRows(w: WbLine)
    ensures forall i :: 0 <= i < |WbChargesJournal(w)| ==> WbChargesJournal(w)[i].ToRow?
  {
    hide Contains, Abs;
  }

  /** Over every run of operations, in any order, the re-scanned net drifts from the raw total by
      exactly what realisation lines were overpaid, and by nothing else. */
  lemma {:induction false} RunDriftsByOverpayments(b: Books, ops: seq<Op>)
    requires PoolIsExpenses(b) && forall i :: 0 <= i < |ops| ==> HonestOp(ops[i])
    ensures PoolIsExpenses(Run(b, ops)) && Gap(Run(b, ops)) == Gap(b) + Overpayments(ops)
  {
    hide Step, Gap, PoolIsExpenses, HonestOp;
    if ops != [] {
      RunDriftsByOverpayments(b, ops[..|ops| - 1]);
      StepMovesTheGap(Run(b, ops[..|ops| - 1]), ops[|ops| - 1]);
    }
  }

  /** The check after allocating and after linking. */
  ghost predicate Reconciles(b: Books) {
    -CENT <= Gap(b) <= CENT
  }

  lemma EmptyBooksBalance()
    ensures Gap(EMPTY) == 0.0 && PoolIsExpenses(EMPTY) && Sound(EMPTY)
  {
    assert (map sku | sku in EMPTY.rows :: RowNet(EMPTY.rows[sku])) == map[];
  }

  /** Without realisation lines the books balance to the last digit after any run. */
  lemma RunWithoutWbBalances(ops: seq<Op>)
    requires forall i :: 0 <= i < |ops| ==> HonestOp(ops[i]) && !ops[i].WbOp?
    ensures Balanced(Run(EMPTY, ops)) && Reconciles(Run(EMPTY, ops))
  {
    hide Run, Net, PoolIsExpenses, Sound, Overpayments, HonestOp;
    EmptyBooksBalance();
    RunDriftsByOverpayments(EMPTY, ops);
    NoWbNoOverpayment(ops);
  }

  lemma {:induction false} NoWbNoOverpayment(ops: seq<Op>)
    requires forall i :: 0 <= i < |ops| ==> !ops[i].WbOp?
    ensures Overpayments(ops) == 0.0
  {
    if ops != [] { NoWbNoOverpayment(ops[..|ops| - 1]); }
  }

  /** With realisation lines the check fails exactly when the overpayments of the returns and of
      the sales are more than a cent apart. */
  lemma RunReconcilesIff(ops: seq<Op>)
    requires forall i :: 0 <= i < |ops| ==> HonestOp(ops[i])
    ensures Reconciles(Run(EMPTY, ops)) <==> -0.01 <= Overpayments(ops) <= 0.01
  {
    hide Run, Gap, PoolIsExpenses, Sound, Overpayments, HonestOp;
    EmptyBooksBalance();
    RunDriftsByOverpayments(EMPTY, ops);
  }

  /** A sale of 100 that is paid with 150. */
  const OVERPAID := WbLine("1", SALE_WORD, "", 1.0, 100.0, 100.0, 150.0, 0.0, 0.0, 0.0, 0.0, 0.0, 0.0, 0.0)

  lemma OverpaidIsASale()
    ensures OVERPAID.IsSale()
  {
    assert forall i :: 0 <= i <= 6 ==> !(RETURN_WORD <= SALE_WORD[i..]);
    NotContained(SALE_WORD, RETURN_WORD);
    NotContained("", RETURN_WORD);
  }

  lemma {:induction false} NotContained(text: string, word: string)
    requires forall i :: 0 <= i <= |text| ==> !(word <= text[i..])
    ensures !Contains(text, word)
  {
    assert text[0..] == text;
    if text != [] {
      forall i | 0 <= i <= |text[1..]| ensures !(word <= text[1..][i..]) {
        assert text[1..][i..] == text[i + 1..];
      }
      NotContained(text[1..], word);
    }
  }

  /** Its books miss the raw total by fifty, and the check after allocating fails. */
  lemma OverpaidSaleDoesNotReconcile()
    ensures Overpayments([WbOp(OVERPAID)]) == -50.0 && !Reconciles(Run(EMPTY, [WbOp(OVERPAID)]))
  {
    hide Run, Reconciles;
    OverpaidIsASale();
    assert [WbOp(OVERPAID)][..0] == [];
    RunReconcilesIff([WbOp(OVERPAID)]);
  }
}
