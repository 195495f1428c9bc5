/** What one accrual payload posts to the books, and what it leaves true of them. */
module Accruals {
  import opened Wrappers
  import opened Sums
  import opened Ledger

  datatype Fee = Fee(typeId: int, accrued: real)

  /** One product of a posting; `sku` is empty when the payload names none. */
  datatype Line = Line(sku: string, quantity: real, saleAmount: real, salePrice: real, commission: real,
                       services: seq<Fee>, totalAccrued: real)

  datatype ItemFees = ItemFees(sku: string, fees: seq<Fee>)

  datatype Payload = Payload(date: Option<string>, unit: Option<string>, total: real, products: seq<Line>,
                             itemFees: seq<ItemFees>, nonItemFee: Option<Fee>, containerFees: seq<Fee>)

  /** A sale line is booked under its month, so the payload must carry a date. */
  predicate Dated(p: Payload) {
    forall i :: 0 <= i < |p.products| ==>
      p.products[i].sku != "" && p.products[i].saleAmount != 0.0 ==> p.date.Some?
  }

  function Month(day: string): string {
    if |day| <= 7 then day else day[..7]
  }

  /** How an optional text is printed. */
  function Printed(text: Option<string>): string {
    if text.Some? then text.value else "None"
  }

  function SumFees(fees: seq<Fee>): real {
    if fees == [] then 0.0 else SumFees(fees[..|fees| - 1]) + fees[|fees| - 1].accrued
  }

  const CAMPAIGN_TYPES: set<int> := {41, 75}

  // ----- The journal of a payload -----

  function FeePosting(sku: string, fee: Fee): Posting {
    if sku != "" then ToRow(sku, Category(fee.typeId), -fee.accrued)
    else ToPool(Category(fee.typeId), -fee.accrued)
  }

  function FeeJournal(sku: string, fees: seq<Fee>): seq<Posting> {
    if fees == [] then []
    else FeeJournal(sku, fees[..|fees| - 1]) + [FeePosting(sku, fees[|fees| - 1])]
  }

  /** Sales count up and returns count down, by the sign of the amount. */
  function SignedQuantity(line: Line): real {
    if line.saleAmount < 0.0 then -line.quantity else line.quantity
  }

  function BuyerMoney(line: Line): real {
    Abs(line.salePrice) * SignedQuantity(line)
  }

  function SaleCore(line: Line, month: string): (r: seq<Posting>)
    ensures |r| == 8
  {
    [ToRow(line.sku, if line.saleAmount > 0.0 then SalesQty else ReturnsQty, SignedQuantity(line)),
     ToRow(line.sku, Revenue, line.saleAmount),
     ToRow(line.sku, BuyerRevenue, BuyerMoney(line)),
     ToRow(line.sku, RevenueRf, line.saleAmount),
     ToRow(line.sku, BuyerRf, BuyerMoney(line)),
     ToRow(line.sku, CommissionRf, -line.commission),
     ToMonth(line.sku, month, BuyerMoney(line)),
     ToRow(line.sku, Commission, -line.commission)]
  }

  /** A sale of a numbered posting is also remembered, so that a later buyout report finds it. */
  function DomesticJournal(line: Line, unit: Option<string>): seq<Posting> {
    if line.saleAmount > 0.0 && unit.Some? && unit.value != "" then
      [ToDomestic((unit.value, line.sku), DomesticSale(line))]
    else []
  }

  function SaleJournal(line: Line, month: string, unit: Option<string>): seq<Posting> {
    if line.saleAmount == 0.0 then [] else SaleCore(line, month) + DomesticJournal(line, unit)
  }

  function DomesticSale(line: Line): Sale {
    Sale(line.quantity, line.saleAmount, Abs(line.salePrice) * line.quantity, -line.commission)
  }

  function LineJournal(line: Line, p: Payload): seq<Posting> {
    if line.sku == "" then []
    else
      SaleJournal(line, Month(Printed(p.date)), p.unit) + FeeJournal(line.sku, line.services) +
      [ToRow(line.sku, OtherServices, -(line.totalAccrued - SumFees(line.services)))]
  }

  function LinesJournal(lines: seq<Line>, p: Payload): seq<Posting> {
    if lines == [] then []
    else LinesJournal(lines[..|lines| - 1], p) + LineJournal(lines[|lines| - 1], p)
  }

  function ItemFeesJournal(items: seq<ItemFees>): seq<Posting> {
    if items == [] then []
    else ItemFeesJournal(items[..|items| - 1]) + FeeJournal(items[|items| - 1].sku, items[|items| - 1].fees)
  }

  function NonItemJournal(p: Payload): seq<Posting> {
    if p.nonItemFee.None? then []
    else
      [FeePosting("", p.nonItemFee.value)] +
      (if p.nonItemFee.value.typeId in CAMPAIGN_TYPES then
         [ToCampaign((Printed(p.date), Printed(p.unit)), -p.nonItemFee.value.accrued)]
       else [])
  }

  function ExplainedJournal(p: Payload): seq<Posting> {
    LinesJournal(p.products, p) + ItemFeesJournal(p.itemFees) + NonItemJournal(p) +
    FeeJournal("", p.containerFees)
  }

  /** Whatever part of the total the explained postings do not account for goes to the pool. */
  function AddJournal(p: Payload): seq<Posting> {
    ExplainedJournal(p) + [ToPool(OtherAccruals, -(p.total - JournalNet(ExplainedJournal(p))))]
  }

  function Add(b: Books, p: Payload): Books {
    PostAll(b, AddJournal(p)).(rawTotal := b.rawTotal + p.total, operations := b.operations + 1,
                               runningNet := b.runningNet + p.total)
  }

  // ----- What stays true of the books -----

  predicate RowSplits(row: Row) {
    && Get(row, Revenue) == Get(row, RevenueRf) + Get(row, RevenueCis)
    && Get(row, BuyerRevenue) == Get(row, BuyerRf) + Get(row, BuyerCis)
    && Get(row, Commission) == Get(row, CommissionRf) + Get(row, CommissionCis)
  }

  /** The re-scanned net is the raw total. */
  ghost predicate Balanced(b: Books) {
    Net(b.rows, b.pool) == b.rawTotal
  }

  ghost predicate Split(b: Books) {
    forall sku :: RowSplits(RowOf(b.rows, sku))
  }

  /** The sale months of every article add up to its buyer revenue. */
  ghost predicate MonthsAddUp(b: Books) {
    forall sku :: SumMap(DayOf(b.saleDays, sku)) == Get(RowOf(b.rows, sku), BuyerRevenue)
  }

  ghost predicate PoolIsExpenses(b: Books) {
    forall c :: c in b.pool ==> IsExpense(c)
  }

  /** The invariant of an Ozon run. */
  ghost predicate Sound(b: Books) {
    Balanced(b) && Split(b) && MonthsAddUp(b) && PoolIsExpenses(b)
  }

  // ----- Journals that keep it -----

  /** The three splits of a row, and the sum of its sale months. */
  datatype Rule = RevenueSplits | BuyerSplits | CommissionSplits | MonthsAdd

  /** By how much adding `x` to a column moves a row away from a rule. */
  function ColumnGap(c: Column, x: real, rule: Rule): real {
    match rule
    case RevenueSplits =>
      if c == Revenue then x else if c == RevenueRf || c == RevenueCis then -x else 0.0
    case BuyerSplits =>
      if c == BuyerRevenue then x else if c == BuyerRf || c == BuyerCis then -x else 0.0
    case CommissionSplits =>
      if c == Commission then x else if c == CommissionRf || c == CommissionCis then -x else 0.0
    case MonthsAdd =>
      if c == BuyerRevenue then -x else 0.0
  }

  function PostingGap(p: Posting, sku: string, rule: Rule): real {
    match p
    case ToRow(at, c, x) => if at == sku then ColumnGap(c, x, rule) else 0.0
    case ToMonth(at, _, x) => if at == sku && rule == MonthsAdd then x else 0.0
    case _ => 0.0
  }

  function JournalGap(journal: seq<Posting>, sku: string, rule: Rule): real {
    if journal == [] then 0.0
    else JournalGap(journal[..|journal| - 1], sku, rule) + PostingGap(journal[|journal| - 1], sku, rule)
  }

  /** By how much the books of an article miss a rule. */
  ghost function BooksGap(b: Books, sku: string, rule: Rule): real {
    var row := RowOf(b.rows, sku);
    match rule
    case RevenueSplits => Get(row, Revenue) - Get(row, RevenueRf) - Get(row, RevenueCis)
    case BuyerSplits => Get(row, BuyerRevenue) - Get(row, BuyerRf) - Get(row, BuyerCis)
    case CommissionSplits => Get(row, Commission) - Get(row, CommissionRf) - Get(row, CommissionCis)
    case MonthsAdd => SumMap(DayOf(b.saleDays, sku)) - Get(row, BuyerRevenue)
  }

  lemma GetBump(row: Row, c: Column, x: real, d: Column)
    ensures Get(BumpRow(row, c, x), d) == Get(row, d) + if c == d then x else 0.0
  {
  }

  lemma RowMovesGap(b: Books, after: Books, c: Column, x: real, sku: string, rule: Rule)
    requires RowOf(after.rows, sku) == BumpRow(RowOf(b.rows, sku), c, x) && after.saleDays == b.saleDays
    ensures BooksGap(after, sku, rule) == BooksGap(b, sku, rule) + ColumnGap(c, x, rule)
  {
    hide Get, BumpRow, RowOf;
    var row := RowOf(b.rows, sku);
    match rule
    case RevenueSplits =>
      GetBump(row, c, x, Revenue);
      GetBump(row, c, x, RevenueRf);
      GetBump(row, c, x, RevenueCis);
    case BuyerSplits =>
      GetBump(row, c, x, BuyerRevenue);
      GetBump(row, c, x, BuyerRf);
      GetBump(row, c, x, BuyerCis);
    case CommissionSplits =>
      GetBump(row, c, x, Commission);
      GetBump(row, c, x, CommissionRf);
      GetBump(row, c, x, CommissionCis);
    case MonthsAdd =>
      GetBump(row, c, x, BuyerRevenue);
  }

  lemma GapOfPosting(b: Books, p: Posting, sku: string, rule: Rule)
    ensures BooksGap(Post(b, p), sku, rule) == BooksGap(b, sku, rule) + PostingGap(p, sku, rule)
  {
    var after := Post(b, p);
    match p
    case ToRow(at, c, x) =>
      assert after.saleDays == b.saleDays;
      if at == sku { RowMovesGap(b, after, c, x, sku, rule); }
    case ToMonth(_, _, _) =>
      MonthsOfPosting(b, p, sku);
    case _ =>
      assert after.rows == b.rows && after.saleDays == b.saleDays;
  }

  lemma {:induction false} GapOfPosted(b: Books, journal: seq<Posting>, sku: string, rule: Rule)
    ensures BooksGap(PostAll(b, journal), sku, rule) == BooksGap(b, sku, rule) + JournalGap(journal, sku, rule)
  {
    hide BooksGap, PostingGap, Post;
    if journal != [] {
      GapOfPosted(b, journal[..|journal| - 1], sku, rule);
      GapOfPosting(PostAll(b, journal[..|journal| - 1]), journal[|journal| - 1], sku, rule);
    }
  }

  lemma {:induction false} GapConcat(a: seq<Posting>, b: seq<Posting>, sku: string, rule: Rule)
    ensures JournalGap(a + b, sku, rule) == JournalGap(a, sku, rule) + JournalGap(b, sku, rule)
  {
    hide PostingGap;
    if b == [] {
      assert a + b == a;
    } else {
      GapConcat(a, b[..|b| - 1], sku, rule);
      assert (a + b)[..|a + b| - 1] == a + b[..|b| - 1];
    }
  }

  ghost predicate Even(journal: seq<Posting>) {
    && (forall sku, rule :: JournalGap(journal, sku, rule) == 0.0)
    && (forall i :: 0 <= i < |journal| && journal[i].ToPool? ==> IsExpense(journal[i].column))
  }

  lemma EvenConcat(a: seq<Posting>, b: seq<Posting>)
    requires Even(a) && Even(b)
    ensures Even(a + b)
  {
    forall sku, rule ensures JournalGap(a + b, sku, rule) == 0.0 {
      GapConcat(a, b, sku, rule);
    }
  }

  /** A posting to an expense column, to the pool or outside the rows. */
  predicate Plain(p: Posting) {
    match p
    case ToRow(_, c, _) => IsExpense(c) || c == SalesQty || c == ReturnsQty || c == SalesCis
    case ToPool(c, _) => IsExpense(c)
    case ToMonth(_, _, _) => false
    case _ => true
  }

  lemma {:induction false} PlainIsEven(journal: seq<Posting>)
    requires forall i :: 0 <= i < |journal| ==> Plain(journal[i])
    ensures Even(journal)
  {
    if journal != [] {
      var last := journal[|journal| - 1];
      PlainIsEven(journal[..|journal| - 1]);
      assert Plain(last);
      forall sku, rule ensures JournalGap(journal, sku, rule) == 0.0 {
        assert JournalGap(journal[..|journal| - 1], sku, rule) == 0.0;
      }
    }
  }

  lemma {:induction false} FeesArePlain(sku: string, fees: seq<Fee>)
    ensures forall i :: 0 <= i < |FeeJournal(sku, fees)| ==> Plain(FeeJournal(sku, fees)[i])
  {
    if fees != [] { FeesArePlain(sku, fees[..|fees| - 1]); }
  }

  lemma FeesAreEven(sku: string, fees: seq<Fee>)
    ensures Even(FeeJournal(sku, fees))
  {
    FeesArePlain(sku, fees);
    PlainIsEven(FeeJournal(sku, fees));
  }

  lemma {:induction false} EightGaps(j: seq<Posting>, sku: string, rule: Rule)
    requires |j| == 8
    ensures JournalGap(j, sku, rule) ==
      PostingGap(j[0], sku, rule) + PostingGap(j[1], sku, rule) + PostingGap(j[2], sku, rule) +
      PostingGap(j[3], sku, rule) + PostingGap(j[4], sku, rule) + PostingGap(j[5], sku, rule) +
      PostingGap(j[6], sku, rule) + PostingGap(j[7], sku, rule)
  {
    hide PostingGap;
    assert JournalGap(j[..0], sku, rule) == 0.0;
    assert j[..1][..0] == j[..0] && j[..2][..1] == j[..1] && j[..3][..2] == j[..2] && j[..4][..3] == j[..3];
    assert j[..5][..4] == j[..4] && j[..6][..5] == j[..5] && j[..7][..6] == j[..6];
    assert JournalGap(j[..1], sku, rule) == PostingGap(j[0], sku, rule);
    assert JournalGap(j[..2], sku, rule) == JournalGap(j[..1], sku, rule) + PostingGap(j[1], sku, rule);
    assert JournalGap(j[..3], sku, rule) == JournalGap(j[..2], sku, rule) + PostingGap(j[2], sku, rule);
    assert JournalGap(j[..4], sku, rule) == JournalGap(j[..3], sku, rule) + PostingGap(j[3], sku, rule);
    assert JournalGap(j[..5], sku, rule) == JournalGap(j[..4], sku, rule) + PostingGap(j[4], sku, rule);
    assert JournalGap(j[..6], sku, rule) == JournalGap(j[..5], sku, rule) + PostingGap(j[5], sku, rule);
    assert JournalGap(j[..7], sku, rule) == JournalGap(j[..6], sku, rule) + PostingGap(j[6], sku, rule);
  }

  lemma SaleHasNoGap(line: Line, month: string, sku: string, rule: Rule)
    ensures JournalGap(SaleCore(line, month), sku, rule) == 0.0
  {
    hide JournalGap;
    EightGaps(SaleCore(line, month), sku, rule);
  }

  lemma SaleIsEven(line: Line, month: string, unit: Option<string>)
    ensures Even(SaleJournal(line, month, unit))
  {
    if line.saleAmount != 0.0 {
      forall sku, rule ensures JournalGap(SaleCore(line, month), sku, rule) == 0.0 {
        SaleHasNoGap(line, month, sku, rule);
      }
      PlainIsEven(DomesticJournal(line, unit));
      EvenConcat(SaleCore(line, month), DomesticJournal(line, unit));
    } else {
      PlainIsEven([]);
    }
  }

  lemma LineIsEven(line: Line, p: Payload)
    ensures Even(LineJournal(line, p))
  {
    if line.sku == "" {
      PlainIsEven([]);
    } else {
      var sale := SaleJournal(line, Month(Printed(p.date)), p.unit);
      var rest := [ToRow(line.sku, OtherServices, -(line.totalAccrued - SumFees(line.services)))];
      SaleIsEven(line, Month(Printed(p.date)), p.unit);
      FeesAreEven(line.sku, line.services);
      PlainIsEven(rest);
      EvenConcat(sale, FeeJournal(line.sku, line.services));
      EvenConcat(sale + FeeJournal(line.sku, line.services), rest);
    }
  }

  lemma {:induction false} LinesAreEven(lines: seq<Line>, p: Payload)
    ensures Even(LinesJournal(lines, p))
  {
    if lines == [] {
      PlainIsEven([]);
    } else {
      LinesAreEven(lines[..|lines| - 1], p);
      LineIsEven(lines[|lines| - 1], p);
      EvenConcat(LinesJournal(lines[..|lines| - 1], p), LineJournal(lines[|lines| - 1], p));
    }
  }

  lemma {:induction false} ItemFeesAreEven(items: seq<ItemFees>)
    ensures Even(ItemFeesJournal(items))
  {
    if items == [] {
      PlainIsEven([]);
    } else {
      var last := items[|items| - 1];
      ItemFeesAreEven(items[..|items| - 1]);
      FeesAreEven(last.sku, last.fees);
      EvenConcat(ItemFeesJournal(items[..|items| - 1]), FeeJournal(last.sku, last.fees));
    }
  }

  lemma NonItemIsEven(p: Payload)
    ensures Even(NonItemJournal(p))
  {
    PlainIsEven(NonItemJournal(p));
  }

  lemma AddIsEven(p: Payload)
    ensures Even(AddJournal(p))
  {
    hide Even, LinesJournal, ItemFeesJournal, FeeJournal, JournalNet;
    var lines, items := LinesJournal(p.products, p), ItemFeesJournal(p.itemFees);
    var nonItem, container := NonItemJournal(p), FeeJournal("", p.containerFees);
    var rest := [ToPool(OtherAccruals, -(p.total - JournalNet(ExplainedJournal(p))))];
    LinesAreEven(p.products, p);
    ItemFeesAreEven(p.itemFees);
    NonItemIsEven(p);
    FeesAreEven("", p.containerFees);
    PlainIsEven(rest);
    EvenConcat(lines, items);
    EvenConcat(lines + items, nonItem);
    EvenConcat(lines + items + nonItem, container);
    EvenConcat(lines + items + nonItem + container, rest);
  }

  /** Every payload posts exactly its total, whatever its lines and fees say. */
  lemma AddPostsTheTotal(p: Payload)
    ensures JournalNet(AddJournal(p)) == p.total
  {
    var rest := [ToPool(OtherAccruals, -(p.total - JournalNet(ExplainedJournal(p))))];
    JournalNetConcat(ExplainedJournal(p), rest);
    assert rest[..0] == [];
  }

  lemma PoolOfPosting(b: Books, p: Posting)
    requires PoolIsExpenses(b) && (p.ToPool? ==> IsExpense(p.column))
    ensures PoolIsExpenses(Post(b, p))
  {
    if !p.ToPool? { assert Post(b, p).pool == b.pool; }
  }

  /** The pool keeps to expense columns. */
  lemma {:induction false} PoolOfPosted(b: Books, journal: seq<Posting>)
    requires PoolIsExpenses(b)
    requires forall i :: 0 <= i < |journal| && journal[i].ToPool? ==> IsExpense(journal[i].column)
    ensures PoolIsExpenses(PostAll(b, journal))
  {
    if journal != [] {
      hide PoolIsExpenses;
      PoolOfPosted(b, journal[..|journal| - 1]);
      PoolOfPosting(PostAll(b, journal[..|journal| - 1]), journal[|journal| - 1]);
    }
  }

  /** An even journal keeps everything but the balance, and moves the net by what it adds up to. */
  lemma EvenJournalKeepsBooks(b: Books, journal: seq<Posting>)
    requires Split(b) && MonthsAddUp(b) && PoolIsExpenses(b) && Even(journal)
    ensures var after := PostAll(b, journal);
      Split(after) && MonthsAddUp(after) && PoolIsExpenses(after) &&
      Net(after.rows, after.pool) == Net(b.rows, b.pool) + JournalNet(journal)
  {
    var after := PostAll(b, journal);
    NetOfPosted(b, journal);
    PoolOfPosted(b, journal);
    forall sku
      ensures RowSplits(RowOf(after.rows, sku))
      ensures SumMap(DayOf(after.saleDays, sku)) == Get(RowOf(after.rows, sku), BuyerRevenue)
    {
      assert RowSplits(RowOf(b.rows, sku));
      forall rule ensures BooksGap(after, sku, rule) == 0.0 {
        GapOfPosted(b, journal, sku, rule);
        assert BooksGap(b, sku, rule) == 0.0;
      }
      NoGapsMeansSplit(after, sku);
    }
  }

  lemma NoGapsMeansSplit(b: Books, sku: string)
    requires forall rule :: BooksGap(b, sku, rule) == 0.0
    ensures RowSplits(RowOf(b.rows, sku))
    ensures SumMap(DayOf(b.saleDays, sku)) == Get(RowOf(b.rows, sku), BuyerRevenue)
  {
    assert BooksGap(b, sku, RevenueSplits) == 0.0 && BooksGap(b, sku, BuyerSplits) == 0.0;
    assert BooksGap(b, sku, CommissionSplits) == 0.0 && BooksGap(b, sku, MonthsAdd) == 0.0;
  }

  /** For every payload: adding it keeps the books sound. */
  lemma AddKeepsBooksSound(b: Books, p: Payload)
    requires Sound(b)
    ensures Sound(Add(b, p))
  {
    AddIsEven(p);
    AddPostsTheTotal(p);
    EvenJournalKeepsBooks(b, AddJournal(p));
  }

  // ----- What a payload books on an article, line by line -----

  /** What one line adds to the sale columns of its own article. */
  function LineCell(line: Line, c: Column): real {
    if line.sku == "" || line.saleAmount == 0.0 then 0.0
    else
      match c
      case SalesQty => if line.saleAmount > 0.0 then line.quantity else 0.0
      case ReturnsQty => if line.saleAmount < 0.0 then -line.quantity else 0.0
      case Revenue => line.saleAmount
      case RevenueRf => line.saleAmount
      case BuyerRevenue => BuyerMoney(line)
      case BuyerRf => BuyerMoney(line)
      case Commission => -line.commission
      case CommissionRf => -line.commission
      case _ => 0.0
  }

  function LinesCell(lines: seq<Line>, sku: string, c: Column): real {
    if lines == [] then 0.0
    else
      var line := lines[|lines| - 1];
      LinesCell(lines[..|lines| - 1], sku, c) + if line.sku == sku then LineCell(line, c) else 0.0
  }

  function ColumnPart(p: Posting, sku: string, c: Column): real {
    if p.ToRow? && p.sku == sku && p.column == c then p.amount else 0.0
  }

  lemma JournalSnoc(journal: seq<Posting>, p: Posting, sku: string, c: Column)
    ensures JournalColumn(journal + [p], sku, c) == JournalColumn(journal, sku, c) + ColumnPart(p, sku, c)
  {
    assert (journal + [p])[..|journal|] == journal;
  }

  lemma {:induction false} FeesSkipSales(sku: string, fees: seq<Fee>, other: string, c: Column)
    requires !IsExpense(c)
    ensures JournalColumn(FeeJournal(sku, fees), other, c) == 0.0
  {
    if fees != [] {
      FeesSkipSales(sku, fees[..|fees| - 1], other, c);
      JournalSnoc(FeeJournal(sku, fees[..|fees| - 1]), FeePosting(sku, fees[|fees| - 1]), other, c);
    }
  }

  lemma {:induction false} EightCells(j: seq<Posting>, sku: string, c: Column)
    requires |j| == 8
    ensures JournalColumn(j, sku, c) ==
      ColumnPart(j[0], sku, c) + ColumnPart(j[1], sku, c) + ColumnPart(j[2], sku, c) + ColumnPart(j[3], sku, c) +
      ColumnPart(j[4], sku, c) + ColumnPart(j[5], sku, c) + ColumnPart(j[6], sku, c) + ColumnPart(j[7], sku, c)
  {
    assert JournalColumn(j[..0], sku, c) == 0.0;
    assert j[..1][..0] == j[..0] && j[..2][..1] == j[..1] && j[..3][..2] == j[..2] && j[..4][..3] == j[..3];
    assert j[..5][..4] == j[..4] && j[..6][..5] == j[..5] && j[..7][..6] == j[..6];
    assert JournalColumn(j[..1], sku, c) == ColumnPart(j[0], sku, c);
    assert JournalColumn(j[..2], sku, c) == JournalColumn(j[..1], sku, c) + ColumnPart(j[1], sku, c);
    assert JournalColumn(j[..3], sku, c) == JournalColumn(j[..2], sku, c) + ColumnPart(j[2], sku, c);
    assert JournalColumn(j[..4], sku, c) == JournalColumn(j[..3], sku, c) + ColumnPart(j[3], sku, c);
    assert JournalColumn(j[..5], sku, c) == JournalColumn(j[..4], sku, c) + ColumnPart(j[4], sku, c);
    assert JournalColumn(j[..6], sku, c) == JournalColumn(j[..5], sku, c) + ColumnPart(j[5], sku, c);
    assert JournalColumn(j[..7], sku, c) == JournalColumn(j[..6], sku, c) + ColumnPart(j[6], sku, c);
  }

  lemma SaleCoreCells(line: Line, month: string, sku: string, c: Column)
    requires !IsExpense(c) && line.sku != "" && line.saleAmount != 0.0
    ensures JournalColumn(SaleCore(line, month), sku, c) == if line.sku == sku then LineCell(line, c) else 0.0
  {
    hide JournalColumn;
    EightCells(SaleCore(line, month), sku, c);
  }

  lemma DomesticCells(line: Line, unit: Option<string>, sku: string, c: Column)
    ensures JournalColumn(DomesticJournal(line, unit), sku, c) == 0.0
  {
    if DomesticJournal(line, unit) != [] {
      JournalSnoc([], DomesticJournal(line, unit)[0], sku, c);
      assert [] + DomesticJournal(line, unit) == DomesticJournal(line, unit);
    }
  }

  lemma SaleCells(line: Line, month: string, unit: Option<string>, sku: string, c: Column)
    requires !IsExpense(c) && line.sku != ""
    ensures JournalColumn(SaleJournal(line, month, unit), sku, c) == if line.sku == sku then LineCell(line, c) else 0.0
  {
    if line.saleAmount != 0.0 {
      SaleCoreCells(line, month, sku, c);
      DomesticCells(line, unit, sku, c);
      JournalColumnConcat(SaleCore(line, month), DomesticJournal(line, unit), sku, c);
    }
  }

  lemma LineCells(line: Line, p: Payload, sku: string, c: Column)
    requires !IsExpense(c)
    ensures JournalColumn(LineJournal(line, p), sku, c) == if line.sku == sku then LineCell(line, c) else 0.0
  {
    hide SaleJournal, FeeJournal, LineCell;
    if line.sku != "" {
      var sale := SaleJournal(line, Month(Printed(p.date)), p.unit);
      var diff := ToRow(line.sku, OtherServices, -(line.totalAccrued - SumFees(line.services)));
      SaleCells(line, Month(Printed(p.date)), p.unit, sku, c);
      JournalColumnConcat(sale, FeeJournal(line.sku, line.services), sku, c);
      FeesSkipSales(line.sku, line.services, sku, c);
      JournalSnoc(sale + FeeJournal(line.sku, line.services), diff, sku, c);
    } else {
      NamelessLine(line, c);
    }
  }

  lemma NamelessLine(line: Line, c: Column)
    requires line.sku == ""
    ensures LineCell(line, c) == 0.0
  {
  }

  lemma {:induction false} LinesCells(lines: seq<Line>, p: Payload, sku: string, c: Column)
    requires !IsExpense(c)
    ensures JournalColumn(LinesJournal(lines, p), sku, c) == LinesCell(lines, sku, c)
  {
    hide LineJournal, LineCell, JournalColumn;
    if lines != [] {
      var line := lines[|lines| - 1];
      LinesCells(lines[..|lines| - 1], p, sku, c);
      JournalColumnConcat(LinesJournal(lines[..|lines| - 1], p), LineJournal(line, p), sku, c);
      LineCells(line, p, sku, c);
    } else {
      EmptyJournal(sku, c);
    }
  }

  lemma EmptyJournal(sku: string, c: Column)
    ensures JournalColumn([], sku, c) == 0.0
  {
  }

  lemma {:induction false} ItemFeesSkipSales(items: seq<ItemFees>, sku: string, c: Column)
    requires !IsExpense(c)
    ensures JournalColumn(ItemFeesJournal(items), sku, c) == 0.0
  {
    if items != [] {
      var last := items[|items| - 1];
      ItemFeesSkipSales(items[..|items| - 1], sku, c);
      FeesSkipSales(last.sku, last.fees, sku, c);
      JournalColumnConcat(ItemFeesJournal(items[..|items| - 1]), FeeJournal(last.sku, last.fees), sku, c);
    }
  }

  lemma NonItemSkipsSales(p: Payload, sku: string, c: Column)
    requires !IsExpense(c)
    ensures JournalColumn(NonItemJournal(p), sku, c) == 0.0
  {
    if p.nonItemFee.Some? {
      var fee := p.nonItemFee.value;
      var campaign := ToCampaign((Printed(p.date), Printed(p.unit)), -fee.accrued);
      JournalSnoc([], FeePosting("", fee), sku, c);
      JournalSnoc([FeePosting("", fee)], campaign, sku, c);
      assert [] + [FeePosting("", fee)] == [FeePosting("", fee)] == [FeePosting("", fee)] + [];
    }
  }

  lemma ExplainedCells(p: Payload, sku: string, c: Column)
    requires !IsExpense(c)
    ensures JournalColumn(ExplainedJournal(p), sku, c) == LinesCell(p.products, sku, c)
  {
    hide LinesJournal, ItemFeesJournal, NonItemJournal, FeeJournal, JournalColumn;
    var lines, items := LinesJournal(p.products, p), ItemFeesJournal(p.itemFees);
    var nonItem, container := NonItemJournal(p), FeeJournal("", p.containerFees);
    LinesCells(p.products, p, sku, c);
    ItemFeesSkipSales(p.itemFees, sku, c);
    NonItemSkipsSales(p, sku, c);
    FeesSkipSales("", p.containerFees, sku, c);
    JournalColumnConcat(lines, items, sku, c);
    JournalColumnConcat(lines + items, nonItem, sku, c);
    JournalColumnConcat(lines + items + nonItem, container, sku, c);
  }

  /** Every sale column of every article grows by what the payload's own lines say, sales and
      returns apart, and by nothing else. */
  lemma AddBooksTheLines(b: Books, p: Payload, sku: string, c: Column)
    requires !IsExpense(c)
    ensures Get(RowOf(Add(b, p).rows, sku), c) == Get(RowOf(b.rows, sku), c) + LinesCell(p.products, sku, c)
  {
    hide ExplainedJournal, JournalColumn, PostAll;
    CellOfPosted(b, AddJournal(p), sku, c);
    ExplainedCells(p, sku, c);
    JournalSnoc(ExplainedJournal(p), ToPool(OtherAccruals, -(p.total - JournalNet(ExplainedJournal(p)))), sku, c);
  }
}
