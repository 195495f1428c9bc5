/** What a payload does to every cell: the fees of each article, the pool, the months and the campaigns,
    read off the payload and the type numbers of its fees. */
module PayloadCells {
  import opened Wrappers
  import opened Sums
  import opened Ledger
  import opened Accruals

  // ----- Which column a type of fee belongs to -----

  predicate Belongs(typeId: int, c: Column) {
    match c
    case Marketing => typeId in MARKETING_TYPES
    case Delivery => typeId in DELIVERY_TYPES
    case Partners => typeId in PARTNERS_TYPES
    case Fbo => typeId in FBO_TYPES
    case Compensation => typeId in COMPENSATION_TYPES
    case OtherServices =>
      typeId !in MARKETING_TYPES && typeId !in DELIVERY_TYPES && typeId !in PARTNERS_TYPES &&
      typeId !in FBO_TYPES && typeId !in COMPENSATION_TYPES
    case _ => false
  }

  lemma MarketingNotDelivery(t: int)
    requires t in MARKETING_TYPES
    ensures t !in DELIVERY_TYPES
  {
  }

  lemma MarketingNotPartners(t: int)
    requires t in MARKETING_TYPES
    ensures t !in PARTNERS_TYPES
  {
  }

  lemma MarketingNotFbo(t: int)
    requires t in MARKETING_TYPES
    ensures t !in FBO_TYPES
  {
  }

  lemma DeliveryNotPartners(t: int)
    requires t in DELIVERY_TYPES
    ensures t !in PARTNERS_TYPES
  {
  }

  lemma DeliveryNotFbo(t: int)
    requires t in DELIVERY_TYPES
    ensures t !in FBO_TYPES
  {
  }

  lemma PartnersNotFbo(t: int)
    requires t in PARTNERS_TYPES
    ensures t !in FBO_TYPES
  {
  }

  lemma CompensationIsApart(t: int)
    requires t in COMPENSATION_TYPES
    ensures t !in MARKETING_TYPES && t !in DELIVERY_TYPES && t !in PARTNERS_TYPES && t !in FBO_TYPES
  {
  }

  /** Every type belongs to one column, and that is where its fees go. */
  lemma FeesGoWhereTheyBelong(typeId: int, c: Column)
    ensures Category(typeId) == c <==> Belongs(typeId, c)
  {
    hide MARKETING_TYPES, DELIVERY_TYPES, PARTNERS_TYPES, FBO_TYPES, COMPENSATION_TYPES;
    if typeId in MARKETING_TYPES {
      MarketingNotDelivery(typeId);
      MarketingNotPartners(typeId);
      MarketingNotFbo(typeId);
    }
    if typeId in DELIVERY_TYPES {
      DeliveryNotPartners(typeId);
      DeliveryNotFbo(typeId);
    }
    if typeId in PARTNERS_TYPES { PartnersNotFbo(typeId); }
    if typeId in COMPENSATION_TYPES { CompensationIsApart(typeId); }
  }

  // ----- The pool after a journal -----

  function JournalPool(journal: seq<Posting>, c: Column): real {
    if journal == [] then 0.0
    else
      var p := journal[|journal| - 1];
      JournalPool(journal[..|journal| - 1], c) + if p.ToPool? && p.column == c then p.amount else 0.0
  }

  lemma {:induction false} JournalPoolConcat(a: seq<Posting>, b: seq<Posting>, c: Column)
    ensures JournalPool(a + b, c) == JournalPool(a, c) + JournalPool(b, c)
  {
    if b == [] {
      assert a + b == a;
    } else {
      JournalPoolConcat(a, b[..|b| - 1], c);
      assert (a + b)[..|a + b| - 1] == a + b[..|b| - 1];
    }
  }

  lemma PoolOfOnePosting(b: Books, p: Posting, c: Column)
    ensures At(Post(b, p).pool, c) == At(b.pool, c) + if p.ToPool? && p.column == c then p.amount else 0.0
  {
    if !p.ToPool? { assert Post(b, p).pool == b.pool; }
  }

  lemma {:induction false} PoolAfter(b: Books, journal: seq<Posting>, c: Column)
    ensures At(PostAll(b, journal).pool, c) == At(b.pool, c) + JournalPool(journal, c)
  {
    hide Post, At;
    if journal != [] {
      PoolAfter(b, journal[..|journal| - 1], c);
      PoolOfOnePosting(PostAll(b, journal[..|journal| - 1]), journal[|journal| - 1], c);
    }
  }

  lemma {:induction false} RowsOnly(journal: seq<Posting>, c: Column)
    requires forall i :: 0 <= i < |journal| ==> !journal[i].ToPool?
    ensures JournalPool(journal, c) == 0.0
  {
    if journal != [] { RowsOnly(journal[..|journal| - 1], c); }
  }

  lemma OnePool(p: Posting, c: Column)
    ensures JournalPool([p], c) == if p.ToPool? && p.column == c then p.amount else 0.0
  {
    assert [p][..0] == [];
  }

  lemma OneColumn(p: Posting, sku: string, c: Column)
    ensures JournalColumn([p], sku, c) == ColumnPart(p, sku, c)
  {
    assert [p][..0] == [];
  }

  // ----- Fees -----

  /** The fees that belong to a column; what is charged counts against the article. */
  function FeesIn(fees: seq<Fee>, c: Column): real {
    if fees == [] then 0.0
    else
      var last := fees[|fees| - 1];
      FeesIn(fees[..|fees| - 1], c) + if Belongs(last.typeId, c) then -last.accrued else 0.0
  }

  lemma {:induction false} FeeJournalCell(sku: string, fees: seq<Fee>, other: string, c: Column)
    ensures JournalColumn(FeeJournal(sku, fees), other, c) == if sku != "" && sku == other then FeesIn(fees, c) else 0.0
  {
    hide Category, Belongs;
    if fees != [] {
      var n := |fees| - 1;
      FeeJournalCell(sku, fees[..n], other, c);
      JournalSnoc(FeeJournal(sku, fees[..n]), FeePosting(sku, fees[n]), other, c);
      FeesGoWhereTheyBelong(fees[n].typeId, c);
    }
  }

  lemma {:induction false} FeeJournalPool(sku: string, fees: seq<Fee>, c: Column)
    ensures JournalPool(FeeJournal(sku, fees), c) == if sku == "" then FeesIn(fees, c) else 0.0
  {
    hide Category, Belongs;
    if fees != [] {
      var n := |fees| - 1;
      FeeJournalPool(sku, fees[..n], c);
      JournalPoolConcat(FeeJournal(sku, fees[..n]), [FeePosting(sku, fees[n])], c);
      OnePool(FeePosting(sku, fees[n]), c);
      FeesGoWhereTheyBelong(fees[n].typeId, c);
    }
  }

  /** The services of a line, and the rest of its delivery total as other services. */
  function LineFees(line: Line, c: Column): real {
    FeesIn(line.services, c) + if c == OtherServices then SumFees(line.services) - line.totalAccrued else 0.0
  }

  /** The fees that the lines of an article name. */
  function LinesFees(lines: seq<Line>, sku: string, c: Column): real {
    if lines == [] then 0.0
    else
      var last := lines[|lines| - 1];
      LinesFees(lines[..|lines| - 1], sku, c) + if last.sku == sku && sku != "" then LineFees(last, c) else 0.0
  }

  /** The item fees of one article, or without one those of none. */
  function ItemsFees(items: seq<ItemFees>, sku: string, c: Column): real {
    if items == [] then 0.0
    else
      var last := items[|items| - 1];
      ItemsFees(items[..|items| - 1], sku, c) + if last.sku == sku then FeesIn(last.fees, c) else 0.0
  }

  function NonItemFees(p: Payload): seq<Fee> {
    if p.nonItemFee.Some? then [p.nonItemFee.value] else []
  }

  /** What a payload charges to a column of an article: services and item fees that name it. */
  function FeeCell(p: Payload, sku: string, c: Column): real {
    if sku == "" then 0.0 else LinesFees(p.products, sku, c) + ItemsFees(p.itemFees, sku, c)
  }

  /** What the lines with an article, their sales and their deliveries, come to. */
  function LinesNet(lines: seq<Line>): real {
    if lines == [] then 0.0
    else
      var last := lines[|lines| - 1];
      LinesNet(lines[..|lines| - 1]) +
      if last.sku == "" then 0.0
      else last.totalAccrued + if last.saleAmount != 0.0 then last.saleAmount + last.commission else 0.0
  }

  function ItemsNet(items: seq<ItemFees>): real {
    if items == [] then 0.0 else ItemsNet(items[..|items| - 1]) + SumFees(items[|items| - 1].fees)
  }

  /** The part of the total that lines and fees do not explain. */
  function Unexplained(p: Payload): real {
    p.total - LinesNet(p.products) - ItemsNet(p.itemFees) - SumFees(NonItemFees(p)) - SumFees(p.containerFees)
  }

  /** What a payload charges to a column of the pool: fees that name no article, and the unexplained
      rest of the total. */
  function PoolCell(p: Payload, c: Column): real {
    ItemsFees(p.itemFees, "", c) + FeesIn(NonItemFees(p), c) + FeesIn(p.containerFees, c) +
    if c == OtherAccruals then -Unexplained(p) else 0.0
  }

  // ----- Lines -----

  lemma SaleHasNoFees(line: Line, month: string, unit: Option<string>, sku: string, c: Column)
    requires IsExpense(c)
    ensures JournalColumn(SaleJournal(line, month, unit), sku, c) == 0.0 && JournalPool(SaleJournal(line, month, unit), c) == 0.0
  {
    hide JournalColumn, BuyerMoney;
    if line.saleAmount == 0.0 {
      EmptyJournal(sku, c);
    } else {
      EightCells(SaleCore(line, month), sku, c);
      DomesticCells(line, unit, sku, c);
      JournalColumnConcat(SaleCore(line, month), DomesticJournal(line, unit), sku, c);
    }
    RowsOnly(SaleJournal(line, month, unit), c);
  }

  lemma LineCharges(line: Line, p: Payload, sku: string, c: Column)
    requires IsExpense(c)
    ensures JournalColumn(LineJournal(line, p), sku, c) == if line.sku == sku && sku != "" then LineFees(line, c) else 0.0
    ensures JournalPool(LineJournal(line, p), c) == 0.0
  {
    hide SaleJournal, FeeJournal, JournalColumn, JournalPool, FeesIn, SumFees;
    if line.sku == "" {
      EmptyJournal(sku, c);
      RowsOnly([], c);
    } else {
      var sale, fees := SaleJournal(line, Month(Printed(p.date)), p.unit), FeeJournal(line.sku, line.services);
      var rest := ToRow(line.sku, OtherServices, -(line.totalAccrued - SumFees(line.services)));
      SaleHasNoFees(line, Month(Printed(p.date)), p.unit, sku, c);
      FeeJournalCell(line.sku, line.services, sku, c);
      FeeJournalPool(line.sku, line.services, c);
      JournalColumnConcat(sale, fees, sku, c);
      JournalPoolConcat(sale, fees, c);
      JournalSnoc(sale + fees, rest, sku, c);
      JournalPoolConcat(sale + fees, [rest], c);
      OnePool(rest, c);
    }
  }

  lemma {:induction false} LinesCharge(lines: seq<Line>, p: Payload, sku: string, c: Column)
    requires IsExpense(c)
    ensures JournalColumn(LinesJournal(lines, p), sku, c) == LinesFees(lines, sku, c)
    ensures JournalPool(LinesJournal(lines, p), c) == 0.0
  {
    hide LineJournal, LineFees, JournalColumn, JournalPool;
    if lines == [] {
      EmptyJournal(sku, c);
      RowsOnly([], c);
    } else {
      var n := |lines| - 1;
      LinesCharge(lines[..n], p, sku, c);
      LineCharges(lines[n], p, sku, c);
      JournalColumnConcat(LinesJournal(lines[..n], p), LineJournal(lines[n], p), sku, c);
      JournalPoolConcat(LinesJournal(lines[..n], p), LineJournal(lines[n], p), c);
    }
  }

  lemma {:induction false} ItemsCharge(items: seq<ItemFees>, sku: string, c: Column)
    requires IsExpense(c)
    ensures JournalColumn(ItemFeesJournal(items), sku, c) == if sku == "" then 0.0 else ItemsFees(items, sku, c)
    ensures JournalPool(ItemFeesJournal(items), c) == ItemsFees(items, "", c)
  {
    hide FeeJournal, FeesIn;
    if items != [] {
      var n := |items| - 1;
      ItemsCharge(items[..n], sku, c);
      FeeJournalCell(items[n].sku, items[n].fees, sku, c);
      FeeJournalPool(items[n].sku, items[n].fees, c);
      JournalColumnConcat(ItemFeesJournal(items[..n]), FeeJournal(items[n].sku, items[n].fees), sku, c);
      JournalPoolConcat(ItemFeesJournal(items[..n]), FeeJournal(items[n].sku, items[n].fees), c);
    }
  }

  lemma NonItemCharges(p: Payload, sku: string, c: Column)
    ensures JournalColumn(NonItemJournal(p), sku, c) == 0.0
    ensures JournalPool(NonItemJournal(p), c) == FeesIn(NonItemFees(p), c)
  {
    hide Category, Belongs;
    if p.nonItemFee.Some? {
      var fee := p.nonItemFee.value;
      var first, campaign := FeePosting("", fee), ToCampaign((Printed(p.date), Printed(p.unit)), -fee.accrued);
      OneColumn(first, sku, c);
      OneColumn(campaign, sku, c);
      OnePool(first, c);
      OnePool(campaign, c);
      FeesGoWhereTheyBelong(fee.typeId, c);
      JournalColumnConcat([first], [campaign], sku, c);
      JournalPoolConcat([first], [campaign], c);
      assert [first] + [] == [first];
      assert [fee][..0] == [];
    }
  }

  // ----- What the lines explain -----

  lemma FeePostingNet(sku: string, fee: Fee)
    ensures NetOf(FeePosting(sku, fee)) == fee.accrued
  {
    hide Category;
  }

  lemma {:induction false} FeeJournalNet(sku: string, fees: seq<Fee>)
    ensures JournalNet(FeeJournal(sku, fees)) == SumFees(fees)
  {
    if fees != [] {
      var n := |fees| - 1;
      FeeJournalNet(sku, fees[..n]);
      JournalNetConcat(FeeJournal(sku, fees[..n]), [FeePosting(sku, fees[n])]);
      OneJournalNet(FeePosting(sku, fees[n]));
      FeePostingNet(sku, fees[n]);
    }
  }

  lemma OneJournalNet(p: Posting)
    ensures JournalNet([p]) == NetOf(p)
  {
    assert [p][..0] == [];
  }

  lemma {:induction false} EightNets(j: seq<Posting>)
    requires |j| == 8
    ensures JournalNet(j) == NetOf(j[0]) + NetOf(j[1]) + NetOf(j[2]) + NetOf(j[3]) +
                             NetOf(j[4]) + NetOf(j[5]) + NetOf(j[6]) + NetOf(j[7])
  {
    hide NetOf;
    assert JournalNet(j[..0]) == 0.0;
    assert j[..1][..0] == j[..0] && j[..2][..1] == j[..1] && j[..3][..2] == j[..2] && j[..4][..3] == j[..3];
    assert j[..5][..4] == j[..4] && j[..6][..5] == j[..5] && j[..7][..6] == j[..6];
    assert JournalNet(j[..1]) == NetOf(j[0]);
    assert JournalNet(j[..2]) == JournalNet(j[..1]) + NetOf(j[1]);
    assert JournalNet(j[..3]) == JournalNet(j[..2]) + NetOf(j[2]);
    assert JournalNet(j[..4]) == JournalNet(j[..3]) + NetOf(j[3]);
    assert JournalNet(j[..5]) == JournalNet(j[..4]) + NetOf(j[4]);
    assert JournalNet(j[..6]) == JournalNet(j[..5]) + NetOf(j[5]);
    assert JournalNet(j[..7]) == JournalNet(j[..6]) + NetOf(j[6]);
  }

  lemma CoreNetIs(line: Line, month: string)
    ensures JournalNet(SaleCore(line, month)) == line.saleAmount + line.commission
  {
    hide BuyerMoney, JournalNet;
    EightNets(SaleCore(line, month));
  }

  lemma SaleNetIs(line: Line, month: string, unit: Option<string>)
    ensures JournalNet(SaleJournal(line, month, unit)) ==
            if line.saleAmount != 0.0 then line.saleAmount + line.commission else 0.0
  {
    hide SaleCore;
    if line.saleAmount != 0.0 {
      CoreNetIs(line, month);
      NothingWeighs(DomesticJournal(line, unit));
      JournalNetConcat(SaleCore(line, month), DomesticJournal(line, unit));
    }
  }

  lemma {:induction false} NothingWeighs(j: seq<Posting>)
    requires forall i :: 0 <= i < |j| ==> NetOf(j[i]) == 0.0
    ensures JournalNet(j) == 0.0
  {
    if j != [] { NothingWeighs(j[..|j| - 1]); }
  }

  lemma LineNetIs(line: Line, p: Payload)
    ensures JournalNet(LineJournal(line, p)) ==
            if line.sku == "" then 0.0
            else line.totalAccrued + if line.saleAmount != 0.0 then line.saleAmount + line.commission else 0.0
  {
    hide SaleJournal, FeeJournal, SumFees;
    if line.sku != "" {
      var sale, fees := SaleJournal(line, Month(Printed(p.date)), p.unit), FeeJournal(line.sku, line.services);
      var rest := ToRow(line.sku, OtherServices, -(line.totalAccrued - SumFees(line.services)));
      hide JournalNet;
      SaleNetIs(line, Month(Printed(p.date)), p.unit);
      FeeJournalNet(line.sku, line.services);
      OneJournalNet(rest);
      JournalNetConcat(sale, fees);
      JournalNetConcat(sale + fees, [rest]);
    }
  }

  lemma {:induction false} LinesNetIs(lines: seq<Line>, p: Payload)
    ensures JournalNet(LinesJournal(lines, p)) == LinesNet(lines)
  {
    hide LineJournal;
    if lines != [] {
      var n := |lines| - 1;
      LinesNetIs(lines[..n], p);
      LineNetIs(lines[n], p);
      JournalNetConcat(LinesJournal(lines[..n], p), LineJournal(lines[n], p));
    }
  }

  lemma {:induction false} ItemsNetIs(items: seq<ItemFees>)
    ensures JournalNet(ItemFeesJournal(items)) == ItemsNet(items)
  {
    hide FeeJournal, SumFees;
    if items != [] {
      var n := |items| - 1;
      ItemsNetIs(items[..n]);
      FeeJournalNet(items[n].sku, items[n].fees);
      JournalNetConcat(ItemFeesJournal(items[..n]), FeeJournal(items[n].sku, items[n].fees));
    }
  }

  lemma NonItemNetIs(p: Payload)
    ensures JournalNet(NonItemJournal(p)) == SumFees(NonItemFees(p))
  {
    if p.nonItemFee.Some? {
      var fee := p.nonItemFee.value;
      var first, campaign := FeePosting("", fee), ToCampaign((Printed(p.date), Printed(p.unit)), -fee.accrued);
      OneJournalNet(first);
      OneJournalNet(campaign);
      FeePostingNet("", fee);
      JournalNetConcat([first], [campaign]);
      assert [first] + [] == [first];
      assert [fee][..0] == [];
    }
  }

  lemma ExplainedIs(p: Payload)
    ensures p.total - JournalNet(ExplainedJournal(p)) == Unexplained(p)
  {
    hide LinesJournal, ItemFeesJournal, NonItemJournal, FeeJournal, JournalNet, LinesNet, ItemsNet, SumFees, NonItemFees;
    var lines, items := LinesJournal(p.products, p), ItemFeesJournal(p.itemFees);
    var nonItem, container := NonItemJournal(p), FeeJournal("", p.containerFees);
    LinesNetIs(p.products, p);
    ItemsNetIs(p.itemFees);
    NonItemNetIs(p);
    FeeJournalNet("", p.containerFees);
    JournalNetConcat(lines, items);
    JournalNetConcat(lines + items, nonItem);
    JournalNetConcat(lines + items + nonItem, container);
  }

  // ----- The whole payload -----

  lemma ExplainedCharges(p: Payload, sku: string, c: Column)
    requires IsExpense(c)
    ensures JournalColumn(ExplainedJournal(p), sku, c) == FeeCell(p, sku, c)
    ensures JournalPool(ExplainedJournal(p), c) ==
            ItemsFees(p.itemFees, "", c) + FeesIn(NonItemFees(p), c) + FeesIn(p.containerFees, c)
  {
    hide LinesJournal, ItemFeesJournal, NonItemJournal, FeeJournal, JournalColumn, JournalPool, LinesFees, ItemsFees,
      FeesIn, NonItemFees;
    var lines, items := LinesJournal(p.products, p), ItemFeesJournal(p.itemFees);
    var nonItem, container := NonItemJournal(p), FeeJournal("", p.containerFees);
    LinesCharge(p.products, p, sku, c);
    NamelessLines(p.products, c);
    ItemsCharge(p.itemFees, sku, c);
    NonItemCharges(p, sku, c);
    FeeJournalCell("", p.containerFees, sku, c);
    FeeJournalPool("", p.containerFees, c);
    JournalColumnConcat(lines, items, sku, c);
    JournalColumnConcat(lines + items, nonItem, sku, c);
    JournalColumnConcat(lines + items + nonItem, container, sku, c);
    JournalPoolConcat(lines, items, c);
    JournalPoolConcat(lines + items, nonItem, c);
    JournalPoolConcat(lines + items + nonItem, container, c);
  }

  lemma {:induction false} NamelessLines(lines: seq<Line>, c: Column)
    ensures LinesFees(lines, "", c) == 0.0
  {
    if lines != [] { NamelessLines(lines[..|lines| - 1], c); }
  }

  /** Every expense column of every article grows by the fees that the payload itself names for the
      article and whose type belongs to the column, and by nothing else. */
  lemma AddChargesTheArticle(b: Books, p: Payload, sku: string, c: Column)
    requires IsExpense(c)
    ensures Get(RowOf(Add(b, p).rows, sku), c) == Get(RowOf(b.rows, sku), c) + FeeCell(p, sku, c)
  {
    hide ExplainedJournal, JournalColumn, PostAll, FeeCell, Get, RowOf;
    CellOfPosted(b, AddJournal(p), sku, c);
    ExplainedCharges(p, sku, c);
    JournalSnoc(ExplainedJournal(p), ToPool(OtherAccruals, -(p.total - JournalNet(ExplainedJournal(p)))), sku, c);
  }

  /** The pool grows by the fees that name no article and by the unexplained rest of the total. */
  lemma AddChargesThePool(b: Books, p: Payload, c: Column)
    requires IsExpense(c)
    ensures At(Add(b, p).pool, c) == At(b.pool, c) + PoolCell(p, c)
  {
    hide ExplainedJournal, JournalPool, PostAll, At, Unexplained, ItemsFees, FeesIn;
    PoolAfter(b, AddJournal(p), c);
    ExplainedCharges(p, "", c);
    ExplainedIs(p);
    var rest := ToPool(OtherAccruals, -(p.total - JournalNet(ExplainedJournal(p))));
    OnePool(rest, c);
    JournalPoolConcat(ExplainedJournal(p), [rest], c);
  }

  // ----- What buyers paid, and what is remembered of it -----

  /** A price counts without its sign; a return counts against the sales. */
  lemma BuyerMoneyIs(line: Line)
    ensures line.saleAmount >= 0.0 && line.salePrice >= 0.0 ==> BuyerMoney(line) == line.salePrice * line.quantity
    ensures line.saleAmount >= 0.0 && line.salePrice < 0.0 ==> BuyerMoney(line) == -line.salePrice * line.quantity
    ensures line.saleAmount < 0.0 && line.salePrice >= 0.0 ==> BuyerMoney(line) == line.salePrice * -line.quantity
    ensures line.saleAmount < 0.0 && line.salePrice < 0.0 ==> BuyerMoney(line) == -line.salePrice * -line.quantity
  {
  }

  /** What is remembered of a sale is what its line books on the article. */
  lemma RememberedIsBooked(line: Line)
    requires line.sku != "" && line.saleAmount > 0.0
    ensures DomesticSale(line) ==
            Sale(LineCell(line, SalesQty), LineCell(line, Revenue), LineCell(line, BuyerRevenue), LineCell(line, Commission))
  {
  }

  // ----- Months -----

  /** The first seven characters of a day, or all of a shorter one. */
  predicate InMonth(day: string, month: string) {
    month <= day && |month| <= 7 && (|month| == 7 || month == day)
  }

  lemma MonthIs(day: string, month: string)
    ensures Month(day) == month <==> InMonth(day, month)
  {
    if InMonth(day, month) && |day| > 7 { assert day[..7] == month; }
  }

  /** The domestic sale months and those of foreign sales. */
  function DaysOf(b: Books, cis: bool): Days {
    if cis then b.cisSaleDays else b.saleDays
  }

  function MonthAt(b: Books, cis: bool, sku: string, month: string): real {
    At(DayOf(DaysOf(b, cis), sku), month)
  }

  function MonthPart(p: Posting, cis: bool, sku: string, month: string): real {
    match p
    case ToMonth(at, m, x) => if !cis && at == sku && m == month then x else 0.0
    case ToCisMonth(at, m, x) => if cis && at == sku && m == month then x else 0.0
    case _ => 0.0
  }

  function JournalMonth(journal: seq<Posting>, cis: bool, sku: string, month: string): real {
    if journal == [] then 0.0
    else JournalMonth(journal[..|journal| - 1], cis, sku, month) + MonthPart(journal[|journal| - 1], cis, sku, month)
  }

  lemma {:induction false} JournalMonthConcat(a: seq<Posting>, b: seq<Posting>, cis: bool, sku: string, month: string)
    ensures JournalMonth(a + b, cis, sku, month) == JournalMonth(a, cis, sku, month) + JournalMonth(b, cis, sku, month)
  {
    if b == [] {
      assert a + b == a;
    } else {
      JournalMonthConcat(a, b[..|b| - 1], cis, sku, month);
      assert (a + b)[..|a + b| - 1] == a + b[..|b| - 1];
    }
  }

  lemma DayBumped(days: Days, at: string, m: string, x: real, sku: string, month: string)
    ensures At(DayOf(BumpDay(days, at, m, x), sku), month) ==
            At(DayOf(days, sku), month) + if at == sku && m == month then x else 0.0
  {
  }

  lemma MonthOfPosting(b: Books, p: Posting, cis: bool, sku: string, month: string)
    ensures MonthAt(Post(b, p), cis, sku, month) == MonthAt(b, cis, sku, month) + MonthPart(p, cis, sku, month)
  {
    hide BumpDay, At, DayOf;
    match p
    case ToMonth(at, m, x) => DayBumped(b.saleDays, at, m, x, sku, month);
    case ToCisMonth(at, m, x) => DayBumped(b.cisSaleDays, at, m, x, sku, month);
    case _ =>
  }

  lemma {:induction false} MonthAfter(b: Books, journal: seq<Posting>, cis: bool, sku: string, month: string)
    ensures MonthAt(PostAll(b, journal), cis, sku, month) ==
            MonthAt(b, cis, sku, month) + JournalMonth(journal, cis, sku, month)
  {
    hide Post, MonthAt, MonthPart;
    if journal != [] {
      var n := |journal| - 1;
      MonthAfter(b, journal[..n], cis, sku, month);
      MonthOfPosting(PostAll(b, journal[..n]), journal[n], cis, sku, month);
    }
  }

  lemma {:induction false} Monthless(journal: seq<Posting>, cis: bool, sku: string, month: string)
    requires forall p :: p in journal ==> !p.ToMonth? && !p.ToCisMonth?
    ensures JournalMonth(journal, cis, sku, month) == 0.0
  {
    if journal != [] { Monthless(journal[..|journal| - 1], cis, sku, month); }
  }

  lemma {:induction false} FeesStayInRows(sku: string, fees: seq<Fee>)
    ensures forall p :: p in FeeJournal(sku, fees) ==> p.ToRow? || p.ToPool?
  {
    if fees != [] { FeesStayInRows(sku, fees[..|fees| - 1]); }
  }

  lemma {:induction false} ItemFeesStayInRows(items: seq<ItemFees>)
    ensures forall p :: p in ItemFeesJournal(items) ==> p.ToRow? || p.ToPool?
  {
    if items != [] {
      ItemFeesStayInRows(items[..|items| - 1]);
      FeesStayInRows(items[|items| - 1].sku, items[|items| - 1].fees);
    }
  }

  /** What the sales and returns of an article were paid in a month. */
  function LinesMonth(lines: seq<Line>, day: string, sku: string, month: string): real {
    if lines == [] then 0.0
    else
      var last := lines[|lines| - 1];
      LinesMonth(lines[..|lines| - 1], day, sku, month) +
      if last.sku == sku && sku != "" && last.saleAmount != 0.0 && InMonth(day, month) then BuyerMoney(last) else 0.0
  }

  lemma LineMonth(line: Line, p: Payload, cis: bool, sku: string, month: string)
    ensures JournalMonth(LineJournal(line, p), cis, sku, month) ==
            if !cis && line.sku == sku && sku != "" && line.saleAmount != 0.0 && InMonth(Printed(p.date), month)
            then BuyerMoney(line) else 0.0
  {
    hide JournalMonth, FeeJournal, BuyerMoney, Month, InMonth, SumFees;
    if line.sku == "" {
      Monthless([], cis, sku, month);
    } else {
      var m := Month(Printed(p.date));
      var core, own, fees := SaleCore(line, m), DomesticJournal(line, p.unit), FeeJournal(line.sku, line.services);
      var rest := [ToRow(line.sku, OtherServices, -(line.totalAccrued - SumFees(line.services)))];
      var sale := SaleJournal(line, m, p.unit);
      if line.saleAmount != 0.0 {
        var paid := ToMonth(line.sku, m, BuyerMoney(line));
        assert core == core[..6] + [paid] + core[7..];
        Monthless(core[..6], cis, sku, month);
        Monthless(core[7..], cis, sku, month);
        OneMonth(paid, cis, sku, month);
        JournalMonthConcat(core[..6], [paid], cis, sku, month);
        JournalMonthConcat(core[..6] + [paid], core[7..], cis, sku, month);
        Monthless(own, cis, sku, month);
        JournalMonthConcat(core, own, cis, sku, month);
        MonthIs(Printed(p.date), month);
      } else {
        Monthless(sale, cis, sku, month);
      }
      FeesStayInRows(line.sku, line.services);
      Monthless(fees, cis, sku, month);
      Monthless(rest, cis, sku, month);
      JournalMonthConcat(sale, fees, cis, sku, month);
      JournalMonthConcat(sale + fees, rest, cis, sku, month);
    }
  }

  lemma OneMonth(p: Posting, cis: bool, sku: string, month: string)
    ensures JournalMonth([p], cis, sku, month) == MonthPart(p, cis, sku, month)
  {
    assert [p][..0] == [];
  }

  lemma {:induction false} LinesMonths(lines: seq<Line>, p: Payload, cis: bool, sku: string, month: string)
    ensures JournalMonth(LinesJournal(lines, p), cis, sku, month) ==
            if cis then 0.0 else LinesMonth(lines, Printed(p.date), sku, month)
  {
    hide LineJournal, BuyerMoney, InMonth;
    if lines != [] {
      var n := |lines| - 1;
      LinesMonths(lines[..n], p, cis, sku, month);
      LineMonth(lines[n], p, cis, sku, month);
      JournalMonthConcat(LinesJournal(lines[..n], p), LineJournal(lines[n], p), cis, sku, month);
    }
  }

  /** Every sale month of every article grows by what buyers paid for the payload's lines of the article,
      when its day lies in the month; the months of foreign sales stay. */
  lemma AddBooksTheMonth(b: Books, p: Payload, cis: bool, sku: string, month: string)
    ensures MonthAt(Add(b, p), cis, sku, month) ==
            MonthAt(b, cis, sku, month) + if cis then 0.0 else LinesMonth(p.products, Printed(p.date), sku, month)
  {
    hide JournalMonth, LinesJournal, ItemFeesJournal, FeeJournal, PostAll, LinesMonth;
    var lines, items := LinesJournal(p.products, p), ItemFeesJournal(p.itemFees);
    var nonItem, container := NonItemJournal(p), FeeJournal("", p.containerFees);
    var rest := [ToPool(OtherAccruals, -(p.total - JournalNet(ExplainedJournal(p))))];
    MonthAfter(b, AddJournal(p), cis, sku, month);
    LinesMonths(p.products, p, cis, sku, month);
    ItemFeesStayInRows(p.itemFees);
    FeesStayInRows("", p.containerFees);
    Monthless(items, cis, sku, month);
    Monthless(nonItem, cis, sku, month);
    Monthless(container, cis, sku, month);
    Monthless(rest, cis, sku, month);
    JournalMonthConcat(lines, items, cis, sku, month);
    JournalMonthConcat(lines + items, nonItem, cis, sku, month);
    JournalMonthConcat(lines + items + nonItem, container, cis, sku, month);
    JournalMonthConcat(ExplainedJournal(p), rest, cis, sku, month);
  }

  // ----- Campaigns -----

  function JournalCampaign(journal: seq<Posting>, id: Key): real {
    if journal == [] then 0.0
    else
      var p := journal[|journal| - 1];
      JournalCampaign(journal[..|journal| - 1], id) + if p.ToCampaign? && p.key == id then p.amount else 0.0
  }

  predicate ChargesCampaign(journal: seq<Posting>, id: Key) {
    exists i :: 0 <= i < |journal| && journal[i].ToCampaign? && journal[i].key == id
  }

  lemma CampaignOfPosting(b: Books, p: Posting, id: Key)
    ensures var after := Post(b, p).campaignCharges; var charges := p.ToCampaign? && p.key == id;
      (id in after <==> id in b.campaignCharges || charges) &&
      At(after, id) == At(b.campaignCharges, id) + if charges then p.amount else 0.0
  {
    if !p.ToCampaign? { assert Post(b, p).campaignCharges == b.campaignCharges; }
  }

  lemma {:induction false} CampaignAfter(b: Books, journal: seq<Posting>, id: Key)
    ensures var after := PostAll(b, journal).campaignCharges;
      (id in after <==> id in b.campaignCharges || ChargesCampaign(journal, id)) &&
      At(after, id) == At(b.campaignCharges, id) + JournalCampaign(journal, id)
  {
    hide Post, At;
    if journal != [] {
      var n := |journal| - 1;
      CampaignAfter(b, journal[..n], id);
      CampaignOfPosting(PostAll(b, journal[..n]), journal[n], id);
      assert forall i :: 0 <= i < n ==> journal[..n][i] == journal[i];
    }
  }

  lemma {:induction false} JournalCampaignConcat(a: seq<Posting>, b: seq<Posting>, id: Key)
    ensures JournalCampaign(a + b, id) == JournalCampaign(a, id) + JournalCampaign(b, id)
    ensures ChargesCampaign(a + b, id) <==> ChargesCampaign(a, id) || ChargesCampaign(b, id)
  {
    if b == [] {
      assert a + b == a;
    } else {
      JournalCampaignConcat(a, b[..|b| - 1], id);
      assert (a + b)[..|a + b| - 1] == a + b[..|b| - 1];
      ChargesConcat(a, b, id);
    }
  }

  lemma ChargesConcat(a: seq<Posting>, b: seq<Posting>, id: Key)
    ensures ChargesCampaign(a + b, id) <==> ChargesCampaign(a, id) || ChargesCampaign(b, id)
  {
    if ChargesCampaign(a, id) {
      var i :| 0 <= i < |a| && a[i].ToCampaign? && a[i].key == id;
      assert (a + b)[i] == a[i];
    }
    if ChargesCampaign(b, id) {
      var i :| 0 <= i < |b| && b[i].ToCampaign? && b[i].key == id;
      assert (a + b)[|a| + i] == b[i];
    }
  }

  lemma {:induction false} Campaignless(journal: seq<Posting>, id: Key)
    requires forall p :: p in journal ==> !p.ToCampaign?
    ensures JournalCampaign(journal, id) == 0.0 && !ChargesCampaign(journal, id)
  {
    if journal != [] { Campaignless(journal[..|journal| - 1], id); }
  }

  lemma {:induction false} LinesChargeNoCampaign(lines: seq<Line>, p: Payload)
    ensures forall q :: q in LinesJournal(lines, p) ==> !q.ToCampaign?
  {
    hide Month, BuyerMoney, SumFees, Printed;
    if lines != [] {
      LinesChargeNoCampaign(lines[..|lines| - 1], p);
      LineChargesNoCampaign(lines[|lines| - 1], p);
    }
  }

  lemma LineChargesNoCampaign(line: Line, p: Payload)
    ensures forall q :: q in LineJournal(line, p) ==> !q.ToCampaign?
  {
    hide Month, BuyerMoney, SumFees, Printed, DomesticSale;
    FeesStayInRows(line.sku, line.services);
  }

  /** The payload charges a campaign of a day: its fee without an article has type 41 or 75. */
  predicate Charges(p: Payload, id: Key) {
    p.nonItemFee.Some? && (p.nonItemFee.value.typeId == 41 || p.nonItemFee.value.typeId == 75) &&
    id == (Printed(p.date), Printed(p.unit))
  }

  /** A payload makes exactly the campaign it charges known, and charges it by the fee. */
  lemma AddChargesTheCampaign(b: Books, p: Payload, id: Key)
    ensures id in Add(b, p).campaignCharges <==> id in b.campaignCharges || Charges(p, id)
    ensures At(Add(b, p).campaignCharges, id) ==
            At(b.campaignCharges, id) - if Charges(p, id) then p.nonItemFee.value.accrued else 0.0
  {
    hide JournalCampaign, ChargesCampaign, LinesJournal, ItemFeesJournal, FeeJournal, PostAll, At, Charges;
    var lines, items := LinesJournal(p.products, p), ItemFeesJournal(p.itemFees);
    var nonItem, container := NonItemJournal(p), FeeJournal("", p.containerFees);
    var rest := [ToPool(OtherAccruals, -(p.total - JournalNet(ExplainedJournal(p))))];
    CampaignAfter(b, AddJournal(p), id);
    LinesChargeNoCampaign(p.products, p);
    ItemFeesStayInRows(p.itemFees);
    FeesStayInRows("", p.containerFees);
    Campaignless(lines, id);
    Campaignless(items, id);
    Campaignless(container, id);
    Campaignless(rest, id);
    NonItemCampaign(p, id);
    JournalCampaignConcat(lines, items, id);
    JournalCampaignConcat(lines + items, nonItem, id);
    JournalCampaignConcat(lines + items + nonItem, container, id);
    JournalCampaignConcat(ExplainedJournal(p), rest, id);
  }

  lemma OneCampaign(p: Posting, id: Key)
    ensures ChargesCampaign([p], id) <==> p.ToCampaign? && p.key == id
    ensures JournalCampaign([p], id) == if p.ToCampaign? && p.key == id then p.amount else 0.0
  {
    assert [p][..0] == [] && [p][0] == p;
  }

  lemma NonItemCampaign(p: Payload, id: Key)
    ensures ChargesCampaign(NonItemJournal(p), id) <==> Charges(p, id)
    ensures JournalCampaign(NonItemJournal(p), id) == if Charges(p, id) then -p.nonItemFee.value.accrued else 0.0
  {
    hide Category, Printed, ChargesCampaign, JournalCampaign;
    if p.nonItemFee.None? {
      Campaignless([], id);
    } else {
      var fee := p.nonItemFee.value;
      var first, campaign := FeePosting("", fee), ToCampaign((Printed(p.date), Printed(p.unit)), -fee.accrued);
      assert [first] + [] == [first];
      Campaignless([first], id);
      if fee.typeId in CAMPAIGN_TYPES {
        OneCampaign(campaign, id);
        JournalCampaignConcat([first], [campaign], id);
      }
    }
  }
}
