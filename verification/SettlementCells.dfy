/** What a realisation line and a normalised sale do to every cell of every article, read off the line. */
module SettlementCells {
  import opened Wrappers
  import opened Sums
  import opened Ledger
  import opened Accruals
  import opened PayloadCells
  import opened BuyoutLedger
  import opened Settlement

  // ----- Which lines are sales and returns -----

  /** A text contains a word when some place of it begins with the word. */
  lemma {:induction false} ContainsIff(text: string, word: string)
    ensures Contains(text, word) <==> exists i :: 0 <= i <= |text| && word <= text[i..]
  {
    if word <= text {
      assert text[0..] == text;
    } else if text == [] {
      assert forall i :: 0 <= i <= |text| ==> text[i..] == [];
    } else {
      var rest := text[1..];
      ContainsIff(rest, word);
      if Contains(rest, word) {
        var i :| 0 <= i <= |rest| && word <= rest[i..];
        assert text[i + 1..] == rest[i..];
      }
      if i :| 0 <= i <= |text| && word <= text[i..] {
        assert text[0..] == text;
        assert text[i..] == rest[i - 1..];
      }
    }
  }

  datatype Kind = Sold | CameBack | Neither

  predicate Mentions(w: WbLine, word: string) {
    (exists i :: 0 <= i <= |w.docType| && word <= w.docType[i..]) ||
    (exists i :: 0 <= i <= |w.operName| && word <= w.operName[i..])
  }

  /** A line that mentions a return is one, whatever else it mentions. */
  lemma KindIs(w: WbLine)
    ensures w.IsReturn() <==> Mentions(w, "возврат")
    ensures w.IsSale() <==> Mentions(w, "продаж") && !Mentions(w, "возврат")
  {
    ContainsIff(w.docType, RETURN_WORD);
    ContainsIff(w.operName, RETURN_WORD);
    ContainsIff(w.docType, SALE_WORD);
    ContainsIff(w.operName, SALE_WORD);
  }

  ghost function KindOf(w: WbLine): Kind {
    if Mentions(w, "возврат") then CameBack else if Mentions(w, "продаж") then Sold else Neither
  }

  // ----- Realisation lines -----

  /** The price of all units; a line without a quantity is about one. */
  function Turnover(w: WbLine): real {
    if w.quantity == 0.0 then w.price else w.price * w.quantity
  }

  function Larger(x: real, y: real): real {
    if x >= y then x else y
  }

  /** What a line books on a column of its own article. */
  ghost function WbCell(w: WbLine, c: Column): real {
    var kind, seller := KindOf(w), Turnover(w);
    match c
    case SalesQty => if kind == Sold then w.quantity else 0.0
    case ReturnsQty => if kind == CameBack then -Abs(w.quantity) else 0.0
    case Revenue => if kind == Sold then seller else if kind == CameBack then -Abs(seller) else 0.0
    case RevenueRf => if kind == Sold then seller else if kind == CameBack then -Abs(seller) else 0.0
    case BuyerRevenue => if kind == Sold then w.retailAmount else if kind == CameBack then -Abs(w.retailAmount) else 0.0
    case BuyerRf => if kind == Sold then w.retailAmount else if kind == CameBack then -Abs(w.retailAmount) else 0.0
    case Commission =>
      if kind == Sold then Larger(0.0, seller - w.forPay)
      else if kind == CameBack then -Larger(0.0, Abs(seller) - Abs(w.forPay)) else 0.0
    case CommissionRf =>
      if kind == Sold then Larger(0.0, seller - w.forPay)
      else if kind == CameBack then -Larger(0.0, Abs(seller) - Abs(w.forPay)) else 0.0
    case Acquiring => Abs(w.acquiring)
    case Logistics => if kind == CameBack then 0.0 else Abs(w.delivery)
    case ReverseLogistics => if kind == CameBack then Abs(w.delivery) else 0.0
    case Storage => Abs(w.storage)
    case CrossDocking => Abs(w.acceptance)
    case OtherServices => Abs(w.penalty) + Abs(w.deduction) - w.additional
    case _ => 0.0
  }

  /** A line without an article number, or with number 0, is about no article. */
  predicate IsAbout(w: WbLine, sku: string) {
    if w.nmId == "" || w.nmId == "0" then sku == "unallocated" else sku == w.nmId
  }

  lemma SellerIs(w: WbLine)
    ensures w.SellerAmount() == Turnover(w)
  {
  }

  lemma {:induction false} SevenCells(j: seq<Posting>, sku: string, c: Column)
    requires |j| == 7
    ensures JournalColumn(j, sku, c) ==
      ColumnPart(j[0], sku, c) + ColumnPart(j[1], sku, c) + ColumnPart(j[2], sku, c) + ColumnPart(j[3], sku, c) +
      ColumnPart(j[4], sku, c) + ColumnPart(j[5], sku, c) + ColumnPart(j[6], sku, c)
  {
    hide ColumnPart;
    assert JournalColumn(j[..0], sku, c) == 0.0;
    assert j == j[..6] + [j[6]] && j[..6] == j[..5] + [j[5]] && j[..5] == j[..4] + [j[4]] && j[..4] == j[..3] + [j[3]];
    assert j[..3] == j[..2] + [j[2]] && j[..2] == j[..1] + [j[1]] && j[..1] == j[..0] + [j[0]];
    JournalSnoc(j[..0], j[0], sku, c);
    JournalSnoc(j[..1], j[1], sku, c);
    JournalSnoc(j[..2], j[2], sku, c);
    JournalSnoc(j[..3], j[3], sku, c);
    JournalSnoc(j[..4], j[4], sku, c);
    JournalSnoc(j[..5], j[5], sku, c);
    JournalSnoc(j[..6], j[6], sku, c);
  }

  /** The cells of a sale or return of some article. */
  lemma SevenCell(at: string, counter: Column, quantity: real, revenue: real, buyer: real, commission: real,
                  sku: string, c: Column)
    requires counter == SalesQty || counter == ReturnsQty
    ensures JournalColumn(SevenJournal(at, counter, quantity, revenue, buyer, commission), sku, c) ==
      if at != sku then 0.0
      else if c == counter then quantity
      else if c == Revenue || c == RevenueRf then revenue
      else if c == BuyerRevenue || c == BuyerRf then buyer
      else if c == Commission || c == CommissionRf then commission
      else 0.0
  {
    hide JournalColumn;
    SevenCells(SevenJournal(at, counter, quantity, revenue, buyer, commission), sku, c);
  }

  lemma ChargeCell(at: string, column: Column, x: real, sku: string, c: Column)
    ensures JournalColumn(Charge(at, column, x), sku, c) == if at == sku && column == c then x else 0.0
  {
    if x == 0.0 { EmptyJournal(sku, c); } else { OneColumn(ToRow(at, column, x), sku, c); }
  }

  lemma WbSaleCells(w: WbLine, sku: string, c: Column)
    requires !IsExpense(c)
    ensures JournalColumn(WbSaleJournal(w), sku, c) == if w.Article() == sku then WbCell(w, c) else 0.0
  {
    hide JournalColumn, Contains, Mentions, Turnover, SevenJournal, WbLine.SellerAmount;
    KindIs(w);
    SellerIs(w);
    var at, seller := w.Article(), w.SellerAmount();
    if w.IsSale() {
      SevenCell(at, SalesQty, w.quantity, seller, w.retailAmount, Positive(seller - w.forPay), sku, c);
    } else if w.IsReturn() {
      SevenCell(at, ReturnsQty, -Abs(w.quantity), -Abs(seller), -Abs(w.retailAmount),
                -Positive(Abs(seller) - Abs(w.forPay)), sku, c);
    } else {
      EmptyJournal(sku, c);
    }
  }

  lemma WbSaleHasNoCharges(w: WbLine, sku: string, c: Column)
    requires IsExpense(c)
    ensures JournalColumn(WbSaleJournal(w), sku, c) == 0.0
  {
    hide JournalColumn, Contains, SevenJournal, WbLine.SellerAmount;
    var at, seller := w.Article(), w.SellerAmount();
    if w.IsSale() {
      SevenCell(at, SalesQty, w.quantity, seller, w.retailAmount, Positive(seller - w.forPay), sku, c);
    } else if w.IsReturn() {
      SevenCell(at, ReturnsQty, -Abs(w.quantity), -Abs(seller), -Abs(w.retailAmount),
                -Positive(Abs(seller) - Abs(w.forPay)), sku, c);
    } else {
      EmptyJournal(sku, c);
    }
  }

  lemma WbChargeCells(w: WbLine, sku: string, c: Column)
    ensures JournalColumn(WbChargesJournal(w), sku, c) == if w.Article() == sku && IsExpense(c) then WbCell(w, c) else 0.0
  {
    hide JournalColumn, Contains, Mentions, Charge, Abs, Turnover;
    KindIs(w);
    var at, way := w.Article(), if w.IsReturn() then ReverseLogistics else Logistics;
    var a, b := Charge(at, Acquiring, Abs(w.acquiring)), Charge(at, way, Abs(w.delivery));
    var d, e := Charge(at, Storage, Abs(w.storage)), Charge(at, CrossDocking, Abs(w.acceptance));
    var f, g := Charge(at, OtherServices, Abs(w.penalty) + Abs(w.deduction)), Charge(at, OtherServices, -w.additional);
    ChargeCell(at, Acquiring, Abs(w.acquiring), sku, c);
    ChargeCell(at, way, Abs(w.delivery), sku, c);
    ChargeCell(at, Storage, Abs(w.storage), sku, c);
    ChargeCell(at, CrossDocking, Abs(w.acceptance), sku, c);
    ChargeCell(at, OtherServices, Abs(w.penalty) + Abs(w.deduction), sku, c);
    ChargeCell(at, OtherServices, -w.additional, sku, c);
    JournalColumnConcat(a, b, sku, c);
    JournalColumnConcat(a + b, d, sku, c);
    JournalColumnConcat(a + b + d, e, sku, c);
    JournalColumnConcat(a + b + d + e, f, sku, c);
    JournalColumnConcat(a + b + d + e + f, g, sku, c);
  }

  lemma ArticleIs(w: WbLine, sku: string)
    ensures w.Article() == sku <==> IsAbout(w, sku)
  {
  }

  /** A realisation line books what it says on its own article, column by column: the sale or the return
      with its quantity and amounts, the commission that is left, and each charge on its own column. */
  lemma WbLineBooks(b: Books, w: WbLine, sku: string, c: Column)
    ensures Get(RowOf(AddWb(b, w).rows, sku), c) ==
            Get(RowOf(b.rows, sku), c) + if IsAbout(w, sku) then WbCell(w, c) else 0.0
  {
    hide WbSaleJournal, WbChargesJournal, JournalColumn, PostAll, WbCell, Get, RowOf, IsExpense, WbRaw;
    CellOfPosted(b, WbJournal(w), sku, c);
    JournalColumnConcat(WbSaleJournal(w), WbChargesJournal(w), sku, c);
    WbChargeCells(w, sku, c);
    ArticleIs(w, sku);
    if IsExpense(c) { WbSaleHasNoCharges(w, sku, c); } else { WbSaleCells(w, sku, c); }
  }

  /** What a line adds to the raw total: the payment, with the sign of the sale or return, less its
      charges. */
  lemma WbLinePays(b: Books, w: WbLine)
    ensures AddWb(b, w).rawTotal == b.rawTotal +
      (match KindOf(w) case Sold => w.forPay case CameBack => -Abs(w.forPay) case Neither => 0.0) -
      (Abs(w.acquiring) + Abs(w.delivery) + Abs(w.storage) + Abs(w.acceptance) + Abs(w.penalty) + Abs(w.deduction)) +
      w.additional
  {
    hide PostAll, Contains, Mentions, WbJournal;
    KindIs(w);
  }

  // ----- Normalised sales -----

  /** What a normalised sale books on a column of its article; a negative quantity came back. */
  function StandardCell(s: StandardSale, c: Column): real {
    match c
    case SalesQty => if s.qty >= 0.0 then s.qty else 0.0
    case ReturnsQty => if s.qty >= 0.0 then 0.0 else s.qty
    case Revenue => s.revenue
    case RevenueRf => s.revenue
    case BuyerRevenue => s.buyerRevenue
    case BuyerRf => s.buyerRevenue
    case Commission => s.commission
    case CommissionRf => s.commission
    case Acquiring => s.acquiring
    case Logistics => s.logistics
    case _ => 0.0
  }

  lemma TwoCharges(at: string, x: real, y: real, sku: string, c: Column)
    ensures JournalColumn([ToRow(at, Acquiring, x), ToRow(at, Logistics, y)], sku, c) ==
            if at != sku then 0.0 else if c == Acquiring then x else if c == Logistics then y else 0.0
  {
    var first, second := ToRow(at, Acquiring, x), ToRow(at, Logistics, y);
    OneColumn(first, sku, c);
    JournalSnoc([first], second, sku, c);
    assert [first, second] == [first] + [second];
  }

  lemma StandardCells(s: StandardSale, sku: string, c: Column)
    ensures JournalColumn(StandardJournal(s), sku, c) == if ArticleOr(s.sku) == sku then StandardCell(s, c) else 0.0
  {
    hide JournalColumn, SevenJournal;
    var at, counter := ArticleOr(s.sku), if s.qty >= 0.0 then SalesQty else ReturnsQty;
    SevenCell(at, counter, s.qty, s.revenue, s.buyerRevenue, s.commission, sku, c);
    TwoCharges(at, s.acquiring, s.logistics, sku, c);
    JournalColumnConcat(SevenJournal(at, counter, s.qty, s.revenue, s.buyerRevenue, s.commission),
                        [ToRow(at, Acquiring, s.acquiring), ToRow(at, Logistics, s.logistics)], sku, c);
  }

  /** A normalised sale books what it says on its own article, column by column. */
  lemma StandardSaleBooks(b: Books, s: StandardSale, sku: string, c: Column)
    ensures Get(RowOf(AddStandard(b, s).rows, sku), c) == Get(RowOf(b.rows, sku), c) +
      if sku == (if s.sku == "" then "unallocated" else s.sku) then StandardCell(s, c) else 0.0
  {
    hide JournalColumn, PostAll, Get, RowOf, StandardJournal, StandardCell;
    CellOfPosted(b, StandardJournal(s), sku, c);
    StandardCells(s, sku, c);
  }

  // ----- Closing against another total -----

  /** Closing against another total books the missing amount as a negative charge on the row without an
      article, and touches no other cell. */
  lemma ReconcileBooks(b: Books, target: real, sku: string, c: Column)
    ensures Get(RowOf(Reconcile(b, target).rows, sku), c) == Get(RowOf(b.rows, sku), c) -
      if sku == "unallocated" && c == OtherAccruals then target - b.rawTotal else 0.0
  {
    hide Get, RowOf;
    CellBump(b.rows, UNALLOCATED, OtherAccruals, -(target - b.rawTotal), sku, c);
  }
}
