/** The books of the article ledger as a value, and the postings that change them. */
module Ledger {
  import opened Sums

  // ----- Columns of an article row -----

  datatype Column =
    | SalesQty | ReturnsQty | SalesCis
    | Revenue | RevenueRf | RevenueCis
    | BuyerRevenue | BuyerRf | BuyerCis
    | Commission | CommissionRf | CommissionCis
    | Delivery | Partners | Promotion | Fbo | OtherServices | Compensation | OtherAccruals
    | Marketing | Acquiring | Logistics | ReverseLogistics | Storage | CrossDocking

  /** The columns that the net total subtracts. */
  const EXPENSES: seq<Column> :=
    [Delivery, Partners, Promotion, Fbo, OtherServices, Compensation, OtherAccruals,
     Marketing, Acquiring, Logistics, ReverseLogistics, Storage, CrossDocking]

  predicate IsExpense(c: Column) {
    c.Delivery? || c.Partners? || c.Promotion? || c.Fbo? || c.OtherServices? || c.Compensation? ||
    c.OtherAccruals? || c.Marketing? || c.Acquiring? || c.Logistics? || c.ReverseLogistics? ||
    c.Storage? || c.CrossDocking?
  }

  const MARKETING_TYPES: set<int> :=
    {3, 4, 5, 19, 23, 31, 33, 41, 47, 48, 49, 50, 54, 55, 61, 70, 75, 80, 87, 95, 96, 116, 130}
  const DELIVERY_TYPES: set<int> :=
    {2, 6, 9, 28, 29, 30, 32, 40, 45, 53, 59, 62, 64, 65, 67, 71, 73, 98, 99, 100, 110, 111, 112,
     113, 114, 115, 120, 121, 124}
  const PARTNERS_TYPES: set<int> :=
    {1, 13, 16, 17, 42, 43, 44, 56, 63, 66, 68, 97, 106, 107, 108, 109, 122, 123}
  const FBO_TYPES: set<int> :=
    {12, 21, 46, 58, 60, 77, 78, 79, 101, 102, 103, 131, 132, 133, 134, 135}
  const COMPENSATION_TYPES: set<int> := {10, 25, 81, 104}

  /** Whatever the type of a fee, it lands in a column that the net total subtracts. */
  function Category(typeId: int): (c: Column)
    ensures IsExpense(c)
  {
    if typeId in MARKETING_TYPES then Marketing
    else if typeId in DELIVERY_TYPES then Delivery
    else if typeId in PARTNERS_TYPES then Partners
    else if typeId in FBO_TYPES then Fbo
    else if typeId in COMPENSATION_TYPES then Compensation
    else OtherServices
  }

  // ----- Rows -----

  type Row = map<Column, real>
  type Rows = map<string, Row>
  type Days = map<string, map<string, real>>
  type Key = (string, string)

  function Get(row: Row, c: Column): real {
    if c in row then row[c] else 0.0
  }

  function RowOf(rows: Rows, sku: string): Row {
    if sku in rows then rows[sku] else map[]
  }

  function BumpRow(row: Row, c: Column, x: real): Row {
    row[c := Get(row, c) + x]
  }

  function Bump(rows: Rows, sku: string, c: Column, x: real): Rows {
    rows[sku := BumpRow(RowOf(rows, sku), c, x)]
  }

  function DayOf(days: Days, sku: string): map<string, real> {
    if sku in days then days[sku] else map[]
  }

  function BumpDay(days: Days, sku: string, month: string, x: real): Days {
    days[sku := DayOf(days, sku)[month := At(DayOf(days, sku), month) + x]]
  }

  /** The amounts of a domestic sale, kept per posting and SKU. */
  datatype Sale = Sale(quantity: real, gross: real, receipt: real, deduction: real)

  function AddSale(a: Sale, b: Sale): Sale {
    Sale(a.quantity + b.quantity, a.gross + b.gross, a.receipt + b.receipt, a.deduction + b.deduction)
  }

  function SaleOf(sales: map<Key, Sale>, key: Key): Sale {
    if key in sales then sales[key] else Sale(0.0, 0.0, 0.0, 0.0)
  }

  // ----- Books -----

  /** One validated line of the buyout report. */
  datatype Buyout = Buyout(sku: string, posting: string, offer: string, title: string,
                           quantity: real, gross: real, receipt: real, deduction: real)
  {
    function Id(): Key { (posting, sku) }
  }

  datatype Books = Books(
    rows: Rows,
    pool: map<Column, real>,
    rawTotal: real,
    operations: nat,
    saleDays: Days,
    campaignCharges: map<Key, real>,
    domestic: map<Key, Sale>,
    buyoutReceipts: real,
    overlaps: nat,
    cisSaleDays: Days,
    seen: map<Key, Buyout>,
    runningNet: real)

  const EMPTY: Books := Books(map[], map[], 0.0, 0, map[], map[], map[], 0.0, 0, map[], map[], 0.0)

  // ----- The full re-scan -----

  function SumColumns(row: Row, columns: seq<Column>): real {
    if columns == [] then 0.0 else Get(row, columns[0]) + SumColumns(row, columns[1..])
  }

  function RowNet(row: Row): real {
    Get(row, Revenue) - Get(row, Commission) - SumColumns(row, EXPENSES)
  }

  /** The sum of a measure over all rows. */
  ghost function Total(rows: Rows, measure: Row -> real): real {
    SumMap(map sku | sku in rows :: measure(rows[sku]))
  }

  ghost function Net(rows: Rows, pool: map<Column, real>): real {
    Total(rows, RowNet) - SumMap(pool)
  }

  ghost function ColumnTotal(rows: Rows, c: Column): real {
    Total(rows, (row: Row) => Get(row, c))
  }

  ghost function RowNets(rows: Rows): (r: map<string, real>)
    ensures r.Keys == rows.Keys && forall sku :: sku in rows ==> r[sku] == RowNet(rows[sku])
  {
    map sku | sku in rows :: RowNet(rows[sku])
  }

  lemma TotalOfRowNets(rows: Rows)
    ensures Total(rows, RowNet) == SumMap(RowNets(rows))
  {
    var measure: Row -> real := RowNet;
    var nets := map sku | sku in rows :: measure(rows[sku]);
    assert nets == RowNets(rows);
  }

  lemma TotalUpdate(rows: Rows, sku: string, row: Row, measure: Row -> real)
    requires measure(map[]) == 0.0
    ensures Total(rows[sku := row], measure) == Total(rows, measure) - measure(RowOf(rows, sku)) + measure(row)
  {
    var before := map s | s in rows :: measure(rows[s]);
    var updated := rows[sku := row];
    var after := map s | s in updated :: measure(updated[s]);
    assert after == before[sku := measure(row)];
    SumMapUpdate(before, sku, measure(row));
  }

  lemma {:induction false} SumColumnsBump(row: Row, columns: seq<Column>, c: Column, x: real)
    requires forall i, j :: 0 <= i < j < |columns| ==> columns[i] != columns[j]
    ensures SumColumns(BumpRow(row, c, x), columns) == SumColumns(row, columns) + if c in columns then x else 0.0
  {
    if columns != [] {
      SumColumnsBump(row, columns[1..], c, x);
      assert c in columns <==> c == columns[0] || c in columns[1..];
    }
  }

  lemma ExpensesAreTheList(c: Column)
    ensures IsExpense(c) <==> c in EXPENSES
  {
    if IsExpense(c) {
      var i := match c
        case Delivery => 0 case Partners => 1 case Promotion => 2 case Fbo => 3 case OtherServices => 4
        case Compensation => 5 case OtherAccruals => 6 case Marketing => 7 case Acquiring => 8
        case Logistics => 9 case ReverseLogistics => 10 case Storage => 11 case _ => 12;
      assert EXPENSES[i] == c;
    }
  }

  /** What adding `x` to a column of a row does to the net total. */
  function Weighted(c: Column, x: real): real {
    if c == Revenue then x else if c == Commission || IsExpense(c) then -x else 0.0
  }

  lemma RowNetBump(row: Row, c: Column, x: real)
    ensures RowNet(BumpRow(row, c, x)) == RowNet(row) + Weighted(c, x)
  {
    hide SumColumns, IsExpense;
    ExpensesDiffer();
    SumColumnsBump(row, EXPENSES, c, x);
    ExpensesAreTheList(c);
  }

  lemma ExpensesDiffer()
    ensures forall i, j :: 0 <= i < j < |EXPENSES| ==> EXPENSES[i] != EXPENSES[j]
  {
  }

  lemma {:induction false} EmptyColumns(columns: seq<Column>)
    ensures SumColumns(map[], columns) == 0.0
  {
    if columns != [] { EmptyColumns(columns[1..]); }
  }

  lemma NetBump(rows: Rows, pool: map<Column, real>, sku: string, c: Column, x: real)
    ensures Net(Bump(rows, sku, c, x), pool) == Net(rows, pool) + Weighted(c, x)
  {
    EmptyColumns(EXPENSES);
    TotalUpdate(rows, sku, BumpRow(RowOf(rows, sku), c, x), RowNet);
    RowNetBump(RowOf(rows, sku), c, x);
  }

  lemma ColumnTotalBump(rows: Rows, sku: string, c: Column, x: real, measured: Column)
    ensures ColumnTotal(Bump(rows, sku, c, x), measured) ==
            ColumnTotal(rows, measured) + if c == measured then x else 0.0
  {
    TotalUpdate(rows, sku, BumpRow(RowOf(rows, sku), c, x), (row: Row) => Get(row, measured));
  }

  // ----- Postings -----

  datatype Posting =
    | ToRow(sku: string, column: Column, amount: real)
    | ToPool(column: Column, amount: real)
    | ToMonth(sku: string, month: string, amount: real)
    | ToCisMonth(sku: string, month: string, amount: real)
    | ToDomestic(key: Key, sale: Sale)
    | ToCampaign(key: Key, amount: real)

  function Post(b: Books, p: Posting): Books {
    match p
    case ToRow(sku, c, x) => b.(rows := Bump(b.rows, sku, c, x))
    case ToPool(c, x) => b.(pool := b.pool[c := At(b.pool, c) + x])
    case ToMonth(sku, month, x) => b.(saleDays := BumpDay(b.saleDays, sku, month, x))
    case ToCisMonth(sku, month, x) => b.(cisSaleDays := BumpDay(b.cisSaleDays, sku, month, x))
    case ToDomestic(key, sale) => b.(domestic := b.domestic[key := AddSale(SaleOf(b.domestic, key), sale)])
    case ToCampaign(key, x) => b.(campaignCharges := b.campaignCharges[key := At(b.campaignCharges, key) + x])
  }

  function PostAll(b: Books, journal: seq<Posting>): Books {
    if journal == [] then b
    else Post(PostAll(b, journal[..|journal| - 1]), journal[|journal| - 1])
  }

  lemma {:induction false} PostConcat(b: Books, first: seq<Posting>, more: seq<Posting>)
    ensures PostAll(b, first + more) == PostAll(PostAll(b, first), more)
  {
    hide Post;
    if more == [] {
      assert first + more == first;
    } else {
      PostConcat(b, first, more[..|more| - 1]);
      assert (first + more)[..|first + more| - 1] == first + more[..|more| - 1];
    }
  }

  lemma PostOne(b: Books, journal: seq<Posting>, p: Posting)
    ensures PostAll(b, journal + [p]) == Post(PostAll(b, journal), p)
  {
    assert (journal + [p])[..|journal|] == journal;
  }

  /** Nothing but the posted parts of the books changes. */
  predicate OnlyPosted(before: Books, after: Books) {
    after == before.(rows := after.rows, pool := after.pool, saleDays := after.saleDays,
                     cisSaleDays := after.cisSaleDays, domestic := after.domestic,
                     campaignCharges := after.campaignCharges)
  }

  lemma {:induction false} PostingsOnlyPost(b: Books, journal: seq<Posting>)
    ensures OnlyPosted(b, PostAll(b, journal))
  {
    if journal != [] {
      var p := journal[|journal| - 1];
      var mid := PostAll(b, journal[..|journal| - 1]);
      PostingsOnlyPost(b, journal[..|journal| - 1]);
      OnePostingOnlyPosts(mid, p);
      assert PostAll(b, journal) == Post(mid, p);
    }
  }

  lemma OnePostingOnlyPosts(b: Books, p: Posting)
    ensures OnlyPosted(b, Post(b, p))
  {
    match p case _ =>
  }

  // ----- What a journal adds up to, read from its postings alone -----

  function NetOf(p: Posting): real {
    match p
    case ToRow(_, c, x) => Weighted(c, x)
    case ToPool(_, x) => -x
    case _ => 0.0
  }

  function JournalNet(journal: seq<Posting>): real {
    if journal == [] then 0.0
    else JournalNet(journal[..|journal| - 1]) + NetOf(journal[|journal| - 1])
  }

  /** The amount a journal adds to one column of one article. */
  function JournalColumn(journal: seq<Posting>, sku: string, c: Column): real {
    if journal == [] then 0.0
    else
      var p := journal[|journal| - 1];
      JournalColumn(journal[..|journal| - 1], sku, c) +
      if p.ToRow? && p.sku == sku && p.column == c then p.amount else 0.0
  }

  lemma {:induction false} JournalNetConcat(a: seq<Posting>, b: seq<Posting>)
    ensures JournalNet(a + b) == JournalNet(a) + JournalNet(b)
  {
    if b == [] {
      assert a + b == a;
    } else {
      JournalNetConcat(a, b[..|b| - 1]);
      assert (a + b)[..|a + b| - 1] == a + b[..|b| - 1];
    }
  }

  lemma {:induction false} JournalColumnConcat(a: seq<Posting>, b: seq<Posting>, sku: string, c: Column)
    ensures JournalColumn(a + b, sku, c) == JournalColumn(a, sku, c) + JournalColumn(b, sku, c)
  {
    if b == [] {
      assert a + b == a;
    } else {
      JournalColumnConcat(a, b[..|b| - 1], sku, c);
      assert (a + b)[..|a + b| - 1] == a + b[..|b| - 1];
    }
  }

  lemma PoolBump(pool: map<Column, real>, c: Column, x: real)
    ensures SumMap(pool[c := At(pool, c) + x]) == SumMap(pool) + x
  {
    SumMapUpdate(pool, c, At(pool, c) + x);
  }

  lemma NetOfPosting(b: Books, p: Posting)
    ensures var after := Post(b, p); Net(after.rows, after.pool) == Net(b.rows, b.pool) + NetOf(p)
  {
    hide Net, Bump;
    match p
    case ToRow(sku, c, x) => NetBump(b.rows, b.pool, sku, c, x);
    case ToPool(c, x) => PoolNet(b.rows, b.pool, c, x);
    case _ =>
  }

  lemma PoolNet(rows: Rows, pool: map<Column, real>, c: Column, x: real)
    ensures Net(rows, pool[c := At(pool, c) + x]) == Net(rows, pool) - x
  {
    PoolBump(pool, c, x);
  }

  /** The re-scan of the books after a journal is the re-scan before plus the journal's own net. */
  lemma {:induction false} NetOfPosted(b: Books, journal: seq<Posting>)
    ensures var after := PostAll(b, journal);
      Net(after.rows, after.pool) == Net(b.rows, b.pool) + JournalNet(journal)
  {
    hide Net, Post, NetOf;
    if journal != [] {
      NetOfPosted(b, journal[..|journal| - 1]);
      NetOfPosting(PostAll(b, journal[..|journal| - 1]), journal[|journal| - 1]);
    }
  }

  lemma CellOfPosting(b: Books, p: Posting, sku: string, c: Column)
    ensures Get(RowOf(Post(b, p).rows, sku), c) ==
            Get(RowOf(b.rows, sku), c) + if p.ToRow? && p.sku == sku && p.column == c then p.amount else 0.0
  {
    if p.ToRow? {
      assert RowOf(Post(b, p).rows, p.sku) == BumpRow(RowOf(b.rows, p.sku), p.column, p.amount);
    }
  }

  lemma {:induction false} CellOfPosted(b: Books, journal: seq<Posting>, sku: string, c: Column)
    ensures Get(RowOf(PostAll(b, journal).rows, sku), c) ==
            Get(RowOf(b.rows, sku), c) + JournalColumn(journal, sku, c)
  {
    if journal != [] {
      var p := journal[|journal| - 1];
      var mid := PostAll(b, journal[..|journal| - 1]);
      CellOfPosted(b, journal[..|journal| - 1], sku, c);
      CellOfPosting(mid, p, sku, c);
      assert PostAll(b, journal) == Post(mid, p);
    }
  }

  lemma MonthsOfPosting(b: Books, p: Posting, sku: string)
    ensures SumMap(DayOf(Post(b, p).saleDays, sku)) ==
            SumMap(DayOf(b.saleDays, sku)) + if p.ToMonth? && p.sku == sku then p.amount else 0.0
  {
    if p.ToMonth? {
      MonthBump(b.saleDays, p.sku, p.month, p.amount, sku);
    } else {
      assert Post(b, p).saleDays == b.saleDays;
    }
  }

  lemma MonthBump(days: Days, at: string, month: string, x: real, sku: string)
    ensures SumMap(DayOf(BumpDay(days, at, month, x), sku)) ==
            SumMap(DayOf(days, sku)) + if at == sku then x else 0.0
  {
    if at == sku {
      SumMapUpdate(DayOf(days, sku), month, At(DayOf(days, sku), month) + x);
    }
  }
}
