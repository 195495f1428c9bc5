/** What the buyout records of a whole run do to every article, and when a sale is booked twice. */
module BuyoutEffects {
  import opened Wrappers
  import opened Sums
  import opened Ledger
  import opened Accruals
  import opened BuyoutLedger
  import opened Settlement
  import opened OzonRuns

  /** How a record was taken: `known` when the accruals held its sale already. */
  datatype Taking = Taking(known: bool, sale: Sale)

  function TakingOf(b: Books, id: Key, r: Buyout): Taking {
    if id in b.domestic then Taking(true, b.domestic[id])
    else Taking(false, Sale(r.quantity, r.gross, r.receipt, r.deduction))
  }

  /** A sale taken as foreign appears on the foreign side of its article. It leaves the domestic
      side when it was known, and enters the totals when it was not. */
  function Shift(t: Taking, c: Column): real {
    match c
    case SalesCis => t.sale.quantity
    case RevenueCis => t.sale.gross
    case BuyerCis => t.sale.receipt
    case CommissionCis => t.sale.deduction
    case SalesQty => if t.known then -t.sale.quantity else 0.0
    case RevenueRf => if t.known then -t.sale.gross else 0.0
    case BuyerRf => if t.known then -t.sale.receipt else 0.0
    case CommissionRf => if t.known then -t.sale.deduction else 0.0
    case Revenue => if t.known then 0.0 else t.sale.gross
    case BuyerRevenue => if t.known then 0.0 else t.sale.receipt
    case Commission => if t.known then 0.0 else t.sale.deduction
    case _ => 0.0
  }

  // ----- One record -----

  lemma MoveColumn(sku: string, sale: Sale, other: string, c: Column)
    ensures JournalColumn(MoveJournal(sku, sale), other, c) == if sku == other then Shift(Taking(true, sale), c) else 0.0
  {
    hide JournalColumn;
    EightCells(MoveJournal(sku, sale), other, c);
  }

  lemma OwnColumn(e: Event, other: string, c: Column)
    ensures var r := e.record;
      JournalColumn(OwnJournal(e), other, c) ==
      if r.sku == other then Shift(Taking(false, Sale(r.quantity, r.gross, r.receipt, r.deduction)), c) else 0.0
  {
    hide JournalColumn;
    var j := OwnJournal(e);
    assert j == j[..8] + [j[8]];
    EightCells(j[..8], other, c);
    JournalSnoc(j[..8], j[8], other, c);
  }

  /** A new record shifts the columns of its own article by the amounts of the known sale, or by its
      own amounts; a repeated or contradicting one shifts nothing. */
  lemma ApplyShiftsColumns(b: Books, e: Event, sku: string, c: Column)
    ensures var r, after := e.record, Apply(b, e).books;
      Get(RowOf(after.rows, sku), c) == Get(RowOf(b.rows, sku), c) +
      if r.Id() !in b.seen && r.sku == sku then Shift(TakingOf(b, r.Id(), r), c) else 0.0
  {
    hide PostAll, MoveJournal, OwnJournal, JournalColumn, Shift, Get, RowOf;
    var r := e.record;
    if r.Id() !in b.seen {
      if r.Id() in b.domestic {
        var start, j := Marked(b, r).(overlaps := b.overlaps + 1), MoveJournal(r.sku, b.domestic[r.Id()]);
        CellOfPosted(start, j, sku, c);
        MoveColumn(r.sku, b.domestic[r.Id()], sku, c);
      } else {
        CellOfPosted(Marked(b, r), OwnJournal(e), sku, c);
        OwnColumn(e, sku, c);
      }
    }
  }

  // ----- A run of records -----

  /** The records of `seen` that are new to the books, as they are taken. */
  function NewTakings(b: Books, seen: map<Key, Buyout>): map<Key, Taking> {
    map id | id in seen && id !in b.seen :: TakingOf(b, id, seen[id])
  }

  /** What takings shift in one column of one article: each posting/SKU pair counts once. */
  ghost function Shifted(takings: map<Key, Taking>, sku: string, c: Column): real {
    SumMap(ShiftMap(takings, sku, c))
  }

  ghost function ShiftMap(takings: map<Key, Taking>, sku: string, c: Column): map<Key, real> {
    map id | id in takings && id.1 == sku :: Shift(takings[id], c)
  }

  lemma ShiftedAdd(takings: map<Key, Taking>, id: Key, t: Taking, sku: string, c: Column)
    requires id !in takings
    ensures Shifted(takings[id := t], sku, c) == Shifted(takings, sku, c) + if id.1 == sku then Shift(t, c) else 0.0
  {
    hide Shift;
    var before, after := ShiftMap(takings, sku, c), ShiftMap(takings[id := t], sku, c);
    if id.1 == sku {
      assert after == before[id := Shift(t, c)];
      SumMapUpdate(before, id, Shift(t, c));
    } else {
      assert after == before;
    }
  }

  lemma ShiftedUnion(a: map<Key, Taking>, more: map<Key, Taking>, sku: string, c: Column)
    requires a.Keys !! more.Keys
    ensures Shifted(a + more, sku, c) == Shifted(a, sku, c) + Shifted(more, sku, c)
  {
    assert ShiftMap(a + more, sku, c) == ShiftMap(a, sku, c) + ShiftMap(more, sku, c);
    SumMapUnion(ShiftMap(a, sku, c), ShiftMap(more, sku, c));
  }

  /** Every record that is remembered names its own posting and SKU. */
  lemma TakingsOfOneMore(b: Books, at: Books, e: Event)
    requires at.domestic == b.domestic && (forall id :: id in b.seen ==> id in at.seen)
    ensures var r, after := e.record, Apply(at, e).books;
      NewTakings(b, after.seen) ==
      if r.Id() in at.seen then NewTakings(b, at.seen) else NewTakings(b, at.seen)[r.Id() := TakingOf(at, r.Id(), r)]
    ensures forall id :: id in b.seen ==> id in Apply(at, e).books.seen
  {
    hide PostAll, MoveJournal, OwnJournal;
    ApplyCounts(at, e);
    if e.record.Id() in at.seen && at.seen[e.record.Id()] == e.record {
      assert at.seen[e.record.Id() := e.record] == at.seen;
    }
  }

  /** Over a run of records, conflicts included, every column of every article is shifted once by
      each posting/SKU pair that was not seen before. */
  lemma {:induction false} BuyoutsShiftColumns(b: Books, events: seq<Event>, sku: string, c: Column)
    ensures var after := ApplyAll(b, events).books;
      && Get(RowOf(after.rows, sku), c) ==
         Get(RowOf(b.rows, sku), c) + Shifted(NewTakings(b, after.seen), sku, c)
      && after.domestic == b.domestic && (forall id :: id in b.seen ==> id in after.seen)
  {
    hide Apply, Get, RowOf, Shift, TakingOf;
    if events == [] {
      SumOfNothing(ShiftMap(NewTakings(b, b.seen), sku, c));
    } else {
      var before, e := ApplyAll(b, events[..|events| - 1]), events[|events| - 1];
      BuyoutsShiftColumns(b, events[..|events| - 1], sku, c);
      if before.Done? {
        var at, r := before.books, e.record;
        ApplyShiftsColumns(at, e, sku, c);
        TakingsOfOneMore(b, at, e);
        ApplyCounts(at, e);
        if r.Id() !in at.seen { ShiftedAdd(NewTakings(b, at.seen), r.Id(), TakingOf(at, r.Id(), r), sku, c); }
      }
    }
  }

  // ----- Whole runs -----

  /** Every posting/SKU pair that a run took from buyout reports, as it was taken. */
  function Takings(ops: seq<Op>): map<Key, Taking> {
    if ops == [] then map[]
    else
      var before, op := ops[..|ops| - 1], ops[|ops| - 1];
      if op.BuyoutsOp? then
        Takings(before) + NewTakings(Run(EMPTY, before), ApplyAll(Run(EMPTY, before), op.events).books.seen)
      else Takings(before)
  }

  /** What the payloads of a run book on one column of one article. */
  function Booked(ops: seq<Op>, sku: string, c: Column): real {
    if ops == [] then 0.0
    else
      var op := ops[|ops| - 1];
      Booked(ops[..|ops| - 1], sku, c) + if op.AddOp? then LinesCell(op.payload.products, sku, c) else 0.0
  }

  lemma AllocateKeepsCells(b: Books, sku: string, c: Column)
    requires PoolIsExpenses(b) && !IsExpense(c)
    ensures Get(RowOf(Allocate(b).rows, sku), c) == Get(RowOf(b.rows, sku), c)
  {
    GetCharged(RowOf(b.rows, UNALLOCATED), b.pool, c);
  }

  lemma AddKeepsSeen(b: Books, p: Payload)
    ensures Add(b, p).seen == b.seen && Add(b, p).buyoutReceipts == b.buyoutReceipts
  {
    PostingsOnlyPost(b, AddJournal(p));
  }

  predicate OzonOps(ops: seq<Op>) {
    forall i :: 0 <= i < |ops| ==> OzonOp(ops[i])
  }

  /** An operation other than a buyout report leaves the records alone. */
  lemma OtherOpsKeepSeen(b: Books, op: Op)
    requires OzonOp(op) && !op.BuyoutsOp?
    ensures Step(b, op).seen == b.seen && Step(b, op).buyoutReceipts == b.buyoutReceipts
    ensures !op.AddOp? ==> Step(b, op).domestic == b.domestic
  {
    hide Add, Bind;
    match op
    case AddOp(p) => AddKeepsSeen(b, p);
    case BindOp(records) => BindMovesMarketing(b, records, UNALLOCATED, Marketing);
    case _ =>
  }

  lemma OtherOpsBookLines(b: Books, op: Op, sku: string, c: Column)
    requires OzonOp(op) && !op.BuyoutsOp? && PoolIsExpenses(b) && !IsExpense(c)
    ensures Get(RowOf(Step(b, op).rows, sku), c) ==
            Get(RowOf(b.rows, sku), c) + if op.AddOp? then LinesCell(op.payload.products, sku, c) else 0.0
  {
    hide Add, Bind, Allocate, Get, RowOf, LinesCell, PoolIsExpenses;
    match op
    case AddOp(p) => AddBooksTheLines(b, p, sku, c);
    case AllocateOp => AllocateKeepsCells(b, sku, c);
    case BindOp(records) => BindMovesMarketing(b, records, sku, c);
  }

  lemma {:induction false} TakenIsSeen(ops: seq<Op>)
    requires OzonOps(ops)
    ensures Takings(ops).Keys == Run(EMPTY, ops).seen.Keys
  {
    hide ApplyAll, Add, Bind, Allocate, TakingOf, OzonOp;
    if ops != [] {
      var before, op := ops[..|ops| - 1], ops[|ops| - 1];
      var b := Run(EMPTY, before);
      assert OzonOp(op);
      TakenIsSeen(before);
      if op.BuyoutsOp? {
        BuyoutsShiftColumns(b, op.events, "", Revenue);
      } else {
        OtherOpsKeepSeen(b, op);
      }
    }
  }

  /** Over every Ozon run, reports before, between and after accruals, repeated and conflicting
      reports included: each sale column of each article holds what the payloads' own lines say and
      one shift for every posting/SKU pair that was taken. */
  lemma {:induction false} RunColumns(ops: seq<Op>, sku: string, c: Column)
    requires OzonOps(ops) && !IsExpense(c)
    ensures Get(RowOf(Run(EMPTY, ops).rows, sku), c) == Booked(ops, sku, c) + Shifted(Takings(ops), sku, c)
    ensures Takings(ops).Keys == Run(EMPTY, ops).seen.Keys
  {
    hide Step, Get, Shift, TakingOf, OzonOp, ApplyAll, IsExpense, Sound;
    TakenIsSeen(ops);
    if ops == [] {
      NothingBooked(sku, c);
    } else {
      RunColumns(ops[..|ops| - 1], sku, c);
      OneMoreOp(ops, sku, c);
    }
  }

  lemma NothingBooked(sku: string, c: Column)
    ensures Get(RowOf(EMPTY.rows, sku), c) == 0.0 && Shifted(map[], sku, c) == 0.0
  {
    SumOfNothing(ShiftMap(map[], sku, c));
  }

  lemma OneMoreOp(ops: seq<Op>, sku: string, c: Column)
    requires OzonOps(ops) && !IsExpense(c) && ops != []
    ensures var before := ops[..|ops| - 1];
      Get(RowOf(Run(EMPTY, ops).rows, sku), c) - Get(RowOf(Run(EMPTY, before).rows, sku), c) ==
      Booked(ops, sku, c) - Booked(before, sku, c) +
      Shifted(Takings(ops), sku, c) - Shifted(Takings(before), sku, c)
  {
    hide Get, Shift, TakingOf, OzonOp, ApplyAll, IsExpense, Balanced, Split, MonthsAddUp, PoolIsExpenses, RowOf;
    var before, op := ops[..|ops| - 1], ops[|ops| - 1];
    var b := Run(EMPTY, before);
    assert OzonOp(op);
    if op.BuyoutsOp? {
      var more := NewTakings(b, ApplyAll(b, op.events).books.seen);
      BuyoutsShiftColumns(b, op.events, sku, c);
      TakenIsSeen(before);
      ShiftedUnion(Takings(before), more, sku, c);
    } else {
      OzonRunKeepsBooksSound(before);
      OtherOpsBookLines(b, op, sku, c);
    }
  }

  // ----- Exactly once -----

  /** The foreign amounts that were booked as new sales. */
  ghost function OwnTaken(takings: map<Key, Taking>): real {
    SumMap(OwnMap(takings))
  }

  ghost function OwnMap(takings: map<Key, Taking>): map<Key, real> {
    map id | id in takings && !takings[id].known :: takings[id].sale.receipt
  }

  lemma OwnTakenAdd(takings: map<Key, Taking>, id: Key, t: Taking)
    requires id !in takings
    ensures OwnTaken(takings[id := t]) == OwnTaken(takings) + if t.known then 0.0 else t.sale.receipt
  {
    var before, after := OwnMap(takings), OwnMap(takings[id := t]);
    if t.known {
      assert after == before;
    } else {
      assert after == before[id := t.sale.receipt];
      SumMapUpdate(before, id, t.sale.receipt);
    }
  }

  lemma OwnTakenUnion(a: map<Key, Taking>, more: map<Key, Taking>)
    requires a.Keys !! more.Keys
    ensures OwnTaken(a + more) == OwnTaken(a) + OwnTaken(more)
  {
    assert OwnMap(a + more) == OwnMap(a) + OwnMap(more);
    SumMapUnion(OwnMap(a), OwnMap(more));
  }

  /** How a pair was taken agrees with the record that is remembered for it. */
  predicate TakenAsSeen(takings: map<Key, Taking>, b: Books) {
    && takings.Keys == b.seen.Keys
    && forall id :: id in takings ==>
         if takings[id].known then id in b.domestic else takings[id].sale.receipt == b.seen[id].receipt
  }

  lemma {:induction false} BuyoutsTakeReceipts(b: Books, events: seq<Event>)
    ensures var after := ApplyAll(b, events).books;
      && after.buyoutReceipts == b.buyoutReceipts + OwnTaken(NewTakings(b, after.seen))
      && after.domestic == b.domestic
      && (forall id :: id in b.seen ==> id in after.seen && after.seen[id] == b.seen[id])
  {
    hide Apply;
    if events == [] {
      SumOfNothing(OwnMap(NewTakings(b, b.seen)));
    } else {
      var before, e := ApplyAll(b, events[..|events| - 1]), events[|events| - 1];
      BuyoutsTakeReceipts(b, events[..|events| - 1]);
      if before.Done? {
        var at, r := before.books, e.record;
        TakingsOfOneMore(b, at, e);
        ApplyCounts(at, e);
        OneMoreSeen(at, e);
        if r.Id() !in at.seen { OwnTakenAdd(NewTakings(b, at.seen), r.Id(), TakingOf(at, r.Id(), r)); }
      }
    }
  }

  lemma OneMoreSeen(b: Books, e: Event)
    ensures forall id :: id in b.seen ==> id in Apply(b, e).books.seen && Apply(b, e).books.seen[id] == b.seen[id]
  {
    hide PostAll, MoveJournal, OwnJournal;
    ApplyCounts(b, e);
  }

  lemma DomesticGrows(b: Books, op: Op)
    requires OzonOp(op)
    ensures forall id :: id in b.domestic ==> id in Step(b, op).domestic
    ensures forall id :: id in Step(b, op).domestic <==> id in b.domestic || (op.AddOp? && Sells(op.payload, id))
  {
    hide Add, ApplyAll, Sells, Bind, Allocate;
    if op.AddOp? {
      forall id ensures id in Add(b, op.payload).domestic <==> id in b.domestic || Sells(op.payload, id) {
        AddRemembersSales(b, op.payload, id);
      }
    } else if op.BuyoutsOp? {
      BuyoutsTakeReceipts(b, op.events);
    } else {
      OtherOpsKeepSeen(b, op);
    }
  }

  /** The receipts of a run are those of the pairs taken as new sales. */
  lemma {:induction false} RunTakesReceipts(ops: seq<Op>)
    requires OzonOps(ops)
    ensures TakenAsSeen(Takings(ops), Run(EMPTY, ops))
    ensures Run(EMPTY, ops).buyoutReceipts == OwnTaken(Takings(ops))
  {
    hide ApplyAll, Add, Bind, Allocate, OzonOp, OwnTaken, Sells;
    if ops == [] {
      NoTakings();
    } else {
      var before, op := ops[..|ops| - 1], ops[|ops| - 1];
      var b := Run(EMPTY, before);
      assert OzonOp(op);
      RunTakesReceipts(before);
      DomesticGrows(b, op);
      if op.BuyoutsOp? {
        BuyoutsTakeReceipts(b, op.events);
        OwnTakenUnion(Takings(before), NewTakings(b, ApplyAll(b, op.events).books.seen));
      } else {
        OtherOpsKeepSeen(b, op);
      }
    }
  }

  lemma NoTakings()
    ensures OwnTaken(map[]) == 0.0
  {
    SumOfNothing(OwnMap(map[]));
  }

  /** The pairs that were taken as new sales and whose sale an accrual brought afterwards. */
  ghost function Twice(ops: seq<Op>): set<Key> {
    var takings, b := Takings(ops), Run(EMPTY, ops);
    set id | id in takings && !takings[id].known && id in b.domestic
  }

  ghost function ReceiptsAt(seen: map<Key, Buyout>, ids: set<Key>): real {
    SumMap(ReceiptMap(seen, ids))
  }

  ghost function ReceiptMap(seen: map<Key, Buyout>, ids: set<Key>): map<Key, real> {
    map id | id in ids && id in seen :: seen[id].receipt
  }

  /** Over every Ozon run, in whatever order reports and accruals come, the receipts taken in are
      one for every distinct record without a domestic sale, and one more for every pair that an
      accrual sold after it had been taken as a new sale. */
  lemma ReceiptsOfARun(ops: seq<Op>)
    requires OzonOps(ops)
    ensures var b := Run(EMPTY, ops);
      b.buyoutReceipts == OwnReceipts(b.seen, b.domestic.Keys) + ReceiptsAt(b.seen, Twice(ops))
  {
    hide Run, Takings, OzonOps;
    RunTakesReceipts(ops);
    var b, takings := Run(EMPTY, ops), Takings(ops);
    var once := map id | id in b.seen && id !in b.domestic.Keys :: b.seen[id].receipt;
    var twice := ReceiptMap(b.seen, Twice(ops));
    assert OwnMap(takings) == once + twice;
    SumMapUnion(once, twice);
  }

  /** The accrual sells a pair that the books hold as a foreign sale without a domestic one. */
  predicate SellsTaken(b: Books, p: Payload, id: Key) {
    Sells(p, id) && id in b.seen && id !in b.domestic
  }

  ghost predicate SellsTakenAt(ops: seq<Op>, i: nat, id: Key)
    requires i < |ops|
  {
    ops[i].AddOp? && SellsTaken(Run(EMPTY, ops[..i]), ops[i].payload, id)
  }

  /** A pair is booked twice exactly when some accrual of the run sells it after the report. */
  lemma {:induction false} TwiceIff(ops: seq<Op>, id: Key)
    requires OzonOps(ops)
    ensures id in Twice(ops) <==> exists i :: 0 <= i < |ops| && SellsTakenAt(ops, i, id)
  {
    hide ApplyAll, Add, Bind, Allocate, OzonOp, Sells;
    if ops != [] {
      var n := |ops| - 1;
      var before, op := ops[..n], ops[n];
      TwiceIff(before, id);
      TwiceOneMore(ops, id);
      forall i | 0 <= i < n ensures SellsTakenAt(before, i, id) <==> SellsTakenAt(ops, i, id) {
        assert before[..i] == ops[..i];
      }
    }
  }

  lemma TwiceOneMore(ops: seq<Op>, id: Key)
    requires OzonOps(ops) && ops != []
    ensures id in Twice(ops) <==> id in Twice(ops[..|ops| - 1]) || SellsTakenAt(ops, |ops| - 1, id)
  {
    hide ApplyAll, Add, Bind, Allocate, OzonOp, Sells;
    var before, op := ops[..|ops| - 1], ops[|ops| - 1];
    var b := Run(EMPTY, before);
    assert OzonOp(op);
    RunTakesReceipts(before);
    DomesticGrows(b, op);
    if op.BuyoutsOp? {
      BuyoutsTakeReceipts(b, op.events);
    }
  }

  /** No accrual of the run sells a pair that was taken as a new sale before. */
  ghost predicate AccrualsComeFirst(ops: seq<Op>) {
    forall i, id :: 0 <= i < |ops| ==> !SellsTakenAt(ops, i, id)
  }

  /** Every pair takes effect exactly once, as a move or as a sale of its own, exactly when no
      accrual sells it after the report. The money is right exactly when the receipts of the
      pairs booked twice cancel out. */
  lemma ExactlyOnceIff(ops: seq<Op>)
    requires OzonOps(ops)
    ensures Twice(ops) == {} <==> AccrualsComeFirst(ops)
    ensures var b := Run(EMPTY, ops);
      b.buyoutReceipts == OwnReceipts(b.seen, b.domestic.Keys) <==> ReceiptsAt(b.seen, Twice(ops)) == 0.0
    ensures var b := Run(EMPTY, ops);
      AccrualsComeFirst(ops) ==> b.buyoutReceipts == OwnReceipts(b.seen, b.domestic.Keys)
  {
    hide Run, Takings, SellsTakenAt, OwnReceipts, Twice, OzonOps;
    ReceiptsOfARun(ops);
    forall id ensures id in Twice(ops) <==> exists i :: 0 <= i < |ops| && SellsTakenAt(ops, i, id) {
      TwiceIff(ops, id);
    }
    if Twice(ops) == {} {
      SumOfNothing(ReceiptMap(Run(EMPTY, ops).seen, Twice(ops)));
    }
    if !AccrualsComeFirst(ops) {
      var i, id :| 0 <= i < |ops| && SellsTakenAt(ops, i, id);
      assert id in Twice(ops);
    }
  }

  // ----- Buyer money of a run -----

  /** What buyers paid for the lines of all payloads of a run. */
  function BuyerMoneyOfRun(ops: seq<Op>): real {
    if ops == [] then 0.0
    else
      var op := ops[|ops| - 1];
      BuyerMoneyOfRun(ops[..|ops| - 1]) + if op.AddOp? then BuyerMoneyOf(op.payload.products) else 0.0
  }

  /** Buyer revenue of every Ozon run: the buyer money of all payloads, one receipt for every
      distinct record without a domestic sale, and the receipts of the pairs booked twice. */
  lemma BuyerMoneyOfARun(ops: seq<Op>)
    requires OzonOps(ops)
    ensures var b := Run(EMPTY, ops);
      ColumnTotal(b.rows, BuyerRevenue) ==
      BuyerMoneyOfRun(ops) + OwnReceipts(b.seen, b.domestic.Keys) + ReceiptsAt(b.seen, Twice(ops))
  {
    hide Run, Takings, ColumnTotal, OwnReceipts, Twice;
    ReceiptsOfARun(ops);
    RunBooksBuyerMoney(ops);
  }

  lemma {:induction false} RunBooksBuyerMoney(ops: seq<Op>)
    requires OzonOps(ops)
    ensures var b := Run(EMPTY, ops); ColumnTotal(b.rows, BuyerRevenue) == BuyerMoneyOfRun(ops) + b.buyoutReceipts
  {
    hide Step, ColumnTotal, OzonOp, Sound;
    if ops == [] {
      EmptyTotal();
    } else {
      var before, op := ops[..|ops| - 1], ops[|ops| - 1];
      assert OzonOp(op);
      RunBooksBuyerMoney(before);
      OzonRunKeepsBooksSound(before);
      StepBooksBuyerMoney(Run(EMPTY, before), op);
    }
  }

  lemma EmptyTotal()
    ensures ColumnTotal(EMPTY.rows, BuyerRevenue) == 0.0
  {
    var none: Rows := map[];
    SumOfNothing(map sku | sku in none :: ((row: Row) => Get(row, BuyerRevenue))(none[sku]));
  }

  lemma StepBooksBuyerMoney(b: Books, op: Op)
    requires OzonOp(op) && Sound(b)
    ensures ColumnTotal(Step(b, op).rows, BuyerRevenue) - ColumnTotal(b.rows, BuyerRevenue) ==
            Step(b, op).buyoutReceipts - b.buyoutReceipts + if op.AddOp? then BuyerMoneyOf(op.payload.products) else 0.0
  {
    hide Add, Bind, Allocate, ApplyAll, ColumnTotal;
    if !op.BuyoutsOp? { OtherOpsKeepSeen(b, op); }
    match op
    case AddOp(p) => AddBooksBuyerMoney(b, p);
    case BuyoutsOp(events) => BuyerMoneyFollowsReceipts(b, events);
    case AllocateOp => AllocateKeepsBuyers(b);
    case BindOp(records) => BindKeepsBuyers(b, records);
  }

  /** The order decides: an accrual after the report of its pair adds its buyer money to the receipt,
      where the report after the accrual would only move it. */
  lemma SaleAfterTheReportBooksTwice(b: Books, e: Event, p: Payload)
    requires var id := e.record.Id(); id !in b.seen && id !in b.domestic && Sells(p, id)
    ensures ColumnTotal(Add(Apply(b, e).books, p).rows, BuyerRevenue) ==
            ColumnTotal(b.rows, BuyerRevenue) + e.record.receipt + BuyerMoneyOf(p.products)
    ensures ColumnTotal(Apply(Add(b, p), e).books.rows, BuyerRevenue) ==
            ColumnTotal(b.rows, BuyerRevenue) + BuyerMoneyOf(p.products)
  {
    hide ColumnTotal, Add, Apply, Sells;
    ApplyCounts(b, e);
    ApplyBooksBuyerMoney(b, e);
    AddBooksBuyerMoney(Apply(b, e).books, p);
    AddBooksBuyerMoney(b, p);
    AddRemembersSales(b, p, e.record.Id());
    ApplyCounts(Add(b, p), e);
    AddKeepsSeen(b, p);
    ApplyBooksBuyerMoney(Add(b, p), e);
  }

  // ----- Domestic amounts of a run -----

  /** What the payloads of a run sold of a pair. */
  function SoldInRun(ops: seq<Op>, id: Key): Sale {
    if ops == [] then NOTHING
    else
      var op := ops[|ops| - 1];
      AddSale(SoldInRun(ops[..|ops| - 1], id),
              if op.AddOp? then SoldBy(op.payload.products, op.payload.unit, id) else NOTHING)
  }

  /** Reports find the amounts that all earlier payloads sold of the pair, added up. */
  lemma {:induction false} RunRemembersAmounts(ops: seq<Op>, id: Key)
    requires OzonOps(ops)
    ensures SaleOf(Run(EMPTY, ops).domestic, id) == SoldInRun(ops, id)
  {
    hide Add, Bind, Allocate, ApplyAll, OzonOp, SoldBy;
    if ops != [] {
      var before, op := ops[..|ops| - 1], ops[|ops| - 1];
      assert OzonOp(op);
      RunRemembersAmounts(before, id);
      if op.AddOp? {
        AddRemembersAmounts(Run(EMPTY, before), op.payload, id);
      } else if op.BuyoutsOp? {
        BuyoutsTakeReceipts(Run(EMPTY, before), op.events);
      } else {
        OtherOpsKeepSeen(Run(EMPTY, before), op);
      }
    }
  }

  // ----- Runs that book a sale twice -----

  /** Any report of a pair followed by any accrual that sells it: the pair is booked twice, and buyer
      revenue holds the receipt and the buyer money. */
  lemma ReportThenAccrual(e: Event, p: Payload)
    requires Honest(e.record) && Sells(p, e.record.Id())
    ensures var ops := [BuyoutsOp([e]), AddOp(p)];
      && OzonOps(ops) && Twice(ops) == {e.record.Id()}
      && ColumnTotal(Run(EMPTY, ops).rows, BuyerRevenue) == e.record.receipt + BuyerMoneyOf(p.products)
  {
    hide ColumnTotal, Add, Apply, Sells;
    var ops, first := [BuyoutsOp([e]), AddOp(p)], [BuyoutsOp([e])];
    assert ops[..1] == first && first[..0] == [];
    assert [e][..0] == [];
    assert Run(EMPTY, []) == EMPTY && ApplyAll(EMPTY, []) == Done(EMPTY);
    assert ApplyAll(EMPTY, [e]) == Apply(EMPTY, e);
    assert Run(EMPTY, first) == Apply(EMPTY, e).books;
    assert Run(EMPTY, ops) == Add(Apply(EMPTY, e).books, p);
    EmptyTotal();
    SaleAfterTheReportBooksTwice(EMPTY, e, p);
    ApplyCounts(EMPTY, e);
    NewRecordIsTaken(EMPTY, e);
    forall id ensures id in Twice(ops) <==> id == e.record.Id() {
      TwiceOneMore(ops, id);
      TwiceOneMore(first, id);
    }
  }

  lemma NewRecordIsTaken(b: Books, e: Event)
    requires e.record.Id() !in b.seen
    ensures Apply(b, e).Done?
  {
  }

  const FOREIGN_SALE := Event("2024-01-01", Buyout("7", "P", "", "", 1.0, 100.0, 100.0, 0.0))
  const SAME_SALE := Line("7", 1.0, 100.0, 100.0, 0.0, [], 100.0)
  const ACCRUAL := Payload(Some("2024-01-02"), Some("P"), 100.0, [SAME_SALE], [], None, [])

  lemma OneLineMoney(line: Line)
    requires line.sku != "" && line.saleAmount != 0.0
    ensures BuyerMoneyOf([line]) == BuyerMoney(line)
  {
    hide BuyerMoney;
    assert [line][..0] == [] && BuyerMoneyOf([]) == 0.0;
  }

  lemma TheAccrualSells()
    ensures Sells(ACCRUAL, FOREIGN_SALE.record.Id()) && BuyerMoneyOf(ACCRUAL.products) == 100.0
  {
    hide BuyerMoneyOf;
    assert ACCRUAL.products[0] == SAME_SALE;
    OneLineMoney(SAME_SALE);
  }

  /** A sale of 100 that is reported first and arrives as an accrual afterwards counts as 200. */
  lemma OneSaleCountsAs200()
    ensures ColumnTotal(Run(EMPTY, [BuyoutsOp([FOREIGN_SALE]), AddOp(ACCRUAL)]).rows, BuyerRevenue) == 200.0
  {
    hide ColumnTotal, Run, Sells, BuyerMoneyOf, OzonOps, Twice, ACCRUAL;
    TheAccrualSells();
    ReportThenAccrual(FOREIGN_SALE, ACCRUAL);
  }
}
