/** Every cell of every article over whole runs: charges, the pool, campaigns and sale months. */
module RunCells {
  import opened Wrappers
  import opened Sums
  import opened Ledger
  import opened Accruals
  import opened PayloadCells
  import opened BuyoutLedger
  import opened Settlement
  import opened OzonRuns
  import opened BuyoutEffects

  // ----- Buyouts leave charges, pool and campaigns alone -----

  lemma {:induction false} BuyoutsKeepTheRest(b: Books, events: seq<Event>)
    ensures var after := ApplyAll(b, events).books; after.pool == b.pool && after.campaignCharges == b.campaignCharges
  {
    hide Apply;
    if events != [] {
      BuyoutsKeepTheRest(b, events[..|events| - 1]);
      var before := ApplyAll(b, events[..|events| - 1]);
      if before.Done? { BuyoutKeepsTheRest(before.books, events[|events| - 1]); }
    }
  }

  lemma BuyoutKeepsTheRest(b: Books, e: Event)
    ensures var after := Apply(b, e).books; after.pool == b.pool && after.campaignCharges == b.campaignCharges
  {
    hide PostAll, MoveJournal, OwnJournal;
    var r := e.record;
    if r.Id() !in b.seen {
      if r.Id() in b.domestic {
        MoveChangesRows(Marked(b, r).(overlaps := b.overlaps + 1), r.sku, b.domestic[r.Id()]);
      } else {
        OwnChangesRows(Marked(b, r), e);
      }
    }
  }

  lemma NoCharges(takings: map<Key, Taking>, sku: string, c: Column)
    requires IsExpense(c)
    ensures Shifted(takings, sku, c) == 0.0
  {
    SumOfZeroValues(ShiftMap(takings, sku, c));
  }

  lemma BuyoutsChargeNothing(b: Books, events: seq<Event>, sku: string, c: Column)
    requires IsExpense(c)
    ensures Get(RowOf(ApplyAll(b, events).books.rows, sku), c) == Get(RowOf(b.rows, sku), c)
  {
    hide ApplyAll, Get, RowOf, Shifted;
    BuyoutsShiftColumns(b, events, sku, c);
    NoCharges(NewTakings(b, ApplyAll(b, events).books.seen), sku, c);
  }

  // ----- Charges -----

  /** What is charged to an article; the row without an article and the pool count as one. */
  function Charged(b: Books, sku: string, c: Column): real {
    Get(RowOf(b.rows, sku), c) + if sku == UNALLOCATED then At(b.pool, c) else 0.0
  }

  /** The cost of the advertising records whose campaign of the day was charged, of one article or of all. */
  function AdCost(charged: set<Key>, records: seq<AdRecord>, sku: Option<string>): real {
    if records == [] then 0.0
    else
      var r := records[|records| - 1];
      AdCost(charged, records[..|records| - 1], sku) +
      if (r.day, r.campaign) in charged && (sku.None? || r.sku == sku.value) then r.cost else 0.0
  }

  lemma {:induction false} LinkedIs(b: Books, records: seq<AdRecord>, sku: string)
    ensures LinkedTo(b, records, sku) == AdCost(b.campaignCharges.Keys, records, Some(sku))
    ensures Linked(b, records) == AdCost(b.campaignCharges.Keys, records, None)
  {
    if records != [] { LinkedIs(b, records[..|records| - 1], sku); }
  }

  /** What one operation charges: the fees its payload names for the article, those that name none, and
      the advertising it links. */
  function ChargeOf(b: Books, op: Op, sku: string, c: Column): real {
    match op
    case AddOp(p) => FeeCell(p, sku, c) + if sku == UNALLOCATED then PoolCell(p, c) else 0.0
    case BindOp(records) =>
      if c != Marketing then 0.0
      else
        AdCost(b.campaignCharges.Keys, records, Some(sku)) -
        if sku == UNALLOCATED then AdCost(b.campaignCharges.Keys, records, None) else 0.0
    case _ => 0.0
  }

  function ChargesOf(ops: seq<Op>, sku: string, c: Column): real {
    if ops == [] then 0.0
    else
      var before, op := ops[..|ops| - 1], ops[|ops| - 1];
      ChargesOf(before, sku, c) + ChargeOf(Run(EMPTY, before), op, sku, c)
  }

  lemma AllocateKeepsCharges(b: Books, sku: string, c: Column)
    ensures Charged(Allocate(b), sku, c) == Charged(b, sku, c)
  {
    GetCharged(RowOf(b.rows, UNALLOCATED), b.pool, c);
    if c in b.pool && NonZero(b.pool) == {} { assert c !in NonZero(b.pool); }
  }

  lemma StepCharges(b: Books, op: Op, sku: string, c: Column)
    requires OzonOp(op) && IsExpense(c)
    ensures Charged(Step(b, op), sku, c) == Charged(b, sku, c) + ChargeOf(b, op, sku, c)
  {
    hide Add, Bind, Allocate, ApplyAll, Get, RowOf, FeeCell, PoolCell, IsExpense, At, LinkedTo, Linked, AdCost;
    match op
    case AddOp(p) =>
      AddChargesTheArticle(b, p, sku, c);
      AddChargesThePool(b, p, c);
    case BuyoutsOp(events) =>
      BuyoutsChargeNothing(b, events, sku, c);
      BuyoutsKeepTheRest(b, events);
    case AllocateOp => AllocateKeepsCharges(b, sku, c);
    case BindOp(records) =>
      BindMovesMarketing(b, records, sku, c);
      LinkedIs(b, records, sku);
  }

  lemma NothingCharged(sku: string, c: Column)
    ensures Charged(EMPTY, sku, c) == 0.0
  {
  }

  /** Over every Ozon run each expense column of each article holds exactly the fees that payloads named
      for it and the advertising that was linked to it; what named no article, and the unexplained rest
      of the totals, is in the pool or in the row without an article. */
  lemma {:induction false} RunCharges(ops: seq<Op>, sku: string, c: Column)
    requires OzonOps(ops) && IsExpense(c)
    ensures Charged(Run(EMPTY, ops), sku, c) == ChargesOf(ops, sku, c)
  {
    hide Step, Charged, ChargeOf, IsExpense, OzonOp;
    if ops == [] {
      NothingCharged(sku, c);
    } else {
      var before, op := ops[..|ops| - 1], ops[|ops| - 1];
      assert OzonOp(op);
      RunCharges(before, sku, c);
      StepCharges(Run(EMPTY, before), op, sku, c);
    }
  }

  // ----- Campaigns -----

  lemma StepCampaign(b: Books, op: Op, id: Key)
    requires OzonOp(op)
    ensures id in Step(b, op).campaignCharges <==> id in b.campaignCharges || (op.AddOp? && Charges(op.payload, id))
  {
    hide Add, Bind, ApplyAll, Charges;
    match op
    case AddOp(p) => AddChargesTheCampaign(b, p, id);
    case BuyoutsOp(events) => BuyoutsKeepTheRest(b, events);
    case AllocateOp =>
    case BindOp(records) => BindMovesMarketing(b, records, UNALLOCATED, Marketing);
  }

  /** An advertising record finds its campaign exactly when an earlier payload charged it. */
  lemma {:induction false} RunKnowsCampaigns(ops: seq<Op>, id: Key)
    requires OzonOps(ops)
    ensures id in Run(EMPTY, ops).campaignCharges <==>
      exists i :: 0 <= i < |ops| && ops[i].AddOp? && Charges(ops[i].payload, id)
  {
    hide Step, OzonOp, Charges;
    if ops != [] {
      var n := |ops| - 1;
      assert OzonOp(ops[n]);
      RunKnowsCampaigns(ops[..n], id);
      StepCampaign(Run(EMPTY, ops[..n]), ops[n], id);
      assert forall i :: 0 <= i < n ==> ops[..n][i] == ops[i];
    }
  }

  // ----- Months -----

  lemma MoveHasNoMonth(sku: string, sale: Sale, cis: bool, other: string, month: string)
    ensures JournalMonth(MoveJournal(sku, sale), cis, other, month) == 0.0
  {
    Monthless(MoveJournal(sku, sale), cis, other, month);
  }

  lemma OwnMonth(e: Event, cis: bool, sku: string, month: string)
    ensures JournalMonth(OwnJournal(e), cis, sku, month) ==
            if e.record.sku == sku && InMonth(e.day, month) then e.record.receipt else 0.0
  {
    hide JournalMonth, Month, InMonth;
    var j := OwnJournal(e);
    assert j == j[..7] + [j[7]] + [j[8]];
    Monthless(j[..7], cis, sku, month);
    OneMonth(j[7], cis, sku, month);
    OneMonth(j[8], cis, sku, month);
    JournalMonthConcat(j[..7], [j[7]], cis, sku, month);
    JournalMonthConcat(j[..7] + [j[7]], [j[8]], cis, sku, month);
    MonthIs(e.day, month);
  }

  lemma SameMonths(b: Books, c: Books, cis: bool, sku: string, month: string)
    requires b.saleDays == c.saleDays && b.cisSaleDays == c.cisSaleDays
    ensures MonthAt(b, cis, sku, month) == MonthAt(c, cis, sku, month)
  {
  }

  /** A sale taken as new enters the month of its report on both sides; a known or repeated one enters none. */
  lemma ApplyBooksTheMonth(b: Books, e: Event, cis: bool, sku: string, month: string)
    ensures var r := e.record; var id := r.Id();
      MonthAt(Apply(b, e).books, cis, sku, month) == MonthAt(b, cis, sku, month) +
      if id !in b.seen && id !in b.domestic && r.sku == sku && InMonth(e.day, month) then r.receipt else 0.0
  {
    hide PostAll, MoveJournal, OwnJournal, JournalMonth, InMonth, MonthAt;
    var r := e.record;
    if r.Id() in b.seen {
      SameMonths(b, Apply(b, e).books, cis, sku, month);
    } else if r.Id() in b.domestic {
      var start, j := Marked(b, r).(overlaps := b.overlaps + 1), MoveJournal(r.sku, b.domestic[r.Id()]);
      SameMonths(b, start, cis, sku, month);
      MonthAfter(start, j, cis, sku, month);
      MoveHasNoMonth(r.sku, b.domestic[r.Id()], cis, sku, month);
    } else {
      SameMonths(b, Marked(b, r), cis, sku, month);
      MonthAfter(Marked(b, r), OwnJournal(e), cis, sku, month);
      SameMonths(PostAll(Marked(b, r), OwnJournal(e)), Apply(b, e).books, cis, sku, month);
      OwnMonth(e, cis, sku, month);
    }
  }

  /** The receipts that the records of a report bring in as new sales of an article and month. */
  function NewInMonth(b: Books, events: seq<Event>, sku: string, month: string): real {
    if events == [] then 0.0
    else
      var before, e := ApplyAll(b, events[..|events| - 1]), events[|events| - 1];
      var id := e.record.Id();
      NewInMonth(b, events[..|events| - 1], sku, month) +
      if before.Done? && id !in before.books.seen && id !in b.domestic && e.record.sku == sku && InMonth(e.day, month)
      then e.record.receipt else 0.0
  }

  lemma {:induction false} BuyoutsBookTheMonth(b: Books, events: seq<Event>, cis: bool, sku: string, month: string)
    ensures MonthAt(ApplyAll(b, events).books, cis, sku, month) ==
            MonthAt(b, cis, sku, month) + NewInMonth(b, events, sku, month)
  {
    hide Apply, MonthAt, InMonth;
    if events != [] {
      var before, e := ApplyAll(b, events[..|events| - 1]), events[|events| - 1];
      BuyoutsBookTheMonth(b, events[..|events| - 1], cis, sku, month);
      BuyoutsTakeReceipts(b, events[..|events| - 1]);
      if before.Done? { ApplyBooksTheMonth(before.books, e, cis, sku, month); }
    }
  }

  /** What a run books in a month of an article: the lines of its payloads, unless only foreign sales
      count, and the new sales of its reports. */
  function MonthOf(ops: seq<Op>, cis: bool, sku: string, month: string): real {
    if ops == [] then 0.0
    else
      var before, op := ops[..|ops| - 1], ops[|ops| - 1];
      MonthOf(before, cis, sku, month) +
      match op
      case AddOp(p) => if cis then 0.0 else LinesMonth(p.products, Printed(p.date), sku, month)
      case BuyoutsOp(events) => NewInMonth(Run(EMPTY, before), events, sku, month)
      case _ => 0.0
  }

  lemma OtherOpsKeepMonths(b: Books, op: Op, cis: bool, sku: string, month: string)
    requires op.AllocateOp? || op.BindOp?
    ensures MonthAt(Step(b, op), cis, sku, month) == MonthAt(b, cis, sku, month)
  {
    hide Bind;
    if op.BindOp? { BindMovesMarketing(b, op.records, UNALLOCATED, Marketing); }
  }

  /** Over every Ozon run each sale month of each article, and each month of its foreign sales, holds
      what was booked for it. */
  lemma {:induction false} RunMonths(ops: seq<Op>, cis: bool, sku: string, month: string)
    requires OzonOps(ops)
    ensures MonthAt(Run(EMPTY, ops), cis, sku, month) == MonthOf(ops, cis, sku, month)
  {
    hide MonthAt, OzonOp, Add, Bind, Allocate, ApplyAll, LinesMonth, NewInMonth;
    if ops == [] {
      NoMonths(cis, sku, month);
    } else {
      var before, op := ops[..|ops| - 1], ops[|ops| - 1];
      assert OzonOp(op) && (op.AddOp? || op.BuyoutsOp? || op.AllocateOp? || op.BindOp?) by { KindOfOp(op); }
      RunMonths(before, cis, sku, month);
      match op
      case AddOp(p) => AddBooksTheMonth(Run(EMPTY, before), p, cis, sku, month);
      case BuyoutsOp(events) => BuyoutsBookTheMonth(Run(EMPTY, before), events, cis, sku, month);
      case _ => OtherOpsKeepMonths(Run(EMPTY, before), op, cis, sku, month);
    }
  }

  lemma KindOfOp(op: Op)
    ensures OzonOp(op) ==> op.AddOp? || op.BuyoutsOp? || op.AllocateOp? || op.BindOp?
  {
  }

  lemma NoMonths(cis: bool, sku: string, month: string)
    ensures MonthAt(EMPTY, cis, sku, month) == 0.0
  {
  }
}
