/** What every ledger of an account and day holds, told of the records and reports alone. */
module DayBooks {
  import opened Wrappers
  import opened Sums
  import opened Ledger
  import opened Accruals
  import opened PayloadCells
  import opened Buyouts
  import opened BuyoutLedger
  import opened Settlement
  import opened OzonRuns
  import opened BuyoutEffects
  import opened RunCells
  import opened AccrualEconomicsClass
  import opened FunnelEconomics

  // ----- Days -----

  /** The day is the first ten characters of a date, or all of a shorter one. */
  predicate DatedOn(date: string, day: string) {
    day <= date && |day| <= 10 && (|day| == 10 || day == date)
  }

  lemma OneDayPerDate(date: string, day: string, other: string)
    requires DatedOn(date, day) && DatedOn(date, other)
    ensures day == other
  {
    assert |day| == |other|;
    assert day == date[..|day|] && other == date[..|other|];
  }

  predicate RecordOn(r: Record, account: string, day: string) {
    r.account == account && r.payload.date.Some? && DatedOn(r.payload.date.value, day)
  }

  /** The account has a record or a report of the day. */
  predicate HasDay(records: seq<Record>, reports: seq<Report>, account: string, day: string) {
    || (exists i :: 0 <= i < |records| && RecordOn(records[i], account, day))
    || (exists i :: 0 <= i < |reports| && reports[i].account == account && reports[i].day == day)
  }

  // ----- Cells of a day -----

  /** A cell of a ledger; charges of the row without an article may still be in the pool. */
  function CellOf(b: Books, sku: string, c: Column): real {
    Get(RowOf(b.rows, sku), c) + if sku == UNALLOCATED && IsExpense(c) then At(b.pool, c) else 0.0
  }

  /** What a payload books there: its lines, the fees that name the article, or those that name none. */
  function PayloadCell(p: Payload, sku: string, c: Column): real {
    if !IsExpense(c) then LinesCell(p.products, sku, c)
    else FeeCell(p, sku, c) + if sku == UNALLOCATED then PoolCell(p, c) else 0.0
  }

  function RecordsCell(records: seq<Record>, account: string, day: string, sku: string, c: Column): real {
    if records == [] then 0.0
    else
      var n := |records| - 1;
      RecordsCell(records[..n], account, day, sku, c) +
      if RecordOn(records[n], account, day) then PayloadCell(records[n].payload, sku, c) else 0.0
  }

  /** What buyers paid for the account's records of the day. */
  function RecordsMoney(records: seq<Record>, account: string, day: string): real {
    if records == [] then 0.0
    else
      var n := |records| - 1;
      RecordsMoney(records[..n], account, day) +
      if RecordOn(records[n], account, day) then BuyerMoneyOf(records[n].payload.products) else 0.0
  }

  /** The day of the first report of the account that names a posting/SKU. */
  function FirstDay(reports: seq<Report>, account: string, id: Key): Option<string> {
    if reports == [] then None
    else
      var n := |reports| - 1;
      var before := FirstDay(reports[..n], account, id);
      if before.Some? then before
      else if reports[n].account == account && Names(reports[n].lines, id) then Some(reports[n].day) else None
  }

  /** The account's foreign records that were first reported on a day, as new sales. */
  function TakenOn(seen: map<Key, Buyout>, reports: seq<Report>, account: string, day: string): map<Key, Taking> {
    map id | id in seen && FirstDay(reports, account, id) == Some(day) ::
      Taking(false, Sale(seen[id].quantity, seen[id].gross, seen[id].receipt, seen[id].deduction))
  }

  /** A payload names an article: in a line or with an item fee. */
  predicate NamesArticle(p: Payload, sku: string) {
    sku != "" &&
    ((exists i :: 0 <= i < |p.products| && p.products[i].sku == sku) ||
     (exists i :: 0 <= i < |p.itemFees| && p.itemFees[i].sku == sku && p.itemFees[i].fees != []))
  }

  predicate RecordsName(records: seq<Record>, account: string, day: string, sku: string) {
    exists i :: 0 <= i < |records| && RecordOn(records[i], account, day) && NamesArticle(records[i].payload, sku)
  }

  predicate TakenOf(taken: map<Key, Taking>, sku: string) {
    exists id :: id in taken && id.1 == sku
  }

  ghost predicate CellsAre(b: Books, taken: map<Key, Taking>, records: seq<Record>, account: string, day: string) {
    forall sku, c :: CellOf(b, sku, c) == RecordsCell(records, account, day, sku, c) + Shifted(taken, sku, c)
  }

  ghost predicate MoneyIs(b: Books, taken: map<Key, Taking>, records: seq<Record>, account: string, day: string) {
    ColumnTotal(b.rows, BuyerRevenue) == RecordsMoney(records, account, day) + OwnTaken(taken)
  }

  ghost predicate ArticlesAre(b: Books, taken: map<Key, Taking>, records: seq<Record>, account: string, day: string) {
    forall sku :: sku != UNALLOCATED ==> (sku in b.rows <==> RecordsName(records, account, day, sku) || TakenOf(taken, sku))
  }

  /** The ledger holds what the records of its account and day book, fees and pool included, and the
      foreign sales first reported on it, and nothing else. */
  ghost predicate LedgerIs(b: Books, taken: map<Key, Taking>, records: seq<Record>, account: string, day: string) {
    CellsAre(b, taken, records, account, day) && MoneyIs(b, taken, records, account, day) &&
    ArticlesAre(b, taken, records, account, day)
  }

  ghost predicate LedgersAre(states: map<Key, Books>, seen: map<string, map<Key, Buyout>>,
                             records: seq<Record>, reports: seq<Report>) {
    forall account, day ::
      LedgerIs(StateOf(states, (account, day)), TakenOn(SeenOf(seen, account), reports, account, day), records, account, day)
  }

  ghost predicate DaysAre(states: map<Key, Books>, records: seq<Record>, reports: seq<Report>) {
    forall account, day :: (account, day) in states <==> HasDay(records, reports, account, day)
  }

  // ----- Articles of a ledger -----

  predicate PostsTo(journal: seq<Posting>, sku: string) {
    exists p :: p in journal && p.ToRow? && p.sku == sku
  }

  lemma PostsConcat(a: seq<Posting>, b: seq<Posting>, sku: string)
    ensures PostsTo(a + b, sku) <==> PostsTo(a, sku) || PostsTo(b, sku)
  {
  }

  lemma RowsOfPosting(b: Books, p: Posting, sku: string)
    ensures sku in Post(b, p).rows <==> sku in b.rows || (p.ToRow? && p.sku == sku)
  {
    if !p.ToRow? { assert Post(b, p).rows == b.rows; }
  }

  lemma {:induction false} RowsOfPosted(b: Books, journal: seq<Posting>, sku: string)
    ensures sku in PostAll(b, journal).rows <==> sku in b.rows || PostsTo(journal, sku)
  {
    hide Post;
    if journal != [] {
      var n := |journal| - 1;
      RowsOfPosted(b, journal[..n], sku);
      RowsOfPosting(PostAll(b, journal[..n]), journal[n], sku);
      assert journal == journal[..n] + [journal[n]];
      PostsConcat(journal[..n], [journal[n]], sku);
      assert PostsTo([journal[n]], sku) <==> journal[n].ToRow? && journal[n].sku == sku by { PostsOne(journal[n], sku); }
    }
  }

  lemma PostsOne(p: Posting, sku: string)
    ensures PostsTo([p], sku) <==> p.ToRow? && p.sku == sku
  {
    assert p in [p];
  }

  lemma {:induction false} FeesPostTo(at: string, fees: seq<Fee>, sku: string)
    ensures PostsTo(FeeJournal(at, fees), sku) <==> at != "" && at == sku && fees != []
  {
    if fees != [] {
      var n := |fees| - 1;
      FeesPostTo(at, fees[..n], sku);
      PostsConcat(FeeJournal(at, fees[..n]), [FeePosting(at, fees[n])], sku);
      PostsOne(FeePosting(at, fees[n]), sku);
    }
  }

  predicate ItemsName(items: seq<ItemFees>, sku: string) {
    exists i :: 0 <= i < |items| && items[i].sku == sku && items[i].fees != []
  }

  lemma {:induction false} ItemsPostTo(items: seq<ItemFees>, sku: string)
    ensures PostsTo(ItemFeesJournal(items), sku) <==> sku != "" && ItemsName(items, sku)
  {
    hide FeeJournal, PostsTo;
    if items == [] {
      NothingPosted(sku);
    } else {
      var n := |items| - 1;
      ItemsPostTo(items[..n], sku);
      FeesPostTo(items[n].sku, items[n].fees, sku);
      PostsConcat(ItemFeesJournal(items[..n]), FeeJournal(items[n].sku, items[n].fees), sku);
      assert forall i :: 0 <= i < n ==> items[..n][i] == items[i];
    }
  }

  lemma NothingPosted(sku: string)
    ensures !PostsTo([], sku)
  {
  }

  lemma LinePostsTo(line: Line, p: Payload, sku: string)
    ensures PostsTo(LineJournal(line, p), sku) <==> sku != "" && line.sku == sku
  {
    hide FeeJournal, BuyerMoney, Month, SumFees, DomesticSale;
    if line.sku != "" {
      var sale, fees := SaleJournal(line, Month(Printed(p.date)), p.unit), FeeJournal(line.sku, line.services);
      var rest := ToRow(line.sku, OtherServices, -(line.totalAccrued - SumFees(line.services)));
      FeesPostTo(line.sku, line.services, sku);
      PostsConcat(sale, fees, sku);
      PostsConcat(sale + fees, [rest], sku);
      PostsOne(rest, sku);
    }
  }

  predicate LinesName(lines: seq<Line>, sku: string) {
    exists i :: 0 <= i < |lines| && lines[i].sku == sku
  }

  lemma {:induction false} LinesPostTo(lines: seq<Line>, p: Payload, sku: string)
    ensures PostsTo(LinesJournal(lines, p), sku) <==> sku != "" && LinesName(lines, sku)
  {
    hide LineJournal, PostsTo;
    if lines == [] {
      NothingPosted(sku);
    } else {
      var n := |lines| - 1;
      LinesPostTo(lines[..n], p, sku);
      LinePostsTo(lines[n], p, sku);
      PostsConcat(LinesJournal(lines[..n], p), LineJournal(lines[n], p), sku);
      assert forall i :: 0 <= i < n ==> lines[..n][i] == lines[i];
    }
  }

  lemma PoolPostsTo(journal: seq<Posting>, sku: string)
    requires forall p :: p in journal ==> !p.ToRow?
    ensures !PostsTo(journal, sku)
  {
  }

  /** A payload opens a row for exactly the articles it names. */
  lemma AddOpensRows(b: Books, p: Payload, sku: string)
    ensures sku in Add(b, p).rows <==> sku in b.rows || NamesArticle(p, sku)
  {
    hide LinesJournal, ItemFeesJournal, FeeJournal, PostAll, PostsTo;
    var lines, items := LinesJournal(p.products, p), ItemFeesJournal(p.itemFees);
    var nonItem, container := NonItemJournal(p), FeeJournal("", p.containerFees);
    var rest := [ToPool(OtherAccruals, -(p.total - JournalNet(ExplainedJournal(p))))];
    RowsOfPosted(b, AddJournal(p), sku);
    LinesPostTo(p.products, p, sku);
    ItemsPostTo(p.itemFees, sku);
    FeesPostTo("", p.containerFees, sku);
    PoolPostsTo(nonItem, sku);
    PoolPostsTo(rest, sku);
    PostsConcat(lines, items, sku);
    PostsConcat(lines + items, nonItem, sku);
    PostsConcat(lines + items + nonItem, container, sku);
    PostsConcat(ExplainedJournal(p), rest, sku);
  }

  /** A report opens a row for exactly the articles of its new records. */
  lemma ApplyOpensRows(b: Books, e: Event, sku: string)
    ensures var r := e.record;
      sku in Apply(b, e).books.rows <==> sku in b.rows || (r.Id() !in b.seen && r.sku == sku)
  {
    hide PostAll, MoveJournal, OwnJournal;
    var r := e.record;
    if r.Id() !in b.seen {
      if r.Id() in b.domestic {
        RowsOfPosted(Marked(b, r).(overlaps := b.overlaps + 1), MoveJournal(r.sku, b.domestic[r.Id()]), sku);
        MovePostsTo(r.sku, b.domestic[r.Id()], sku);
      } else {
        RowsOfPosted(Marked(b, r), OwnJournal(e), sku);
        OwnPostsTo(e, sku);
      }
    }
  }

  lemma MovePostsTo(at: string, sale: Sale, sku: string)
    ensures PostsTo(MoveJournal(at, sale), sku) <==> at == sku
  {
    assert MoveJournal(at, sale)[0] in MoveJournal(at, sale);
  }

  lemma OwnPostsTo(e: Event, sku: string)
    ensures PostsTo(OwnJournal(e), sku) <==> e.record.sku == sku
  {
    hide Month;
    assert OwnJournal(e)[0] in OwnJournal(e);
  }

  lemma {:induction false} BuyoutsOpenRows(b: Books, events: seq<Event>, sku: string)
    ensures var after := ApplyAll(b, events).books;
      sku in after.rows <==> sku in b.rows || TakenOf(NewTakings(b, after.seen), sku)
  {
    hide Apply, TakingOf;
    if events != [] {
      var before, e := ApplyAll(b, events[..|events| - 1]), events[|events| - 1];
      BuyoutsOpenRows(b, events[..|events| - 1], sku);
      BuyoutsTakeReceipts(b, events[..|events| - 1]);
      if before.Done? {
        ApplyOpensRows(before.books, e, sku);
        TakingsOfOneMore(b, before.books, e);
        if e.record.Id() !in before.books.seen {
          TakenOneMore(NewTakings(b, before.books.seen), e.record.Id(), TakingOf(before.books, e.record.Id(), e.record), sku);
        }
      }
    }
  }

  lemma TakenOneMore(taken: map<Key, Taking>, id: Key, t: Taking, sku: string)
    ensures TakenOf(taken[id := t], sku) <==> TakenOf(taken, sku) || id.1 == sku
  {
    if TakenOf(taken, sku) {
      var k :| k in taken && k.1 == sku;
      assert k in taken[id := t];
    }
    if id.1 == sku { assert id in taken[id := t]; }
  }

  lemma TakenUnion(a: map<Key, Taking>, more: map<Key, Taking>, sku: string)
    ensures TakenOf(a + more, sku) <==> TakenOf(a, sku) || TakenOf(more, sku)
  {
    if TakenOf(a, sku) {
      var k :| k in a && k.1 == sku;
      assert k in a + more;
    }
    if TakenOf(more, sku) {
      var k :| k in more && k.1 == sku;
      assert k in a + more;
    }
  }

  // ----- One more record -----

  lemma AddBooksTheCell(b: Books, p: Payload, sku: string, c: Column)
    ensures CellOf(Add(b, p), sku, c) == CellOf(b, sku, c) + PayloadCell(p, sku, c)
  {
    hide Add, Get, RowOf, FeeCell, PoolCell, LinesCell, At, IsExpense;
    if IsExpense(c) {
      AddChargesTheArticle(b, p, sku, c);
      AddChargesThePool(b, p, c);
    } else {
      AddBooksTheLines(b, p, sku, c);
    }
  }

  lemma RecordsNameNext(records: seq<Record>, i: nat, account: string, day: string, sku: string)
    requires i < |records|
    ensures RecordsName(records[..i + 1], account, day, sku) <==>
      RecordsName(records[..i], account, day, sku) ||
      (RecordOn(records[i], account, day) && NamesArticle(records[i].payload, sku))
  {
    hide RecordOn, NamesArticle;
    assert records[..i + 1][i] == records[i] && forall k :: 0 <= k < i ==> records[..i + 1][k] == records[..i][k];
    if RecordsName(records[..i], account, day, sku) {
      var k :| 0 <= k < i && RecordOn(records[..i][k], account, day) && NamesArticle(records[..i][k].payload, sku);
      assert records[..i + 1][k] == records[..i][k];
    }
  }

  /** The ledger of the record's own day takes it. */
  lemma RecordOnItsDay(b: Books, taken: map<Key, Taking>, records: seq<Record>, i: nat, account: string, day: string)
    requires i < |records| && LedgerIs(b, taken, records[..i], account, day) && RecordOn(records[i], account, day)
    ensures LedgerIs(Add(b, records[i].payload), taken, records[..i + 1], account, day)
  {
    hide Add, CellOf, PayloadCell, ColumnTotal, Shifted, RecordOn, OwnTaken, NamesArticle, RecordsName;
    var p, more := records[i].payload, records[..i + 1];
    assert more[..i] == records[..i] && more[i] == records[i];
    forall sku, c ensures CellOf(Add(b, p), sku, c) == RecordsCell(more, account, day, sku, c) + Shifted(taken, sku, c) {
      AddBooksTheCell(b, p, sku, c);
    }
    AddBooksBuyerMoney(b, p);
    forall sku | sku != UNALLOCATED
      ensures sku in Add(b, p).rows <==> RecordsName(more, account, day, sku) || TakenOf(taken, sku)
    {
      AddOpensRows(b, p, sku);
      RecordsNameNext(records, i, account, day, sku);
    }
  }

  lemma RecordOnAnotherDay(b: Books, taken: map<Key, Taking>, records: seq<Record>, i: nat, account: string, day: string)
    requires i < |records| && LedgerIs(b, taken, records[..i], account, day) && !RecordOn(records[i], account, day)
    ensures LedgerIs(b, taken, records[..i + 1], account, day)
  {
    hide CellOf, PayloadCell, ColumnTotal, Shifted, RecordOn, OwnTaken, NamesArticle, RecordsName;
    var more := records[..i + 1];
    assert more[..i] == records[..i] && more[i] == records[i];
    forall sku, c ensures CellOf(b, sku, c) == RecordsCell(more, account, day, sku, c) + Shifted(taken, sku, c) {
      assert CellOf(b, sku, c) == RecordsCell(records[..i], account, day, sku, c) + Shifted(taken, sku, c);
    }
    forall sku | sku != UNALLOCATED
      ensures sku in b.rows <==> RecordsName(more, account, day, sku) || TakenOf(taken, sku)
    {
      RecordsNameNext(records, i, account, day, sku);
    }
  }

  /** One more record, booked on the ledger of its account and day. */
  lemma RecordKeepsLedgers(states: map<Key, Books>, seen: map<string, map<Key, Buyout>>, records: seq<Record>,
                           reports: seq<Report>, i: nat, day: string)
    requires i < |records| && LedgersAre(states, seen, records[..i], reports)
    requires RecordOn(records[i], records[i].account, day)
    ensures var r := records[i];
      LedgersAre(states[(r.account, day) := Add(StateOf(states, (r.account, day)), r.payload)], seen, records[..i + 1], reports)
  {
    hide LedgerIs, Add, RecordOn;
    var r := records[i];
    var after := states[(r.account, day) := Add(StateOf(states, (r.account, day)), r.payload)];
    forall a, d ensures
      LedgerIs(StateOf(after, (a, d)), TakenOn(SeenOf(seen, a), reports, a, d), records[..i + 1], a, d)
    {
      var taken := TakenOn(SeenOf(seen, a), reports, a, d);
      assert LedgerIs(StateOf(states, (a, d)), taken, records[..i], a, d);
      if (a, d) == (r.account, day) {
        RecordOnItsDay(StateOf(states, (a, d)), taken, records, i, a, d);
      } else {
        OneDay(r, a, d, day);
        RecordOnAnotherDay(StateOf(states, (a, d)), taken, records, i, a, d);
      }
    }
  }

  lemma OneDay(r: Record, account: string, day: string, own: string)
    requires RecordOn(r, r.account, own) && (account, day) != (r.account, own)
    ensures !RecordOn(r, account, day)
  {
    if RecordOn(r, account, day) { OneDayPerDate(r.payload.date.value, day, own); }
  }

  lemma RecordKeepsDays(states: map<Key, Books>, records: seq<Record>, i: nat, day: string, b: Books)
    requires i < |records| && DaysAre(states, records[..i], [])
    requires RecordOn(records[i], records[i].account, day)
    ensures DaysAre(states[(records[i].account, day) := b], records[..i + 1], [])
  {
    hide RecordOn;
    var r, more := records[i], records[..i + 1];
    assert more[i] == r && forall k :: 0 <= k < i ==> more[k] == records[..i][k];
    forall a, d ensures (a, d) in states[(r.account, day) := b] <==> HasDay(more, [], a, d) {
      assert (a, d) in states <==> HasDay(records[..i], [], a, d);
      if RecordOn(r, a, d) { if (a, d) != (r.account, day) { OneDay(r, a, d, day); } }
      if HasDay(records[..i], [], a, d) {
        var k :| 0 <= k < i && RecordOn(records[..i][k], a, d);
        assert RecordOn(more[k], a, d);
      }
      if (a, d) == (r.account, day) { assert RecordOn(more[i], a, d); }
    }
  }

  lemma NoLedgers(account: string, day: string)
    ensures LedgerIs(EMPTY, map[], [], account, day)
  {
    forall sku, c ensures CellOf(EMPTY, sku, c) == RecordsCell([], account, day, sku, c) + Shifted(map[], sku, c) {
      SumOfNothing(ShiftMap(map[], sku, c));
    }
    EmptyTotal();
    NoTakings();
  }

  lemma NothingYet(seen: map<string, map<Key, Buyout>>)
    requires seen == map[]
    ensures LedgersAre(map[], seen, [], []) && DaysAre(map[], [], [])
  {
    hide LedgerIs;
    forall account, day ensures
      LedgerIs(StateOf(map[], (account, day)), TakenOn(SeenOf(seen, account), [], account, day), [], account, day)
    {
      NoLedgers(account, day);
      assert TakenOn(SeenOf(seen, account), [], account, day) == map[];
    }
  }

  // ----- One more report -----

  lemma FirstDayNext(reports: seq<Report>, i: nat, account: string, id: Key)
    requires i < |reports|
    ensures FirstDay(reports[..i + 1], account, id) ==
      if FirstDay(reports[..i], account, id).Some? then FirstDay(reports[..i], account, id)
      else if reports[i].account == account && Names(reports[i].lines, id) then Some(reports[i].day) else None
  {
    hide Names;
    assert reports[..i + 1][..i] == reports[..i];
  }

  lemma {:induction false} FirstDayIff(reports: seq<Report>, account: string, id: Key)
    ensures FirstDay(reports, account, id).Some? <==>
      exists k :: 0 <= k < |reports| && reports[k].account == account && Names(reports[k].lines, id)
  {
    hide Names;
    if reports != [] {
      var n := |reports| - 1;
      FirstDayIff(reports[..n], account, id);
      assert forall k :: 0 <= k < n ==> reports[..n][k] == reports[k];
    }
  }

  /** The records that a report brings are new to the account, foreign, and named by the report. */
  ghost predicate Brings(b: Books, after: Books, r: Report, reports: seq<Report>) {
    && (forall id :: id in b.seen ==>
          id in after.seen && after.seen[id] == b.seen[id] && FirstDay(reports, r.account, id).Some?)
    && (forall id :: id in after.seen && id !in b.seen ==>
          id !in b.domestic && Names(r.lines, id) && FirstDay(reports, r.account, id).None?)
  }

  lemma TakenOnItsDay(b: Books, after: Books, reports: seq<Report>, i: nat)
    requires i < |reports| && Brings(b, after, reports[i], reports[..i])
    ensures var r := reports[i]; var before := TakenOn(b.seen, reports[..i], r.account, r.day);
      before.Keys !! NewTakings(b, after.seen).Keys &&
      TakenOn(after.seen, reports[..i + 1], r.account, r.day) == before + NewTakings(b, after.seen)
  {
    hide FirstDay, Names;
    var r, next := reports[i], reports[..i + 1];
    forall id ensures FirstDay(next, r.account, id) ==
      if FirstDay(reports[..i], r.account, id).Some? then FirstDay(reports[..i], r.account, id)
      else if Names(r.lines, id) then Some(r.day) else None
    {
      FirstDayNext(reports, i, r.account, id);
    }
  }

  lemma TakenOnAnotherDay(b: Books, after: Books, reports: seq<Report>, i: nat, day: string)
    requires i < |reports| && Brings(b, after, reports[i], reports[..i]) && day != reports[i].day
    ensures var r := reports[i];
      TakenOn(after.seen, reports[..i + 1], r.account, day) == TakenOn(b.seen, reports[..i], r.account, day)
  {
    hide FirstDay, Names;
    var r, next := reports[i], reports[..i + 1];
    forall id ensures FirstDay(next, r.account, id) ==
      if FirstDay(reports[..i], r.account, id).Some? then FirstDay(reports[..i], r.account, id)
      else if Names(r.lines, id) then Some(r.day) else None
    {
      FirstDayNext(reports, i, r.account, id);
    }
  }

  lemma TakenElsewhere(seen: map<Key, Buyout>, reports: seq<Report>, i: nat, account: string, day: string)
    requires i < |reports| && reports[i].account != account
    ensures TakenOn(seen, reports[..i + 1], account, day) == TakenOn(seen, reports[..i], account, day)
  {
    hide FirstDay, Names;
    forall id ensures FirstDay(reports[..i + 1], account, id) == FirstDay(reports[..i], account, id) {
      FirstDayNext(reports, i, account, id);
    }
  }

  lemma BuyoutsShiftTheCell(b: Books, events: seq<Event>, sku: string, c: Column)
    ensures var after := ApplyAll(b, events).books;
      CellOf(after, sku, c) == CellOf(b, sku, c) + Shifted(NewTakings(b, after.seen), sku, c)
  {
    hide ApplyAll, Get, RowOf, At, Shifted, IsExpense;
    BuyoutsShiftColumns(b, events, sku, c);
    BuyoutsKeepTheRest(b, events);
  }

  /** A ledger takes the records that a report brings. */
  lemma ReportOnItsDay(b: Books, events: seq<Event>, taken: map<Key, Taking>, records: seq<Record>, account: string, day: string)
    requires LedgerIs(b, taken, records, account, day)
    requires taken.Keys !! NewTakings(b, ApplyAll(b, events).books.seen).Keys
    ensures var after := ApplyAll(b, events).books;
      LedgerIs(after, taken + NewTakings(b, after.seen), records, account, day)
  {
    hide ApplyAll, CellOf, ColumnTotal, Shifted, OwnTaken, RecordsName, TakenOf, NewTakings;
    var after := ApplyAll(b, events).books;
    var more := NewTakings(b, after.seen);
    forall sku, c ensures CellOf(after, sku, c) == RecordsCell(records, account, day, sku, c) + Shifted(taken + more, sku, c) {
      BuyoutsShiftTheCell(b, events, sku, c);
      ShiftedUnion(taken, more, sku, c);
    }
    BuyerMoneyFollowsReceipts(b, events);
    BuyoutsTakeReceipts(b, events);
    OwnTakenUnion(taken, more);
    forall sku | sku != UNALLOCATED
      ensures sku in after.rows <==> RecordsName(records, account, day, sku) || TakenOf(taken + more, sku)
    {
      BuyoutsOpenRows(b, events, sku);
      TakenUnion(taken, more, sku);
    }
  }

  lemma LedgerIgnoresSales(b: Books, c: Books, taken: map<Key, Taking>, records: seq<Record>, account: string, day: string)
    requires LedgerIs(b, taken, records, account, day) && c == b.(domestic := c.domestic, seen := c.seen)
    ensures LedgerIs(c, taken, records, account, day)
  {
    hide Shifted, RecordsCell, RecordsName, TakenOf, Get, RowOf, At, IsExpense;
    forall sku, col ensures CellOf(c, sku, col) == CellOf(b, sku, col) {}
  }

  /** A prepared ledger has seen the account's foreign sales of earlier reports, and knows its own. */
  lemma PreparedKnows(states: map<Key, Books>, seen: map<string, map<Key, Buyout>>, records: seq<Record>,
                      reports: seq<Report>, account: string, day: string, b: Books, id: Key)
    requires Accounted(states, seen, records, reports) && Prepared(states, seen, account, day, b)
    ensures id in b.seen <==> id !in b.domestic && FirstDay(reports, account, id).Some?
  {
    hide PaidOn, PaidAtHome, Receipts, SoldAtHome, KnowsSale, Names, Sound, FirstDay;
    FirstDayIff(reports, account, id);
    assert SoldAtHome(records, account, id) <==> KnowsSale(states, account, id);
    assert id in b.seen <==> BoughtAbroad(records, reports, account, id);
  }

  lemma NewIsNamed(b: Books, day: string, lines: seq<ReportLine>, after: Books)
    requires BooksReport(b, day, lines, Done(after))
    ensures forall id :: id in b.seen ==> id in after.seen && after.seen[id] == b.seen[id]
    ensures forall id :: id in after.seen && id !in b.seen ==> Names(lines, id)
  {
    hide Names, RendersAll, ApplyAll;
    var records :| RendersAll(lines, records) && ApplyAll(b, EventsOf(day, records)) == Done(after);
    BuyoutsTakeReceipts(b, EventsOf(day, records));
    forall id | id in after.seen && id !in b.seen ensures Names(lines, id) { SeenIsNamed(b, day, lines, records, id); }
  }

  lemma ReportBrings(states: map<Key, Books>, seen: map<string, map<Key, Buyout>>, records: seq<Record>,
                     reports: seq<Report>, i: nat, b: Books, after: Books)
    requires i < |reports| && Accounted(states, seen, records, reports[..i])
    requires var r := reports[i];
      Prepared(states, seen, r.account, r.day, b) &&
      BooksReport(b, r.day, Foreign(r.lines, b.domestic.Keys), Done(after))
    ensures Brings(b, after, reports[i], reports[..i])
  {
    hide Accounted, Prepared, BooksReport, Names, FirstDay, Foreign;
    var r := reports[i];
    NewIsNamed(b, r.day, Foreign(r.lines, b.domestic.Keys), after);
    forall id ensures id in b.seen <==> id !in b.domestic && FirstDay(reports[..i], r.account, id).Some? {
      PreparedKnows(states, seen, records, reports[..i], r.account, r.day, b, id);
    }
  }

  lemma SeenIsNamed(b: Books, day: string, lines: seq<ReportLine>, records: seq<Buyout>, id: Key)
    requires RendersAll(lines, records) && ApplyAll(b, EventsOf(day, records)).Done?
    requires id in ApplyAll(b, EventsOf(day, records)).books.seen && id !in b.seen
    ensures Names(lines, id)
  {
    var events := EventsOf(day, records);
    SeenByRun(b, events, id);
    var j :| 0 <= j < |events| && events[j].record.Id() == id;
    assert Renders(lines[j], records[j]);
    assert lines[j].Id() == id;
  }

  /** One more report, booked on the ledger of its account and day. */
  lemma ReportKeepsLedgers(states: map<Key, Books>, seen: map<string, map<Key, Buyout>>, records: seq<Record>,
                           reports: seq<Report>, i: nat, b: Books, after: Books)
    requires i < |reports| && Accounted(states, seen, records, reports[..i]) && LedgersAre(states, seen, records, reports[..i])
    requires var r := reports[i];
      Prepared(states, seen, r.account, r.day, b) &&
      BooksReport(b, r.day, Foreign(r.lines, b.domestic.Keys), Done(after))
    ensures var r := reports[i];
      LedgersAre(states[(r.account, r.day) := after], seen[r.account := after.seen], records, reports[..i + 1])
  {
    hide LedgerIs, Accounted, BooksReport, Foreign, Brings, TakenOn;
    var r := reports[i];
    var key, seenNext, next := (r.account, r.day), seen[r.account := after.seen], reports[..i + 1];
    ReportBrings(states, seen, records, reports, i, b, after);
    PreparedFrom(states, seen, r.account, r.day, b);
    var events := ReportEvents(b, r.day, Foreign(r.lines, b.domestic.Keys), after);
    forall a, d ensures
      LedgerIs(StateOf(states[key := after], (a, d)), TakenOn(SeenOf(seenNext, a), next, a, d), records, a, d)
    {
      var was := StateOf(states, (a, d));
      assert LedgerIs(was, TakenOn(SeenOf(seen, a), reports[..i], a, d), records, a, d);
      if a != r.account {
        TakenElsewhere(SeenOf(seen, a), reports, i, a, d);
      } else if d != r.day {
        TakenOnAnotherDay(b, after, reports, i, d);
      } else {
        TakenOnItsDay(b, after, reports, i);
        var taken := TakenOn(b.seen, reports[..i], a, d);
        LedgerIgnoresSales(was, b, taken, records, a, d);
        ReportOnItsDay(b, events, taken, records, a, d);
      }
    }
  }

  lemma PreparedFrom(states: map<Key, Books>, seen: map<string, map<Key, Buyout>>, account: string, day: string, b: Books)
    requires Prepared(states, seen, account, day, b)
    ensures b == StateOf(states, (account, day)).(domestic := b.domestic, seen := b.seen) && b.seen == SeenOf(seen, account)
  {
  }

  lemma ReportEvents(b: Books, day: string, lines: seq<ReportLine>, after: Books) returns (events: seq<Event>)
    requires BooksReport(b, day, lines, Done(after))
    ensures ApplyAll(b, events).books == after
  {
    var records :| RendersAll(lines, records) && ApplyAll(b, EventsOf(day, records)) == Done(after);
    events := EventsOf(day, records);
  }

  lemma ReportKeepsDays(states: map<Key, Books>, records: seq<Record>, reports: seq<Report>, i: nat, b: Books)
    requires i < |reports| && DaysAre(states, records, reports[..i])
    ensures DaysAre(states[(reports[i].account, reports[i].day) := b], records, reports[..i + 1])
  {
    hide RecordOn;
    var r, next := reports[i], reports[..i + 1];
    assert next[i] == r && forall k :: 0 <= k < i ==> next[k] == reports[..i][k];
    forall a, d ensures (a, d) in states[(r.account, r.day) := b] <==> HasDay(records, next, a, d) {
      assert (a, d) in states <==> HasDay(records, reports[..i], a, d);
      if exists k :: 0 <= k < |reports[..i]| && reports[..i][k].account == a && reports[..i][k].day == d {
        var k :| 0 <= k < |reports[..i]| && reports[..i][k].account == a && reports[..i][k].day == d;
        assert next[k].account == a && next[k].day == d;
      }
    }
  }

  // ----- Closing the days -----

  lemma AllocateKeepsTheCell(b: Books, sku: string, c: Column)
    requires PoolIsExpenses(b)
    ensures CellOf(Allocate(b), sku, c) == CellOf(b, sku, c)
  {
    hide Get, RowOf, At, Allocate, IsExpense;
    if IsExpense(c) { AllocateKeepsCharges(b, sku, c); } else { AllocateKeepsCells(b, sku, c); }
  }

  lemma AllocateKeepsArticles(b: Books, sku: string)
    requires sku != UNALLOCATED
    ensures sku in Allocate(b).rows <==> sku in b.rows
  {
  }

  lemma AllocateKeepsLedger(b: Books, taken: map<Key, Taking>, records: seq<Record>, account: string, day: string)
    requires PoolIsExpenses(b) && LedgerIs(b, taken, records, account, day)
    ensures LedgerIs(Allocate(b), taken, records, account, day)
  {
    hide Shifted, RecordsCell, RecordsName, TakenOf, CellOf, Allocate, ColumnTotal, OwnTaken, PoolIsExpenses;
    AllocateKeepsBuyers(b);
    forall sku, c ensures CellOf(Allocate(b), sku, c) == CellOf(b, sku, c) { AllocateKeepsTheCell(b, sku, c); }
    forall sku | sku != UNALLOCATED ensures sku in Allocate(b).rows <==> sku in b.rows { AllocateKeepsArticles(b, sku); }
  }

  lemma AllocateKeepsLedgers(states: map<Key, Books>, key: Key, seen: map<string, map<Key, Buyout>>, records: seq<Record>,
                             reports: seq<Report>)
    requires key in states && AllSound(states) && LedgersAre(states, seen, records, reports)
    ensures LedgersAre(states[key := Allocate(states[key])], seen, records, reports)
  {
    hide LedgerIs, Allocate, Balanced, Split, MonthsAddUp;
    var after := states[key := Allocate(states[key])];
    forall a, d ensures
      LedgerIs(StateOf(after, (a, d)), TakenOn(SeenOf(seen, a), reports, a, d), records, a, d)
    {
      var taken := TakenOn(SeenOf(seen, a), reports, a, d);
      assert LedgerIs(StateOf(states, (a, d)), taken, records, a, d);
      if (a, d) == key { AllocateKeepsLedger(states[key], taken, records, a, d); }
    }
  }
}
