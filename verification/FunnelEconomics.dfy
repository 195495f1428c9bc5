/** Many day ledgers of many accounts, and the buyout reports spread over them. */
module FunnelEconomics {
  import opened Wrappers
  import opened Sums
  import opened Ledger
  import opened Accruals
  import opened Buyouts
  import opened BuyoutLedger
  import opened Settlement
  import opened OzonRuns
  import opened AccrualEconomicsClass

  datatype Record = Record(account: string, payload: Payload)
  datatype Report = Report(account: string, day: string, lines: seq<ReportLine>)

  predicate EveryRecordDated(records: seq<Record>) {
    forall i :: 0 <= i < |records| ==> records[i].payload.date.Some?
  }

  /** The account sells the posting/SKU at home, on whatever day. */
  predicate SoldAtHome(records: seq<Record>, account: string, id: Key) {
    exists i :: 0 <= i < |records| && records[i].account == account && Sells(records[i].payload, id)
  }

  /** A line of one of the account's reports, whose sale is on no day a domestic one. */
  predicate BoughtAbroad(records: seq<Record>, reports: seq<Report>, account: string, id: Key) {
    !SoldAtHome(records, account, id) &&
    exists i :: 0 <= i < |reports| && reports[i].account == account && Names(reports[i].lines, id)
  }

  /** What buyers of the account paid by its accruals. */
  function PaidAtHome(records: seq<Record>, account: string): real {
    if records == [] then 0.0
    else
      var last := records[|records| - 1];
      PaidAtHome(records[..|records| - 1], account) +
      if last.account == account then BuyerMoneyOf(last.payload.products) else 0.0
  }

  /** Buyer money of every day of an account. */
  ghost function BuyersOf(states: map<Key, Books>, account: string): map<Key, real> {
    map k | k in states && k.0 == account :: ColumnTotal(states[k].rows, BuyerRevenue)
  }

  ghost function PaidOn(states: map<Key, Books>, account: string): real {
    SumMap(BuyersOf(states, account))
  }

  ghost function Receipts(seen: map<Key, Buyout>): real {
    SumMap(map id | id in seen :: seen[id].receipt)
  }

  function SeenOf(seen: map<string, map<Key, Buyout>>, account: string): map<Key, Buyout> {
    if account in seen then seen[account] else map[]
  }

  function StateOf(states: map<Key, Books>, key: Key): Books {
    if key in states then states[key] else EMPTY
  }

  lemma EmptyBuyers()
    ensures ColumnTotal(EMPTY.rows, BuyerRevenue) == 0.0
  {
    assert (map sku | sku in EMPTY.rows :: 0.0) == map[];
  }

  lemma PaidOnUpdate(states: map<Key, Books>, key: Key, b: Books, account: string)
    ensures PaidOn(states[key := b], account) == PaidOn(states, account) +
      if key.0 == account
      then ColumnTotal(b.rows, BuyerRevenue) - ColumnTotal(StateOf(states, key).rows, BuyerRevenue)
      else 0.0
  {
    hide ColumnTotal;
    var m, n := BuyersOf(states, account), BuyersOf(states[key := b], account);
    if key.0 == account {
      assert n == m[key := ColumnTotal(b.rows, BuyerRevenue)];
      SumMapUpdate(m, key, ColumnTotal(b.rows, BuyerRevenue));
      if key !in states { EmptyBuyers(); }
    } else {
      assert n == m;
    }
  }

  /** The sales of the account's records are exactly the domestic sales of its ledgers. */
  ghost predicate KnowsSales(states: map<Key, Books>, records: seq<Record>) {
    forall account, id :: SoldAtHome(records, account, id) <==> KnowsSale(states, account, id)
  }

  predicate KnowsSale(states: map<Key, Books>, account: string, id: Key) {
    exists k :: k in states && k.0 == account && id in states[k].domestic
  }

  ghost predicate AllSound(states: map<Key, Books>) {
    forall k :: k in states ==> Sound(states[k])
  }

  ghost predicate PaysAtHome(states: map<Key, Books>, records: seq<Record>) {
    forall account {:trigger PaidOn(states, account)} :: PaidOn(states, account) == PaidAtHome(records, account)
  }

  /** One more record, booked on its own account and day. */
  lemma RecordBooked(states: map<Key, Books>, records: seq<Record>, i: nat, day: string)
    requires i < |records| && AllSound(states) && PaysAtHome(states, records[..i]) && KnowsSales(states, records[..i])
    ensures var r := records[i];
      var after := states[(r.account, day) := Add(StateOf(states, (r.account, day)), r.payload)];
      AllSound(after) && PaysAtHome(after, records[..i + 1]) && KnowsSales(after, records[..i + 1])
  {
    var r, key := records[i], (records[i].account, day);
    var before := StateOf(states, key);
    var next := Add(before, r.payload);
    var after := states[key := next];
    EmptyBooksBalance();
    AddKeepsBooksSound(before, r.payload);
    assert records[..i + 1][..i] == records[..i] && records[..i + 1][i] == r;
    forall account ensures PaidOn(after, account) == PaidAtHome(records[..i + 1], account) {
      PaidOnUpdate(states, key, next, account);
      AddBooksBuyerMoney(before, r.payload);
    }
    SalesStayKnown(states, records, i, day);
  }

  lemma SoldAtHomeNext(records: seq<Record>, i: nat, account: string, id: Key)
    requires i < |records|
    ensures SoldAtHome(records[..i + 1], account, id) <==>
      SoldAtHome(records[..i], account, id) || (records[i].account == account && Sells(records[i].payload, id))
  {
    var before, after := records[..i], records[..i + 1];
    assert after[i] == records[i] && forall k :: 0 <= k < i ==> after[k] == before[k];
    if SoldAtHome(before, account, id) {
      var k :| 0 <= k < |before| && before[k].account == account && Sells(before[k].payload, id);
      assert after[k] == before[k];
    }
  }

  lemma SalesStayKnown(states: map<Key, Books>, records: seq<Record>, i: nat, day: string)
    requires i < |records| && KnowsSales(states, records[..i])
    ensures var r := records[i];
      KnowsSales(states[(r.account, day) := Add(StateOf(states, (r.account, day)), r.payload)], records[..i + 1])
  {
    hide Add, Sells, SoldAtHome;
    var r, key := records[i], (records[i].account, day);
    var before := StateOf(states, key);
    var after := states[key := Add(before, r.payload)];
    forall id ensures id in Add(before, r.payload).domestic <==> id in before.domestic || Sells(r.payload, id) {
      AddRemembersSales(before, r.payload, id);
    }
    forall account, id ensures SoldAtHome(records[..i + 1], account, id) <==> KnowsSale(after, account, id) {
      SoldAtHomeNext(records, i, account, id);
      KnowsSaleUpdate(states, key, Add(before, r.payload), account, id);
    }
  }

  lemma KnowsSaleUpdate(states: map<Key, Books>, key: Key, b: Books, account: string, id: Key)
    requires StateOf(states, key).domestic.Keys <= b.domestic.Keys
    ensures KnowsSale(states[key := b], account, id) <==>
      KnowsSale(states, account, id) || (key.0 == account && id in b.domestic)
  {
    var after := states[key := b];
    if KnowsSale(states, account, id) {
      var k :| k in states && k.0 == account && id in states[k].domestic;
      assert k in after && id in after[k].domestic;
    }
    if key.0 == account && id in b.domestic {
      assert key in after && id in after[key].domestic;
    }
  }

  // ----- Buyout reports -----

  /** The lines whose sale the accruals do not hold. */
  function Foreign(lines: seq<ReportLine>, domestic: set<Key>): (r: seq<ReportLine>)
    ensures forall id :: Names(r, id) <==> id !in domestic && Names(lines, id)
  {
    if lines == [] then []
    else
      var rest := Foreign(lines[1..], domestic);
      var r := if lines[0].Id() in domestic then rest else [lines[0]] + rest;
      ForeignIds(lines, domestic, rest, r);
      r
  }

  predicate Names(lines: seq<ReportLine>, id: Key) {
    exists j :: 0 <= j < |lines| && lines[j].Id() == id
  }

  lemma NamesCons(line: ReportLine, lines: seq<ReportLine>, id: Key)
    ensures Names([line] + lines, id) <==> line.Id() == id || Names(lines, id)
  {
    if Names(lines, id) {
      var j :| 0 <= j < |lines| && lines[j].Id() == id;
      assert ([line] + lines)[1 + j] == lines[j];
    }
    if line.Id() == id { assert ([line] + lines)[0] == line; }
  }

  lemma ForeignIds(lines: seq<ReportLine>, domestic: set<Key>, rest: seq<ReportLine>, r: seq<ReportLine>)
    requires lines != [] && r == if lines[0].Id() in domestic then rest else [lines[0]] + rest
    requires forall id :: Names(rest, id) <==> id !in domestic && Names(lines[1..], id)
    ensures forall id :: Names(r, id) <==> id !in domestic && Names(lines, id)
  {
    assert lines == [lines[0]] + lines[1..];
    forall id ensures Names(r, id) <==> id !in domestic && Names(lines, id) {
      NamesCons(lines[0], lines[1..], id);
      NamesCons(lines[0], rest, id);
    }
  }

  lemma {:induction false} SeenByRun(b: Books, events: seq<Event>, id: Key)
    requires ApplyAll(b, events).Done?
    ensures id in ApplyAll(b, events).books.seen <==>
      id in b.seen || exists i :: 0 <= i < |events| && events[i].record.Id() == id
  {
    hide Apply;
    if events != [] {
      var before := events[..|events| - 1];
      SeenByRun(b, before, id);
      ApplyCounts(ApplyAll(b, before).books, events[|events| - 1]);
      assert forall i :: 0 <= i < |before| ==> before[i] == events[i];
    }
  }

  lemma DisjointReceipts(seen: map<Key, Buyout>, domestic: set<Key>)
    requires seen.Keys !! domestic
    ensures OwnReceipts(seen, domestic) == Receipts(seen)
  {
    assert (map id | id in seen && id !in domestic :: seen[id].receipt) == (map id | id in seen :: seen[id].receipt);
  }

  /** What one report does to the ledger it is booked on. */
  lemma ReportBooked(b: Books, day: string, lines: seq<ReportLine>, after: Books)
    requires Sound(b) && b.seen.Keys !! b.domestic.Keys
    requires BooksReport(b, day, lines, Done(after))
    requires forall id :: Names(lines, id) ==> id !in b.domestic
    ensures Sound(after) && after.domestic == b.domestic
    ensures forall id :: id in after.seen <==> id in b.seen || Names(lines, id)
    ensures ColumnTotal(after.rows, BuyerRevenue) - ColumnTotal(b.rows, BuyerRevenue) ==
      Receipts(after.seen) - Receipts(b.seen)
  {
    var records :| RendersAll(lines, records) && ApplyAll(b, EventsOf(day, records)) == Done(after);
    var events := EventsOf(day, records);
    forall i | 0 <= i < |events| ensures Honest(events[i].record) && events[i].record.Id() == lines[i].Id() {
      assert Renders(lines[i], records[i]);
    }
    RunKeepsBooksSound(b, events);
    EveryRecordCountsOnce(b, events);
    BuyerMoneyFollowsReceipts(b, events);
    forall id ensures id in after.seen <==> id in b.seen || Names(lines, id) {
      SeenByRun(b, events, id);
      if Names(lines, id) {
        var j :| 0 <= j < |lines| && lines[j].Id() == id;
        assert events[j].record.Id() == id;
      }
    }
    DisjointReceipts(b.seen, b.domestic.Keys);
    DisjointReceipts(after.seen, b.domestic.Keys);
  }

  /** The accounting that holds after every report. */
  ghost predicate Accounted(states: map<Key, Books>, seen: map<string, map<Key, Buyout>>,
                            records: seq<Record>, reports: seq<Report>) {
    && AllSound(states)
    && KnowsSales(states, records)
    && (forall account, id :: id in SeenOf(seen, account) <==> BoughtAbroad(records, reports, account, id))
    && (forall account :: PaidOn(states, account) == PaidAtHome(records, account) + Receipts(SeenOf(seen, account)))
  }

  lemma BoughtAbroadNext(records: seq<Record>, reports: seq<Report>, i: nat, account: string, id: Key)
    requires i < |reports|
    ensures BoughtAbroad(records, reports[..i + 1], account, id) <==>
      BoughtAbroad(records, reports[..i], account, id) ||
      (!SoldAtHome(records, account, id) && reports[i].account == account && Names(reports[i].lines, id))
  {
    hide SoldAtHome, Names;
    var before, after := reports[..i], reports[..i + 1];
    assert after[i] == reports[i] && forall k :: 0 <= k < i ==> after[k] == before[k];
    if BoughtAbroad(records, before, account, id) {
      var k :| 0 <= k < |before| && before[k].account == account && Names(before[k].lines, id);
      assert after[k] == before[k];
    }
  }

  /** The state a report is booked on: the day's own ledger, knowing every domestic sale and every
      record seen so far of the account. */
  ghost predicate Prepared(states: map<Key, Books>, seen: map<string, map<Key, Buyout>>, account: string,
                           day: string, b: Books) {
    && b == StateOf(states, (account, day)).(domestic := b.domestic, seen := SeenOf(seen, account))
    && (forall id :: id in b.domestic <==> KnowsSale(states, account, id))
  }

  lemma NextReport(states: map<Key, Books>, seen: map<string, map<Key, Buyout>>,
                   records: seq<Record>, reports: seq<Report>, i: nat, b: Books, after: Books)
    requires i < |reports| && Accounted(states, seen, records, reports[..i])
    requires var r := reports[i];
      Prepared(states, seen, r.account, r.day, b) &&
      BooksReport(b, r.day, Foreign(r.lines, b.domestic.Keys), Done(after))
    ensures var r := reports[i];
      Accounted(states[(r.account, r.day) := after], seen[r.account := after.seen], records, reports[..i + 1])
  {
    hide PaidOn, PaidAtHome, SoldAtHome, KnowsSale, Receipts, BooksReport, Foreign, ColumnTotal, Sound;
    var r, key := reports[i], (reports[i].account, reports[i].day);
    EmptyBooksBalance();
    SoundIgnoresSales(StateOf(states, key), b);
    forall id | id in b.seen ensures id !in b.domestic {
      assert BoughtAbroad(records, reports[..i], r.account, id);
    }
    ReportBooked(b, r.day, Foreign(r.lines, b.domestic.Keys), after);
    forall account ensures PaidOn(states[key := after], account) ==
      PaidAtHome(records, account) + Receipts(SeenOf(seen[r.account := after.seen], account))
    {
      PaidOnUpdate(states, key, after, account);
    }
    var next, seenNext := reports[..i + 1], seen[r.account := after.seen];
    forall account, id ensures id in SeenOf(seenNext, account) <==> BoughtAbroad(records, next, account, id) {
      BoughtAbroadNext(records, reports, i, account, id);
    }
    SalesStillKnown(states, records, key, after);
  }

  lemma SoundIgnoresSales(b: Books, c: Books)
    requires Sound(b) && c == b.(domestic := c.domestic, seen := c.seen)
    ensures Sound(c)
  {
  }

  lemma SalesStillKnown(states: map<Key, Books>, records: seq<Record>, key: Key, after: Books)
    requires KnowsSales(states, records)
    requires forall id :: id in after.domestic <==> KnowsSale(states, key.0, id)
    ensures KnowsSales(states[key := after], records)
  {
    hide SoldAtHome;
    forall id | id in StateOf(states, key).domestic ensures id in after.domestic {
      assert key in states && KnowsSale(states, key.0, id);
    }
    forall account, id ensures SoldAtHome(records, account, id) <==> KnowsSale(states[key := after], account, id) {
      KnowsSaleUpdate(states, key, after, account, id);
    }
  }

  // ----- When a report is refused -----

  predicate DistinctRecords(events: seq<Event>) {
    forall i, j :: 0 <= i < j < |events| ==> events[i].record.Id() != events[j].record.Id()
  }

  predicate Agrees(seen: map<Key, Buyout>, r: Buyout) {
    r.Id() in seen ==> seen[r.Id()] == r
  }

  /** Records of one report conflict only with what was seen before the report. */
  lemma {:induction false} ConflictIff(b: Books, events: seq<Event>)
    requires DistinctRecords(events)
    ensures ApplyAll(b, events).Done? <==> forall i :: 0 <= i < |events| ==> Agrees(b.seen, events[i].record)
    ensures ApplyAll(b, events).Done? ==> forall id :: id in ApplyAll(b, events).books.seen ==>
      if id in b.seen then ApplyAll(b, events).books.seen[id] == b.seen[id]
      else exists i :: 0 <= i < |events| && events[i].record == ApplyAll(b, events).books.seen[id] && events[i].record.Id() == id
  {
    hide Apply;
    if events != [] {
      var before, e := events[..|events| - 1], events[|events| - 1];
      ConflictIff(b, before);
      assert forall i :: 0 <= i < |before| ==> before[i] == events[i];
      if ApplyAll(b, before).Done? {
        var mid := ApplyAll(b, before).books;
        ApplyCounts(mid, e);
        ApplyDone(mid, e);
        assert Agrees(mid.seen, e.record) <==> Agrees(b.seen, e.record) by {
          SeenByRun(b, before, e.record.Id());
        }
      }
    }
  }

  lemma ApplyDone(b: Books, e: Event)
    ensures Apply(b, e).Done? <==> Agrees(b.seen, e.record)
  {
  }

  predicate RendersSame(l: ReportLine, m: ReportLine) {
    && Numeric(l) && Numeric(m) && l.sku == m.sku && l.posting == m.posting && l.offer == m.offer && l.name == m.name
    && l.quantity == m.quantity && l.amount == m.amount && l.price.x * l.quantity.x == m.price.x * m.quantity.x
  }

  lemma OneRecordPerLine(l: ReportLine, m: ReportLine, r: Buyout)
    requires Renders(l, r)
    ensures Renders(m, r) <==> RendersSame(l, m)
  {
  }

  lemma OneLinePerRecord(l: ReportLine, r: Buyout, s: Buyout)
    requires Renders(l, r)
    ensures Renders(l, s) <==> s == r
  {
  }

  predicate FitsSeen(seen: map<Key, Buyout>, l: ReportLine) {
    l.Id() in seen ==> Renders(l, seen[l.Id()])
  }

  /** An acceptable report is booked exactly when its lines fit what was seen before. */
  lemma ReportOutcome(b: Books, day: string, lines: seq<ReportLine>, outcome: Outcome)
    requires AcceptableReport(Some(lines)) && BooksReport(b, day, lines, outcome)
    ensures outcome.Done? <==> forall i :: 0 <= i < |lines| ==> FitsSeen(b.seen, lines[i])
    ensures outcome.Done? ==> forall i :: 0 <= i < |lines| ==>
      lines[i].Id() in outcome.books.seen && Renders(lines[i], outcome.books.seen[lines[i].Id()])
    ensures outcome.Done? ==> forall id :: id in b.seen ==>
      id in outcome.books.seen && outcome.books.seen[id] == b.seen[id]
    ensures outcome.Done? ==> forall id :: id in outcome.books.seen ==>
      (id in b.seen && outcome.books.seen[id] == b.seen[id]) || RenderedBy(lines, outcome.books.seen[id], id)
  {
    var records :| RendersAll(lines, records) && ApplyAll(b, EventsOf(day, records)) == outcome;
    var events := EventsOf(day, records);
    forall i | 0 <= i < |lines|
      ensures events[i].record.Id() == lines[i].Id() && Renders(lines[i], events[i].record)
      ensures Agrees(b.seen, events[i].record) <==> FitsSeen(b.seen, lines[i])
    {
      assert Renders(lines[i], records[i]);
      if lines[i].Id() in b.seen { OneLinePerRecord(lines[i], records[i], b.seen[lines[i].Id()]); }
    }
    forall i, j | 0 <= i < j < |events| ensures events[i].record.Id() != events[j].record.Id() {
      assert lines[i].Id() != lines[j].Id();
    }
    ConflictIff(b, events);
    if outcome.Done? {
      FinishedRunIsSeen(b, events);
      forall id | id in outcome.books.seen && id !in b.seen ensures RenderedBy(lines, outcome.books.seen[id], id) {
        var i :| 0 <= i < |events| && events[i].record == outcome.books.seen[id] && events[i].record.Id() == id;
        assert Renders(lines[i], outcome.books.seen[id]);
      }
    }
  }

  predicate RenderedBy(lines: seq<ReportLine>, r: Buyout, id: Key) {
    exists i :: 0 <= i < |lines| && lines[i].Id() == id && Renders(lines[i], r)
  }

  // ----- The reports as a whole -----

  /** The account's domestic sales, read from its records. */
  ghost function HomeSales(records: seq<Record>, account: string): (r: set<Key>)
    ensures forall id :: id in r <==> SoldAtHome(records, account, id)
  {
    if records == [] then {}
    else
      var n := |records| - 1;
      var before := HomeSales(records[..n], account);
      var last := records[n];
      var lines := set i | 0 <= i < |last.payload.products| && last.account == account &&
        LineSells(last.payload.products[i], last.payload.unit, UnitKey(last.payload, i)) :: UnitKey(last.payload, i);
      LastSales(records, account, before, lines);
      before + lines
  }

  function UnitKey(p: Payload, i: nat): Key
    requires i < |p.products|
  {
    (if p.unit.Some? then p.unit.value else "", p.products[i].sku)
  }

  lemma LastSales(records: seq<Record>, account: string, before: set<Key>, lines: set<Key>)
    requires records != []
    requires forall id :: id in before <==> SoldAtHome(records[..|records| - 1], account, id)
    requires var last := records[|records| - 1];
      lines == set i | 0 <= i < |last.payload.products| && last.account == account &&
        LineSells(last.payload.products[i], last.payload.unit, UnitKey(last.payload, i)) :: UnitKey(last.payload, i)
    ensures forall id :: id in before + lines <==> SoldAtHome(records, account, id)
  {
    var n := |records| - 1;
    var last := records[n];
    assert records[..n + 1] == records;
    forall id ensures id in before + lines <==> SoldAtHome(records, account, id) {
      SoldAtHomeNext(records, n, account, id);
      SellsByLine(last.payload, id);
      if last.account == account && Sells(last.payload, id) {
        var i :| 0 <= i < |last.payload.products| && LineSells(last.payload.products[i], last.payload.unit, id);
        assert UnitKey(last.payload, i) == id;
      }
    }
  }

  ghost function ForeignLines(records: seq<Record>, r: Report): seq<ReportLine> {
    Foreign(r.lines, HomeSales(records, r.account))
  }

  ghost predicate AllAcceptable(records: seq<Record>, reports: seq<Report>) {
    forall i :: 0 <= i < |reports| ==> AcceptableReport(Some(ForeignLines(records, reports[i])))
  }

  /** Lines of one account that name the same posting/SKU stand for the same record. */
  ghost predicate Consistent(records: seq<Record>, reports: seq<Report>) {
    forall i, j, l, m | 0 <= i < |reports| && 0 <= j < |reports| && reports[i].account == reports[j].account &&
      l in ForeignLines(records, reports[i]) && m in ForeignLines(records, reports[j]) && l.Id() == m.Id() ::
      RendersSame(l, m)
  }

  ghost predicate LinesAreSeen(seen: map<string, map<Key, Buyout>>, records: seq<Record>, reports: seq<Report>) {
    forall i, l :: 0 <= i < |reports| && l in ForeignLines(records, reports[i]) ==>
      l.Id() in SeenOf(seen, reports[i].account) && Renders(l, SeenOf(seen, reports[i].account)[l.Id()])
  }

  ghost predicate SeenIsFromLines(seen: map<string, map<Key, Buyout>>, records: seq<Record>, reports: seq<Report>) {
    forall account, id :: id in SeenOf(seen, account) ==> FromLine(records, reports, account, id, SeenOf(seen, account)[id])
  }

  ghost predicate FromLine(records: seq<Record>, reports: seq<Report>, account: string, id: Key, r: Buyout) {
    exists i, l :: 0 <= i < |reports| && reports[i].account == account && l in ForeignLines(records, reports[i]) &&
      l.Id() == id && Renders(l, r)
  }

  /** A report that cannot be booked is unacceptable or contradicts an earlier line. */
  lemma RefusedReport(records: seq<Record>, reports: seq<Report>, i: nat, seen: map<string, map<Key, Buyout>>, l: ReportLine)
    requires i < |reports| && SeenIsFromLines(seen, records, reports[..i])
    requires l in ForeignLines(records, reports[i]) && !FitsSeen(SeenOf(seen, reports[i].account), l)
    ensures !Consistent(records, reports)
  {
    hide ForeignLines, Renders;
    var account := reports[i].account;
    var r := SeenOf(seen, account)[l.Id()];
    assert FromLine(records, reports[..i], account, l.Id(), r);
    var j, m :| 0 <= j < i && reports[..i][j].account == account && m in ForeignLines(records, reports[..i][j]) &&
      m.Id() == l.Id() && Renders(m, r);
    assert reports[..i][j] == reports[j];
    OneRecordPerLine(m, l, r);
    assert !RendersSame(m, l);
  }

  lemma AllSeenIsConsistent(seen: map<string, map<Key, Buyout>>, records: seq<Record>, reports: seq<Report>)
    requires LinesAreSeen(seen, records, reports)
    ensures Consistent(records, reports)
  {
    hide ForeignLines, Renders, RendersSame;
    forall i, j, l, m | 0 <= i < |reports| && 0 <= j < |reports| && reports[i].account == reports[j].account &&
      l in ForeignLines(records, reports[i]) && m in ForeignLines(records, reports[j]) && l.Id() == m.Id()
      ensures RendersSame(l, m)
    {
      OneRecordPerLine(l, m, SeenOf(seen, reports[i].account)[l.Id()]);
    }
  }

  lemma NothingBooked(records: seq<Record>)
    ensures AllSound(map[]) && PaysAtHome(map[], records[..0]) && KnowsSales(map[], records[..0])
  {
    forall account ensures PaidOn(map[], account) == 0.0 {
      assert BuyersOf(map[], account) == map[];
    }
  }

  /** What holds once the first reports are booked. */
  ghost predicate Settled(states: map<Key, Books>, seen: map<string, map<Key, Buyout>>,
                          records: seq<Record>, reports: seq<Report>) {
    && Accounted(states, seen, records, reports)
    && LinesAreSeen(seen, records, reports)
    && SeenIsFromLines(seen, records, reports)
    && AllAcceptable(records, reports)
  }

  lemma PreparedKnowsHomeSales(states: map<Key, Books>, seen: map<string, map<Key, Buyout>>, records: seq<Record>,
                               account: string, day: string, b: Books)
    requires KnowsSales(states, records) && Prepared(states, seen, account, day, b)
    ensures b.domestic.Keys == HomeSales(records, account)
  {
    hide SoldAtHome, KnowsSale, HomeSales;
    forall id ensures id in b.domestic <==> id in HomeSales(records, account) {
      assert SoldAtHome(records, account, id) <==> KnowsSale(states, account, id);
    }
  }

  /** One more report is booked: the accounts stay right. */
  lemma NextAccounted(states: map<Key, Books>, seen: map<string, map<Key, Buyout>>,
                      records: seq<Record>, reports: seq<Report>, i: nat, b: Books, after: Books)
    requires i < |reports| && Settled(states, seen, records, reports[..i])
    requires var r := reports[i]; var lines := Foreign(r.lines, b.domestic.Keys);
      Prepared(states, seen, r.account, r.day, b) && AcceptableReport(Some(lines)) &&
      BooksReport(b, r.day, lines, Done(after))
    ensures var r := reports[i];
      Accounted(states[(r.account, r.day) := after], seen[r.account := after.seen], records, reports[..i + 1])
    ensures AllAcceptable(records, reports[..i + 1])
  {
    hide Accounted, Prepared, AcceptableReport, BooksReport, Foreign, LinesAreSeen, SeenIsFromLines;
    var r := reports[i];
    SettledKnowsSales(states, seen, records, reports[..i]);
    PreparedKnowsHomeSales(states, seen, records, r.account, r.day, b);
    NextReport(states, seen, records, reports, i, b, after);
    assert reports[..i + 1] == reports[..i] + [r];
  }

  /** One more report is booked: the remembered records are those of the lines. */
  lemma NextRemembered(states: map<Key, Books>, seen: map<string, map<Key, Buyout>>,
                       records: seq<Record>, reports: seq<Report>, i: nat, b: Books, after: Books)
    requires i < |reports| && Settled(states, seen, records, reports[..i])
    requires var r := reports[i]; var lines := Foreign(r.lines, b.domestic.Keys);
      Prepared(states, seen, r.account, r.day, b) && AcceptableReport(Some(lines)) &&
      BooksReport(b, r.day, lines, Done(after))
    ensures var r := reports[i];
      LinesAreSeen(seen[r.account := after.seen], records, reports[..i + 1]) &&
      SeenIsFromLines(seen[r.account := after.seen], records, reports[..i + 1])
  {
    hide Accounted, Prepared, AcceptableReport, BooksReport, Foreign, LinesAreSeen, SeenIsFromLines, AllAcceptable;
    var r := reports[i];
    SettledKnowsSales(states, seen, records, reports[..i]);
    PreparedKnowsHomeSales(states, seen, records, r.account, r.day, b);
    ReportOutcome(b, r.day, Foreign(r.lines, b.domestic.Keys), Done(after));
    PreparedSeen(states, seen, r.account, r.day, b);
    NextSeen(seen, records, reports, i, after.seen);
  }

  lemma NextSettled(states: map<Key, Books>, seen: map<string, map<Key, Buyout>>,
                    records: seq<Record>, reports: seq<Report>, i: nat, b: Books, after: Books)
    requires i < |reports| && Settled(states, seen, records, reports[..i])
    requires var r := reports[i]; var lines := Foreign(r.lines, b.domestic.Keys);
      Prepared(states, seen, r.account, r.day, b) && AcceptableReport(Some(lines)) &&
      BooksReport(b, r.day, lines, Done(after))
    ensures var r := reports[i];
      Settled(states[(r.account, r.day) := after], seen[r.account := after.seen], records, reports[..i + 1])
  {
    hide Accounted, Prepared, AcceptableReport, BooksReport, Foreign, LinesAreSeen, SeenIsFromLines, AllAcceptable;
    NextAccounted(states, seen, records, reports, i, b, after);
    NextRemembered(states, seen, records, reports, i, b, after);
  }

  lemma SettledKnowsSales(states: map<Key, Books>, seen: map<string, map<Key, Buyout>>,
                          records: seq<Record>, reports: seq<Report>)
    requires Accounted(states, seen, records, reports)
    ensures KnowsSales(states, records)
  {
  }

  lemma PreparedSeen(states: map<Key, Books>, seen: map<string, map<Key, Buyout>>, account: string, day: string, b: Books)
    requires Prepared(states, seen, account, day, b)
    ensures b.seen == SeenOf(seen, account)
  {
  }

  /** The remembered records grow by the lines of the report and by nothing else. */
  lemma NextSeen(seen: map<string, map<Key, Buyout>>, records: seq<Record>, reports: seq<Report>, i: nat,
                 after: map<Key, Buyout>)
    requires i < |reports|
    requires LinesAreSeen(seen, records, reports[..i]) && SeenIsFromLines(seen, records, reports[..i])
    requires var lines := ForeignLines(records, reports[i]); var before := SeenOf(seen, reports[i].account);
      && (forall k :: 0 <= k < |lines| ==> lines[k].Id() in after && Renders(lines[k], after[lines[k].Id()]))
      && (forall id :: id in before ==> id in after && after[id] == before[id])
      && (forall id :: id in after ==> (id in before && after[id] == before[id]) || RenderedBy(lines, after[id], id))
    ensures var next := seen[reports[i].account := after];
      LinesAreSeen(next, records, reports[..i + 1]) && SeenIsFromLines(next, records, reports[..i + 1])
  {
    hide ForeignLines, Renders;
    var account, reports' := reports[i].account, reports[..i + 1];
    var next := seen[account := after];
    forall k, l | 0 <= k < |reports'| && l in ForeignLines(records, reports'[k])
      ensures l.Id() in SeenOf(next, reports'[k].account) && Renders(l, SeenOf(next, reports'[k].account)[l.Id()])
    {
      if k < i { assert reports'[k] == reports[..i][k]; }
    }
    forall a, id | id in SeenOf(next, a) ensures FromLine(records, reports', a, id, SeenOf(next, a)[id]) {
      if id in SeenOf(seen, a) && SeenOf(next, a)[id] == SeenOf(seen, a)[id] {
        assert FromLine(records, reports[..i], a, id, SeenOf(seen, a)[id]);
        FromLineNext(records, reports, i, a, id, SeenOf(seen, a)[id]);
      } else {
        var lines := ForeignLines(records, reports[i]);
        var k :| 0 <= k < |lines| && lines[k].Id() == id && Renders(lines[k], after[id]);
        assert reports'[i] == reports[i] && lines[k] in lines;
      }
    }
  }

  lemma FromLineNext(records: seq<Record>, reports: seq<Report>, i: nat, account: string, id: Key, r: Buyout)
    requires i < |reports| && FromLine(records, reports[..i], account, id, r)
    ensures FromLine(records, reports[..i + 1], account, id, r)
  {
    hide ForeignLines, Renders;
    var j, l :| 0 <= j < i && reports[..i][j].account == account && l in ForeignLines(records, reports[..i][j]) &&
      l.Id() == id && Renders(l, r);
    assert reports[..i + 1][j] == reports[..i][j];
  }

  /** A report that is refused makes the whole input unbookable. */
  lemma RefusalIsJustified(states: map<Key, Books>, seen: map<string, map<Key, Buyout>>,
                           records: seq<Record>, reports: seq<Report>, i: nat, b: Books, after: Books)
    requires i < |reports| && Settled(states, seen, records, reports[..i])
    requires var r := reports[i]; var lines := Foreign(r.lines, b.domestic.Keys);
      Prepared(states, seen, r.account, r.day, b) &&
      (AcceptableReport(Some(lines)) ==> BooksReport(b, r.day, lines, Conflict(after)))
    ensures !(AllAcceptable(records, reports) && Consistent(records, reports))
  {
    hide Accounted, Prepared, AcceptableReport, BooksReport, Foreign, Consistent;
    var r := reports[i];
    SettledKnowsSales(states, seen, records, reports[..i]);
    PreparedKnowsHomeSales(states, seen, records, r.account, r.day, b);
    PreparedSeen(states, seen, r.account, r.day, b);
    var lines := ForeignLines(records, r);
    if AllAcceptable(records, reports) {
      ReportOutcome(b, r.day, lines, Conflict(after));
      var k :| 0 <= k < |lines| && !FitsSeen(b.seen, lines[k]);
      RefusedReport(records, reports, i, seen, lines[k]);
    }
  }

  lemma NoReceipts()
    ensures Receipts(map[]) == 0.0
  {
    var none: map<Key, Buyout> := map[];
    assert (map id | id in none :: none[id].receipt).Keys == {};
  }

  lemma NoReports(states: map<Key, Books>, records: seq<Record>, reports: seq<Report>)
    requires AllSound(states) && PaysAtHome(states, records) && KnowsSales(states, records)
    ensures Settled(states, map[], records, reports[..0])
  {
    hide PaidOn, PaidAtHome, KnowsSales, AllSound;
    NoReceipts();
  }

  /** The accounting of finished days: what buyers paid at home plus one receipt per foreign sale. */
  ghost predicate CountsOnce(states: map<Key, Books>, seen: map<string, map<Key, Buyout>>,
                             records: seq<Record>, reports: seq<Report>) {
    && (forall account, id :: id in SeenOf(seen, account) <==> BoughtAbroad(records, reports, account, id))
    && (forall account :: PaidOn(states, account) == PaidAtHome(records, account) + Receipts(SeenOf(seen, account)))
  }

  lemma AllocateOneDay(states: map<Key, Books>, key: Key, seen: map<string, map<Key, Buyout>>,
                       records: seq<Record>, reports: seq<Report>)
    requires key in states && AllSound(states) && CountsOnce(states, seen, records, reports)
    ensures var after := states[key := Settlement.Allocate(states[key])];
      AllSound(after) && CountsOnce(after, seen, records, reports) && Reconciles(after[key])
  {
    hide PaidOn, PaidAtHome, BoughtAbroad, Settlement.Allocate, ColumnTotal;
    AllocateKeepsBooksSound(states[key]);
    AllocateKeepsBuyers(states[key]);
    forall account ensures PaidOn(states[key := Settlement.Allocate(states[key])], account) == PaidOn(states, account) {
      PaidOnUpdate(states, key, Settlement.Allocate(states[key]), account);
    }
  }
}
