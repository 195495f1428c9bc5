/** How the records of the buyout report enter the books, each posting/SKU pair once. */
module BuyoutLedger {
  import opened Sums
  import opened Ledger
  import opened Accruals

  datatype Event = Event(day: string, record: Buyout)

  /** A run of records ends when the report contradicts what was booked before. */
  datatype Outcome = Done(books: Books) | Conflict(books: Books)

  predicate Honest(r: Buyout) {
    r.gross == r.receipt + r.deduction
  }

  /** A sale the accruals already hold only changes sides. */
  function MoveJournal(sku: string, sale: Sale): seq<Posting> {
    [ToRow(sku, SalesQty, -sale.quantity), ToRow(sku, SalesCis, sale.quantity),
     ToRow(sku, RevenueRf, -sale.gross), ToRow(sku, RevenueCis, sale.gross),
     ToRow(sku, BuyerRf, -sale.receipt), ToRow(sku, BuyerCis, sale.receipt),
     ToRow(sku, CommissionRf, -sale.deduction), ToRow(sku, CommissionCis, sale.deduction)]
  }

  /** Any other sale is booked with the report's own amounts. */
  function OwnJournal(e: Event): seq<Posting> {
    var r, month := e.record, Month(e.day);
    [ToRow(r.sku, SalesCis, r.quantity),
     ToRow(r.sku, Revenue, r.gross), ToRow(r.sku, RevenueCis, r.gross),
     ToRow(r.sku, BuyerRevenue, r.receipt), ToRow(r.sku, BuyerCis, r.receipt),
     ToRow(r.sku, Commission, r.deduction), ToRow(r.sku, CommissionCis, r.deduction),
     ToMonth(r.sku, month, r.receipt), ToCisMonth(r.sku, month, r.receipt)]
  }

  function Marked(b: Books, r: Buyout): Books {
    b.(seen := b.seen[r.Id() := r])
  }

  function Apply(b: Books, e: Event): Outcome {
    var r := e.record;
    if r.Id() in b.seen then
      if b.seen[r.Id()] != r then Conflict(b) else Done(b.(overlaps := b.overlaps + 1))
    else if r.Id() in b.domestic then
      Done(PostAll(Marked(b, r).(overlaps := b.overlaps + 1), MoveJournal(r.sku, b.domestic[r.Id()])))
    else
      Done(PostAll(Marked(b, r), OwnJournal(e)).(buyoutReceipts := b.buyoutReceipts + r.receipt,
                                                 rawTotal := b.rawTotal + r.receipt))
  }

  function ApplyAll(b: Books, events: seq<Event>): Outcome {
    if events == [] then Done(b)
    else
      var before := ApplyAll(b, events[..|events| - 1]);
      if before.Conflict? then before else Apply(before.books, events[|events| - 1])
  }

  // ----- Soundness -----

  lemma MoveIsEven(sku: string, sale: Sale)
    ensures Even(MoveJournal(sku, sale)) && JournalNet(MoveJournal(sku, sale)) == 0.0
  {
    forall other, rule ensures JournalGap(MoveJournal(sku, sale), other, rule) == 0.0 {
      MoveHasNoGap(sku, sale, other, rule);
    }
    WeightlessJournal(MoveJournal(sku, sale));
  }

  /** An amount that moves between the two parts of one total. */
  function Moved(sku: string, rf: Column, cis: Column, x: real): seq<Posting> {
    [ToRow(sku, rf, -x), ToRow(sku, cis, x)]
  }

  lemma MovedHasNoGap(sku: string, rf: Column, cis: Column, x: real, other: string, rule: Rule)
    requires (rf, cis) in [(SalesQty, SalesCis), (RevenueRf, RevenueCis), (BuyerRf, BuyerCis), (CommissionRf, CommissionCis)]
    ensures JournalGap(Moved(sku, rf, cis, x), other, rule) == 0.0
  {
    var j := Moved(sku, rf, cis, x);
    assert j[..1] == [j[0]] && [j[0]][..0] == [];
    assert JournalGap([j[0]], other, rule) == PostingGap(j[0], other, rule);
  }

  lemma MoveHasNoGap(sku: string, sale: Sale, other: string, rule: Rule)
    ensures JournalGap(MoveJournal(sku, sale), other, rule) == 0.0
  {
    hide JournalGap;
    var a, b := Moved(sku, SalesQty, SalesCis, sale.quantity), Moved(sku, RevenueRf, RevenueCis, sale.gross);
    var c, d := Moved(sku, BuyerRf, BuyerCis, sale.receipt), Moved(sku, CommissionRf, CommissionCis, sale.deduction);
    MovedHasNoGap(sku, SalesQty, SalesCis, sale.quantity, other, rule);
    MovedHasNoGap(sku, RevenueRf, RevenueCis, sale.gross, other, rule);
    MovedHasNoGap(sku, BuyerRf, BuyerCis, sale.receipt, other, rule);
    MovedHasNoGap(sku, CommissionRf, CommissionCis, sale.deduction, other, rule);
    GapConcat(a, b, other, rule);
    GapConcat(a + b, c, other, rule);
    GapConcat(a + b + c, d, other, rule);
    assert MoveJournal(sku, sale) == a + b + c + d;
  }

  lemma {:induction false} WeightlessJournal(j: seq<Posting>)
    requires forall i :: 0 <= i < |j| ==> NetOf(j[i]) == 0.0
    ensures JournalNet(j) == 0.0
  {
    if j != [] { WeightlessJournal(j[..|j| - 1]); }
  }

  lemma OwnIsEven(e: Event)
    requires Honest(e.record)
    ensures Even(OwnJournal(e)) && JournalNet(OwnJournal(e)) == e.record.receipt
  {
    var j := OwnJournal(e);
    var core := j[..8];
    assert core == [j[0], j[1], j[2], j[3], j[4], j[5], j[6], j[7]] && j == core + [j[8]];
    forall other, rule ensures JournalGap(core, other, rule) == 0.0 { OwnHasNoGap(e, other, rule); }
    PlainIsEven([j[8]]);
    EvenConcat(core, [j[8]]);
    OwnNet(e);
  }

  lemma OwnHasNoGap(e: Event, other: string, rule: Rule)
    ensures JournalGap(OwnJournal(e)[..8], other, rule) == 0.0
  {
    hide JournalGap;
    EightGaps(OwnJournal(e)[..8], other, rule);
  }

  lemma OwnNet(e: Event)
    requires Honest(e.record)
    ensures JournalNet(OwnJournal(e)) == e.record.receipt
  {
    var j := OwnJournal(e);
    var head, mid, tail := j[..1], j[1..6], j[6..];
    hide Month;
    assert j == head + mid + tail;
    WeightlessJournal(head);
    WeightlessJournal(tail);
    JournalNetConcat(head, mid);
    JournalNetConcat(head + mid, tail);
    assert mid == [j[1], j[2], j[3], j[4], j[5]];
    WeightlessJournal(j[2..5]);
    JournalNetConcat([j[1]], j[2..5]);
    JournalNetConcat([j[1]] + j[2..5], [j[5]]);
    assert mid == [j[1]] + j[2..5] + [j[5]];
    assert [j[1]][..0] == [] && [j[5]][..0] == [];
  }

  lemma MoveKeepsBooksSound(b: Books, sku: string, sale: Sale)
    requires Sound(b)
    ensures Sound(PostAll(b, MoveJournal(sku, sale)))
  {
    MoveIsEven(sku, sale);
    EvenJournalKeepsBooks(b, MoveJournal(sku, sale));
    PostingsOnlyPost(b, MoveJournal(sku, sale));
  }

  lemma OwnKeepsBooksSound(b: Books, e: Event, receipts: real)
    requires Sound(b) && Honest(e.record)
    ensures Sound(PostAll(b, OwnJournal(e)).(buyoutReceipts := receipts, rawTotal := b.rawTotal + e.record.receipt))
  {
    hide OwnJournal;
    OwnIsEven(e);
    EvenJournalKeepsBooks(b, OwnJournal(e));
    PostingsOnlyPost(b, OwnJournal(e));
  }

  /** One record keeps the books sound, whichever way it is taken. */
  lemma MarkKeepsBooksSound(b: Books, r: Buyout)
    requires Sound(b)
    ensures Sound(Marked(b, r)) && Sound(Marked(b, r).(overlaps := b.overlaps + 1)) && Sound(b.(overlaps := b.overlaps + 1))
  {
  }

  lemma ApplyKeepsBooksSound(b: Books, e: Event)
    requires Sound(b) && Honest(e.record)
    ensures Sound(Apply(b, e).books)
  {
    var r := e.record;
    MarkKeepsBooksSound(b, r);
    hide PostAll, MoveJournal, OwnJournal, Sound;
    if r.Id() !in b.seen {
      if r.Id() in b.domestic {
        MoveKeepsBooksSound(Marked(b, r).(overlaps := b.overlaps + 1), r.sku, b.domestic[r.Id()]);
      } else {
        OwnKeepsBooksSound(Marked(b, r), e, b.buyoutReceipts + r.receipt);
      }
    }
  }

  // ----- Exactly once -----

  /** The receipts of the seen records whose sale is not a domestic one. */
  ghost function OwnReceipts(seen: map<Key, Buyout>, domestic: set<Key>): real {
    SumMap(map id | id in seen && id !in domestic :: seen[id].receipt)
  }

  lemma OwnReceiptsAdd(seen: map<Key, Buyout>, domestic: set<Key>, r: Buyout)
    requires r.Id() !in seen
    ensures OwnReceipts(seen[r.Id() := r], domestic) ==
            OwnReceipts(seen, domestic) + if r.Id() in domestic then 0.0 else r.receipt
  {
    var id, more := r.Id(), seen[r.Id() := r];
    var before := map k | k in seen && k !in domestic :: seen[k].receipt;
    var after := map k | k in more && k !in domestic :: more[k].receipt;
    if id in domestic {
      assert after == before;
    } else {
      assert after == before[id := r.receipt];
      SumMapUpdate(before, id, r.receipt);
    }
  }

  predicate KeepsDomestic(p: Posting) {
    !p.ToDomestic? && !p.ToCampaign? && !p.ToPool?
  }

  lemma {:induction false} DomesticOfPosted(b: Books, journal: seq<Posting>)
    requires forall i :: 0 <= i < |journal| ==> KeepsDomestic(journal[i])
    ensures PostAll(b, journal).domestic == b.domestic && PostAll(b, journal).pool == b.pool
  {
    if journal != [] {
      DomesticOfPosted(b, journal[..|journal| - 1]);
      assert KeepsDomestic(journal[|journal| - 1]);
    }
  }

  lemma MoveChangesRows(b: Books, sku: string, sale: Sale)
    ensures var after := PostAll(b, MoveJournal(sku, sale));
      after == b.(rows := after.rows, saleDays := after.saleDays, cisSaleDays := after.cisSaleDays)
  {
    hide PostAll;
    JournalChangesRows(b, MoveJournal(sku, sale));
  }

  lemma JournalChangesRows(b: Books, journal: seq<Posting>)
    requires forall i :: 0 <= i < |journal| ==> KeepsDomestic(journal[i])
    ensures var after := PostAll(b, journal);
      after == b.(rows := after.rows, saleDays := after.saleDays, cisSaleDays := after.cisSaleDays)
  {
    hide PostAll, KeepsDomestic;
    DomesticOfPosted(b, journal);
    PostingsOnlyPost(b, journal);
    CampaignsOfPosted(b, journal);
  }

  lemma OwnChangesRows(b: Books, e: Event)
    ensures var after := PostAll(b, OwnJournal(e));
      after == b.(rows := after.rows, saleDays := after.saleDays, cisSaleDays := after.cisSaleDays)
  {
    hide PostAll;
    JournalChangesRows(b, OwnJournal(e));
  }

  lemma {:induction false} CampaignsOfPosted(b: Books, journal: seq<Posting>)
    requires forall i :: 0 <= i < |journal| ==> KeepsDomestic(journal[i])
    ensures PostAll(b, journal).campaignCharges == b.campaignCharges
  {
    if journal != [] {
      CampaignsOfPosted(b, journal[..|journal| - 1]);
      assert KeepsDomestic(journal[|journal| - 1]);
    }
  }

  /** What a fresh record does to everything it could count twice. */
  lemma ApplyCounts(b: Books, e: Event)
    ensures var r, after := e.record, Apply(b, e).books;
      && after.domestic == b.domestic && after.pool == b.pool && after.operations == b.operations
      && (Apply(b, e).Done? ==> after.seen == b.seen[r.Id() := r])
      && after.overlaps == b.overlaps +
           (if Apply(b, e).Done? && (r.Id() in b.seen || r.Id() in b.domestic) then 1 else 0)
      && after.buyoutReceipts == b.buyoutReceipts +
           (if r.Id() in b.seen || r.Id() in b.domestic then 0.0 else r.receipt)
      && after.rawTotal == b.rawTotal + (after.buyoutReceipts - b.buyoutReceipts)
  {
    var r := e.record;
    hide PostAll, MoveJournal, OwnJournal;
    if r.Id() !in b.seen {
      if r.Id() in b.domestic {
        MoveChangesRows(Marked(b, r).(overlaps := b.overlaps + 1), r.sku, b.domestic[r.Id()]);
      } else {
        OwnChangesRows(Marked(b, r), e);
      }
    } else if b.seen[r.Id()] == r {
      assert b.seen[r.Id() := r] == b.seen;
    }
  }

  /** The receipts taken in are at every moment those of the distinct seen records without a
      domestic sale: no record counts twice and none is lost. */
  lemma {:induction false} EveryRecordCountsOnce(b: Books, events: seq<Event>)
    ensures var after, domestic := ApplyAll(b, events).books, b.domestic.Keys;
      && after.domestic == b.domestic
      && after.buyoutReceipts - b.buyoutReceipts ==
         OwnReceipts(after.seen, domestic) - OwnReceipts(b.seen, domestic)
      && after.rawTotal - b.rawTotal == after.buyoutReceipts - b.buyoutReceipts
  {
    if events != [] {
      EveryRecordCountsOnce(b, events[..|events| - 1]);
      var before := ApplyAll(b, events[..|events| - 1]);
      if before.Done? {
        var e := events[|events| - 1];
        ApplyCounts(before.books, e);
        if e.record.Id() !in before.books.seen {
          OwnReceiptsAdd(before.books.seen, b.domestic.Keys, e.record);
        } else if before.books.seen[e.record.Id()] == e.record {
          assert before.books.seen[e.record.Id() := e.record] == before.books.seen;
        }
      }
    }
  }

  lemma {:induction false} RunKeepsBooksSound(b: Books, events: seq<Event>)
    requires Sound(b) && forall i :: 0 <= i < |events| ==> Honest(events[i].record)
    ensures Sound(ApplyAll(b, events).books)
  {
    if events != [] {
      RunKeepsBooksSound(b, events[..|events| - 1]);
      var before := ApplyAll(b, events[..|events| - 1]);
      if before.Done? { ApplyKeepsBooksSound(before.books, events[|events| - 1]); }
    }
  }

  /** Every record of a finished run is remembered. */
  lemma {:induction false} FinishedRunIsSeen(b: Books, events: seq<Event>)
    requires ApplyAll(b, events).Done?
    ensures var after := ApplyAll(b, events).books;
      && (forall id :: id in b.seen ==> id in after.seen && after.seen[id] == b.seen[id])
      && (forall i :: 0 <= i < |events| ==>
           events[i].record.Id() in after.seen && after.seen[events[i].record.Id()] == events[i].record)
  {
    if events != [] {
      var before := ApplyAll(b, events[..|events| - 1]).books;
      FinishedRunIsSeen(b, events[..|events| - 1]);
      ApplyCounts(before, events[|events| - 1]);
      forall i | 0 <= i < |events| - 1
        ensures events[i].record.Id() in before.seen && before.seen[events[i].record.Id()] == events[i].record
      {
        assert events[..|events| - 1][i] == events[i];
      }
    }
  }

  /** Records that were seen before, in the same form, change the overlap counter and nothing else. */
  lemma {:induction false} RepeatsOnlyCount(b: Books, events: seq<Event>)
    requires forall i :: 0 <= i < |events| ==>
      events[i].record.Id() in b.seen && b.seen[events[i].record.Id()] == events[i].record
    ensures ApplyAll(b, events) == Done(b.(overlaps := b.overlaps + |events|))
  {
    if events != [] {
      RepeatsOnlyCount(b, events[..|events| - 1]);
    }
  }

  /** Adding a finished report a second time, under any days, only counts its records. */
  lemma AddingAgainOnlyCounts(b: Books, events: seq<Event>, again: seq<Event>)
    requires ApplyAll(b, events).Done?
    requires forall i :: 0 <= i < |again| ==> exists j :: 0 <= j < |events| && events[j].record == again[i].record
    ensures var after := ApplyAll(b, events).books;
      ApplyAll(after, again) == Done(after.(overlaps := after.overlaps + |again|))
  {
    hide ApplyAll;
    FinishedRunIsSeen(b, events);
    RepeatsOnlyCount(ApplyAll(b, events).books, again);
  }
}
