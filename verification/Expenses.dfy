/** Expenses that belong to no article: the total of a period and the amounts of its days. */
module Expenses {
  import opened Wrappers
  import opened Sums
  import opened Money
  import opened Calendar
  import opened Allocation

  /** An expense of a month; with a date it belongs to that day, without one to the whole month. */
  datatype Expense = Expense(month: nat, date: Option<nat>, amount: real)

  predicate InItsMonth(e: Expense) {
    e.date.Some? ==> e.month == MonthOf(e.date.value)
  }

  // ----- Recording -----

  datatype Refusal = MonthAndDateDisagree | NoPeriod | DateIsNeeded

  /** The month of a dated expense is derived; a different one is refused. */
  function Create(month: Option<nat>, date: Option<nat>, amount: real): (r: Result<Expense, Refusal>)
    ensures r.Ok? ==> InItsMonth(r.value) && r.value.date == date && r.value.amount == amount
    ensures r.Err? <==> (month, date) == (None, None) || (month.Some? && date.Some? && month.value != MonthOf(date.value))
  {
    if date.Some? then
      if month.Some? && month.value != MonthOf(date.value) then Err(MonthAndDateDisagree)
      else Ok(Expense(MonthOf(date.value), date, amount))
    else if month.None? then Err(NoPeriod)
    else Ok(Expense(month.value, None, amount))
  }

  /** Only the given fields change; moving a dated expense takes a new date. */
  function Update(e: Expense, month: Option<nat>, date: Option<nat>, amount: Option<real>): (r: Result<Expense, Refusal>)
    ensures r.Ok? && InItsMonth(e) ==> InItsMonth(r.value)
    ensures r.Ok? && InItsMonth(e) && e.date.Some? && date.None? ==> (r.value.month, r.value.date) == (e.month, e.date)
    ensures r.Ok? && date.Some? ==> r.value.date == date
    ensures r.Ok? && date.None? && month.Some? ==> r.value.month == month.value
    ensures r.Ok? ==> r.value.amount == if amount.Some? then amount.value else e.amount
    ensures InItsMonth(e) && month.Some? && (date.Some? || e.date.Some?) ==>
      (r.Ok? <==> month.value == MonthOf(if date.Some? then date.value else e.date.value))
  {
    if date.Some? && month.Some? && month.value != MonthOf(date.value) then Err(MonthAndDateDisagree)
    else if date.None? && month.Some? && e.date.Some? && month.value != e.month then Err(DateIsNeeded)
    else
      Ok(Expense(if date.Some? then MonthOf(date.value) else if month.Some? then month.value else e.month,
                 if date.Some? then date else e.date,
                 if amount.Some? then amount.value else e.amount))
  }

  // ----- What one expense puts on one day -----

  function Portions(e: Expense): (r: seq<real>)
    ensures |r| == MonthDays(e.month)
  {
    Parts(e.amount, Equal(MonthDays(e.month)))
  }

  function OnDay(e: Expense, day: int): real {
    if e.date.Some? then if day == e.date.value then e.amount else 0.0
    else if Start(e.month) <= day < Start(e.month + 1) then Portions(e)[day - Start(e.month)]
    else 0.0
  }

  lemma EqualParts(amount: real, days: nat)
    requires days > 0
    ensures var part := ToCents(amount / days as real);
      Parts(amount, Equal(days)) == Same(part, days - 1) + [amount - Sum(Same(part, days - 1))]
  {
    hide ToCents, Allocation.Share, Equal, Same;
    var part := ToCents(amount / days as real);
    var shares := Allocation.Shares(amount, Equal(days));
    forall i | 0 <= i < days ensures shares[i] == amount / days as real { EqualShare(amount, days, i); }
    var first := Rounded(shares[..days - 1]);
    assert |Equal(days)| == days && Equal(days) != [];
    assert Parts(amount, Equal(days)) == first + [amount - Sum(first)];
    assert first == Same(part, days - 1);
  }

  /** Every day of the month but the last takes the nearest cent of an equal part, and the last one what
      is left. */
  lemma DayTakesAnEqualPart(e: Expense, k: nat)
    requires e.date.None? && k < MonthDays(e.month)
    ensures var days := MonthDays(e.month);
      OnDay(e, Start(e.month) + k) ==
      if k < days - 1 then ToCents(e.amount / days as real)
      else e.amount - Times(days - 1, ToCents(e.amount / days as real))
  {
    hide ToCents, Parts, MonthDays, Same, Times, Sum;
    EqualParts(e.amount, MonthDays(e.month));
    SumOfSame(ToCents(e.amount / MonthDays(e.month) as real), MonthDays(e.month) - 1);
  }

  lemma EqualShare(amount: real, days: nat, i: nat)
    requires i < days
    ensures Allocation.Share(amount, Equal(days), i) == amount / days as real
  {
    SumEqual(days);
    SharesFollowWeights(amount, Equal(days), i);
    QuotientIs(Allocation.Share(amount, Equal(days), i), days as real, amount);
  }

  lemma QuotientIs(x: real, y: real, z: real)
    requires y > 0.0 && x * y == z * 1.0
    ensures x == z / y
  {
  }

  function Same(x: real, n: nat): (r: seq<real>)
    ensures |r| == n && forall i :: 0 <= i < n ==> r[i] == x
  {
    seq(n, i => x)
  }

  lemma {:induction false} SumOfSame(x: real, n: nat)
    ensures Sum(Same(x, n)) == Times(n, x)
  {
    hide Same, Times;
    OneTimeMore(n, x);
    if n > 0 {
      assert Same(x, n)[..n - 1] == Same(x, n - 1);
      SumOfSame(x, n - 1);
    }
  }

  function Times(n: nat, x: real): real {
    n as real * x
  }

  lemma OneTimeMore(n: nat, x: real)
    ensures Times(0, x) == 0.0 && (n > 0 ==> Times(n, x) == Times(n - 1, x) + x)
  {
  }

  /** Both reports read the expenses whose month lies between the months of the two days. */
  predicate Selected(e: Expense, start: nat, stop: nat) {
    MonthOf(start) <= e.month <= MonthOf(stop)
  }

  function DayShare(e: Expense, start: nat, stop: nat, day: int): real {
    if Selected(e, start, stop) then OnDay(e, day) else 0.0
  }

  function DayTotal(expenses: seq<Expense>, start: nat, stop: nat, day: int): real {
    if expenses == [] then 0.0
    else
      var n := |expenses| - 1;
      DayTotal(expenses[..n], start, stop, day) + DayShare(expenses[n], start, stop, day)
  }

  ghost function Share(e: Expense, start: nat, stop: nat): int -> real {
    day => DayShare(e, start, stop, day)
  }

  ghost function Totals(expenses: seq<Expense>, start: nat, stop: nat): int -> real {
    day => DayTotal(expenses, start, stop, day)
  }

  // ----- One expense over a period -----

  lemma NothingToShare(n: nat, i: nat)
    requires i < n
    ensures Parts(0.0, Equal(n))[i] == 0.0
  {
    var weights := Equal(n);
    var first := Rounded(Shares(0.0, weights)[..n - 1]);
    forall k | 0 <= k < n - 1 ensures first[k] == 0.0 { ShareOfNothing(weights, k); }
    SumOfZeros(first);
  }

  lemma ShareOfNothing(weights: seq<real>, k: nat)
    requires k < |weights|
    ensures Allocation.Share(0.0, weights, k) == 0.0
  {
    ShareIs(0.0, weights, k);
  }

  lemma {:induction false} SumOfZeros(xs: seq<real>)
    requires forall k :: 0 <= k < |xs| ==> xs[k] == 0.0
    ensures Sum(xs) == 0.0
  {
    if xs != [] { SumOfZeros(xs[..|xs| - 1]); }
  }

  lemma DatedPeriod(e: Expense, start: nat, stop: nat)
    requires e.date.Some? && Selected(e, start, stop)
    ensures SumOver(Share(e, start, stop), start, stop + 1) ==
            if start <= e.date.value <= stop then e.amount else 0.0
  {
    var f, day := Share(e, start, stop), e.date.value;
    if start <= day <= stop {
      SumOverSupport(f, start, stop + 1, day, day + 1);
    } else {
      SumOverZeros(f, start, stop + 1);
    }
  }

  lemma WholeMonth(e: Expense, start: nat, stop: nat)
    requires e.date.None? && Selected(e, start, stop)
    requires start <= Start(e.month) && Start(e.month + 1) - 1 <= stop
    ensures SumOver(Share(e, start, stop), start, stop + 1) == e.amount
  {
    hide Portions, MonthDays;
    var f, first, next := Share(e, start, stop), Start(e.month), Start(e.month + 1);
    MonthSum(e, start, stop);
    SumOverSupport(f, start, stop + 1, first, next);
  }

  lemma MonthSum(e: Expense, start: nat, stop: nat)
    requires e.date.None? && Selected(e, start, stop)
    ensures SumOver(Share(e, start, stop), Start(e.month), Start(e.month + 1)) == e.amount
  {
    hide Parts, MonthDays, Selected, Portions;
    var f, first := Share(e, start, stop), Start(e.month);
    forall k | 0 <= k < |Portions(e)| ensures f(first + k) == Portions(e)[k] {}
    SumOverOfSeq(f, first, Portions(e));
    PortionsAddUp(e);
  }

  lemma PortionsAddUp(e: Expense)
    ensures Sum(Portions(e)) == e.amount
  {
    PartsAddUp(e.amount, Equal(MonthDays(e.month)));
  }

  /** What the days of a part of a month take, read off the month's portions. */
  ghost function Within(e: Expense, start: nat, stop: nat): int -> real {
    day => if start <= day <= stop then OnDay(e, day) else 0.0
  }

  lemma PartOfMonth(e: Expense, start: nat, stop: nat)
    requires e.date.None? && Selected(e, start, stop)
    ensures SumOver(Share(e, start, stop), start, stop + 1) ==
            SumOver(Within(e, start, stop), Start(e.month), Start(e.month + 1))
  {
    hide Portions, MonthDays;
    if stop < start {
      SumOverZeros(Within(e, start, stop), Start(e.month), Start(e.month + 1));
      return;
    }
    SumOverAgrees(Share(e, start, stop), Within(e, start, stop), start, stop + 1);
    SumOverSupport(Within(e, start, stop), start, stop + 1, Start(e.month), Start(e.month + 1));
  }

  lemma NothingSelected(e: Expense, start: nat, stop: nat)
    requires !Selected(e, start, stop) || (e.date.None? && e.amount == 0.0)
    ensures SumOver(Share(e, start, stop), start, stop + 1) == 0.0
  {
    forall day | start <= day < stop + 1 ensures Share(e, start, stop)(day) == 0.0 {
      if Selected(e, start, stop) && Start(e.month) <= day < Start(e.month + 1) {
        NothingToShare(MonthDays(e.month), day - Start(e.month));
      }
    }
    SumOverZeros(Share(e, start, stop), start, stop + 1);
  }

  /** The share of one undated expense in a period that covers its month in part. */
  method FragmentShare(e: Expense, start: nat, stop: nat) returns (share: real)
    requires e.date.None?
    ensures share == SumOver(Within(e, start, stop), Start(e.month), Start(e.month + 1))
  {
    hide MonthDays, Parts;
    var first, count := Start(e.month), MonthDays(e.month);
    var ones := seq(count, i => 1.0);
    assert ones == Equal(count);
    var portions := Allocate(e.amount, ones);
    assert portions == Portions(e);
    share := 0.0;
    for i := 0 to |portions|
      invariant share == SumOver(Within(e, start, stop), first, first + i)
    {
      if start <= first + i <= stop { share := share + portions[i]; }
    }
  }

  /** The external expenses of a period. It is the sum over the days of the period of what the
      expenses put on each day. */
  method PeriodExternal(expenses: seq<Expense>, start: nat, stop: nat) returns (external: real)
    ensures external == SumOver(Totals(expenses, start, stop), start, stop + 1)
  {
    hide OnDay, Selected, DayShare, MonthOf, Share, Within;
    external := 0.0;
    NoExpenses(start, stop);
    for i := 0 to |expenses|
      invariant external == SumOver(Totals(expenses[..i], start, stop), start, stop + 1)
    {
      var e := expenses[i];
      var share := PeriodShare(e, start, stop);
      NextExpense(expenses, i, start, stop);
      external := external + share;
    }
    assert expenses[..|expenses|] == expenses;
  }

  lemma NoExpenses(start: nat, stop: nat)
    ensures SumOver(Totals([], start, stop), start, stop + 1) == 0.0
  {
    SumOverZeros(Totals([], start, stop), start, stop + 1);
  }

  lemma NextExpense(expenses: seq<Expense>, i: nat, start: nat, stop: nat)
    requires i < |expenses|
    ensures SumOver(Totals(expenses[..i + 1], start, stop), start, stop + 1) ==
            SumOver(Totals(expenses[..i], start, stop), start, stop + 1) +
            SumOver(Share(expenses[i], start, stop), start, stop + 1)
  {
    hide DayShare;
    var more := expenses[..i + 1];
    assert more[..|more| - 1] == expenses[..i] && more[|more| - 1] == expenses[i];
    SumOverAdd(Totals(expenses[..i], start, stop), Share(expenses[i], start, stop), Totals(more, start, stop),
               start, stop + 1);
  }

  lemma SameSelection(e: Expense, start: nat, stop: nat)
    ensures Selected(e, start, stop) <==> Start(MonthOf(start)) <= Start(e.month) <= Start(MonthOf(stop))
    ensures Selected(e, start, stop) <==> Start(MonthOf(start)) <= Start(e.month) < Start(MonthOf(stop) + 1)
  {
    hide Start, MonthOf;
    StartsCompare(MonthOf(start), e.month);
    StartsCompare(e.month, MonthOf(stop));
    StartsCompare(MonthOf(stop) + 1, e.month);
  }

  method PeriodShare(e: Expense, start: nat, stop: nat) returns (share: real)
    ensures share == SumOver(Share(e, start, stop), start, stop + 1)
  {
    hide OnDay, DayShare, MonthOf, Share, Within, MonthDays;
    var first, last := Start(e.month), Start(e.month + 1) - 1;
    SameSelection(e, start, stop);
    if !(Start(MonthOf(start)) <= first <= Start(MonthOf(stop))) {
      NothingSelected(e, start, stop);
      return 0.0;
    }
    if e.date.Some? {
      DatedPeriod(e, start, stop);
      share := if start <= e.date.value <= stop then e.amount else 0.0;
    } else if start <= first && stop >= last {
      WholeMonth(e, start, stop);
      share := e.amount;
    } else if e.amount != 0.0 {
      share := FragmentShare(e, start, stop);
      PartOfMonth(e, start, stop);
    } else {
      NothingSelected(e, start, stop);
      share := 0.0;
    }
  }

  // ----- The days -----

  /** The external expenses of every day, gathered in one pass over the expenses of the months. */
  method DailyExternal(expenses: seq<Expense>, start: nat, stop: nat) returns (external: map<int, real>)
    ensures forall day :: At(external, day) == DayTotal(expenses, start, stop, day)
  {
    hide OnDay, DayShare, MonthOf, Start;
    external := map[];
    var first, last := Start(MonthOf(start)), Start(MonthOf(stop) + 1) - 1;
    for i := 0 to |expenses|
      invariant forall day :: At(external, day) == DayTotal(expenses[..i], start, stop, day)
    {
      var e := expenses[i];
      assert expenses[..i + 1][..i] == expenses[..i] && expenses[..i + 1][i] == e;
      SameSelection(e, start, stop);
      if first <= Start(e.month) <= last {
        external := AddDays(external, e);
      }
      forall day ensures At(external, day) == DayTotal(expenses[..i + 1], start, stop, day) {
        NextDay(expenses, i, start, stop, day);
      }
    }
    assert expenses[..|expenses|] == expenses;
  }

  lemma NextDay(expenses: seq<Expense>, i: nat, start: nat, stop: nat, day: int)
    requires i < |expenses|
    ensures DayTotal(expenses[..i + 1], start, stop, day) == DayTotal(expenses[..i], start, stop, day) +
      if Selected(expenses[i], start, stop) then OnDay(expenses[i], day) else 0.0
  {
    hide OnDay, Selected;
    assert expenses[..i + 1][..i] == expenses[..i];
  }

  method AddDays(external: map<int, real>, e: Expense) returns (all: map<int, real>)
    ensures forall day :: At(all, day) == At(external, day) + OnDay(e, day)
  {
    hide MonthDays, Parts;
    all := external;
    if e.date.Some? {
      all := all[e.date.value := At(all, e.date.value) + e.amount];
      return;
    }
    var first, count := Start(e.month), MonthDays(e.month);
    var ones := seq(count, i => 1.0);
    assert ones == Equal(count);
    var portions := Allocate(e.amount, ones);
    assert portions == Portions(e);
    for i := 0 to |portions|
      invariant forall day :: At(all, day) == At(external, day) + if day < first + i then OnDay(e, day) else 0.0
    {
      all := all[first + i := At(all, first + i) + portions[i]];
    }
  }

  // ----- Adjacent periods -----

  ghost function Period(expenses: seq<Expense>, start: nat, stop: nat): real {
    SumOver(Totals(expenses, start, stop), start, stop + 1)
  }

  /** A day takes the same from an expense kept in its month, whatever period is read. */
  lemma DayInAnyPeriod(e: Expense, start: nat, stop: nat, day: nat)
    requires InItsMonth(e) && start <= day <= stop
    ensures DayShare(e, start, stop, day) == OnDay(e, day)
  {
    hide MonthOf;
    if OnDay(e, day) != 0.0 {
      MonthOfIs(day, e.month);
      MonthsCompare(start, day);
      MonthsCompare(day, stop);
    }
  }

  lemma MonthsCompare(a: nat, b: nat)
    requires a <= b
    ensures MonthOf(a) <= MonthOf(b)
  {
    hide MonthOf;
    StartsCompare(MonthOf(b) + 1, MonthOf(a));
  }

  lemma {:induction false} TotalInAnyPeriod(expenses: seq<Expense>, start: nat, stop: nat, start': nat, stop': nat, day: nat)
    requires forall e :: e in expenses ==> InItsMonth(e)
    requires start <= day <= stop && start' <= day <= stop'
    ensures DayTotal(expenses, start, stop, day) == DayTotal(expenses, start', stop', day)
  {
    hide DayShare;
    if expenses != [] {
      var n := |expenses| - 1;
      TotalInAnyPeriod(expenses[..n], start, stop, start', stop', day);
      DayInAnyPeriod(expenses[n], start, stop, day);
      DayInAnyPeriod(expenses[n], start', stop', day);
    }
  }

  /** Two adjacent periods make up the period they form. */
  lemma AdjacentPeriodsAddUp(expenses: seq<Expense>, a: nat, b: nat, c: nat)
    requires a <= b < c && forall e :: e in expenses ==> InItsMonth(e)
    ensures Period(expenses, a, b) + Period(expenses, b + 1, c) == Period(expenses, a, c)
  {
    hide DayTotal;
    var whole := Totals(expenses, a, c);
    forall day | a <= day < b + 1 ensures Totals(expenses, a, b)(day) == whole(day) {
      TotalInAnyPeriod(expenses, a, b, a, c, day);
    }
    SumOverAgrees(Totals(expenses, a, b), whole, a, b + 1);
    forall day | b + 1 <= day < c + 1 ensures Totals(expenses, b + 1, c)(day) == whole(day) {
      TotalInAnyPeriod(expenses, b + 1, c, a, c, day);
    }
    SumOverAgrees(Totals(expenses, b + 1, c), whole, b + 1, c + 1);
    SumOverSplit(whole, a, b + 1, c + 1);
  }

  ghost predicate AddsUp(e: Expense, a: nat, b: nat, c: nat) {
    a <= b < c ==> Period([e], a, b) + Period([e], b + 1, c) == Period([e], a, c)
  }

  /** For a single expense being kept in its month is exactly what adjacent periods need. */
  lemma PeriodsAddUpIff(e: Expense)
    ensures (forall a, b, c :: AddsUp(e, a, b, c)) <==> e.amount == 0.0 || InItsMonth(e)
  {
    hide Period;
    if e.amount == 0.0 || InItsMonth(e) {
      forall a: nat, b: nat, c: nat ensures AddsUp(e, a, b, c) {
        if e.amount == 0.0 {
          NothingInAnyPeriod(e, a, b);
          NothingInAnyPeriod(e, b + 1, c);
          NothingInAnyPeriod(e, a, c);
        } else if a <= b < c {
          AdjacentPeriodsAddUp([e], a, b, c);
        }
      }
    } else {
      MisplacedExpense(e);
    }
  }

  lemma OneExpense(e: Expense, start: nat, stop: nat)
    ensures Period([e], start, stop) == SumOver(Share(e, start, stop), start, stop + 1)
  {
    NoExpenses(start, stop);
    assert [e][..0] == [] && [e][..1] == [e];
    NextExpense([e], 0, start, stop);
  }

  lemma NothingInAnyPeriod(e: Expense, start: nat, stop: nat)
    requires e.amount == 0.0
    ensures Period([e], start, stop) == 0.0
  {
    OneExpense(e, start, stop);
    if Selected(e, start, stop) && e.date.Some? {
      DatedPeriod(e, start, stop);
    } else {
      NothingSelected(e, start, stop);
    }
  }

  /** A date outside the expense's month: the period from one to the other counts it, its parts do not. */
  lemma MisplacedExpense(e: Expense)
    requires e.amount != 0.0 && !InItsMonth(e)
    ensures exists a, b, c :: !AddsUp(e, a, b, c)
  {
    hide Period, MonthOf;
    var day, first := e.date.value, Start(e.month);
    MonthOfIs(first, e.month);
    if first < day {
      MonthsCompare(first, day);
      DatedIn(e, first, day - 1);
      DatedIn(e, day, day);
      DatedIn(e, first, day);
      assert !AddsUp(e, first, day - 1, day);
    } else {
      MonthsCompare(day, first);
      DatedIn(e, day, day);
      DatedIn(e, day + 1, first);
      DatedIn(e, day, first);
      assert !AddsUp(e, day, day, first);
    }
  }

  lemma DatedIn(e: Expense, start: nat, stop: nat)
    requires e.date.Some?
    ensures Period([e], start, stop) ==
            if Selected(e, start, stop) && start <= e.date.value <= stop then e.amount else 0.0
  {
    OneExpense(e, start, stop);
    if Selected(e, start, stop) { DatedPeriod(e, start, stop); } else { NothingSelected(e, start, stop); }
  }

  // ----- Taxes -----

  /** The buyer money of the days of a month, which are the weights of its tax. */
  function DayWeights(buyer: map<int, real>, month: nat): (r: seq<real>)
    ensures |r| == MonthDays(month)
  {
    seq(MonthDays(month), i => At(buyer, Start(month) + i))
  }

  ghost function Taxes(tax: map<int, real>): int -> real {
    day => At(tax, day)
  }

  /** The days of a month carry its tax: each day its cent-exact share, together the amount. */
  ghost predicate Spread(tax: map<int, real>, month: nat, buyer: map<int, real>, amount: real) {
    && SumOver(Taxes(tax), Start(month), Start(month + 1)) == amount
    && forall i :: 0 <= i < MonthDays(month) ==> At(tax, Start(month) + i) == Parts(amount, DayWeights(buyer, month))[i]
  }

  lemma SpreadStays(tax: map<int, real>, after: map<int, real>, month: nat, buyer: map<int, real>, amount: real, m: nat)
    requires m < month && Spread(tax, m, buyer, amount)
    requires forall day :: !(Start(month) <= day < Start(month + 1)) ==> At(after, day) == At(tax, day)
    ensures Spread(after, m, buyer, amount)
  {
    hide Parts, DayWeights;
    StartsCompare(m + 1, month);
    assert Start(m + 1) == Start(m) + MonthDays(m);
    SumOverAgrees(Taxes(after), Taxes(tax), Start(m), Start(m + 1));
  }

  method SpreadTax(tax: map<int, real>, month: nat, buyer: map<int, real>, amount: real)
    returns (all: map<int, real>)
    ensures Spread(all, month, buyer, amount)
    ensures forall day :: !(Start(month) <= day < Start(month + 1)) ==> At(all, day) == At(tax, day)
  {
    hide Parts, MonthDays;
    var first := Start(month);
    var weights := DayWeights(buyer, month);
    var parts := Allocate(amount, weights);
    all := tax;
    for i := 0 to |parts|
      invariant forall k :: 0 <= k < i ==> At(all, first + k) == parts[k]
      invariant forall day :: !(first <= day < first + i) ==> At(all, day) == At(tax, day)
    {
      all := all[first + i := parts[i]];
    }
    SumOverOfSeq(Taxes(all), first, parts);
  }

  /** A marketplace and an account of it. */
  type AccountKey = (string, string)

  /** What the daily report knows when it comes to taxes: the accounts, those with tax switched on,
      their buyer money by day, the taxes confirmed for a month and the rate for the others. */
  datatype TaxInputs = TaxInputs(accounts: seq<AccountKey>, enabled: set<AccountKey>,
                                 buyer: map<AccountKey, map<int, real>>, confirmed: map<(AccountKey, nat), real>,
                                 rate: real)

  function DaysOf(days: map<AccountKey, map<int, real>>, account: AccountKey): map<int, real> {
    if account in days then days[account] else map[]
  }

  /** The tax on what buyers paid; there is none on a loss. */
  function TaxAmount(base: real, rate: real): real {
    ToCents((if base > 0.0 then base else 0.0) * rate / 100.0)
  }

  /** The confirmed tax of the month, or else the estimate from its buyer money. */
  function Due(b: TaxInputs, account: AccountKey, month: nat): real {
    if (account, month) in b.confirmed then b.confirmed[(account, month)]
    else TaxAmount(Sum(DayWeights(DaysOf(b.buyer, account), month)), b.rate)
  }

  /** The estimate is the nearest cent of that percentage of what buyers paid, and nothing on a loss. */
  lemma TaxAmountIs(base: real, rate: real)
    ensures WholeCents(TaxAmount(base, rate))
    ensures base > 0.0 ==> Abs(TaxAmount(base, rate) - base * rate / 100.0) <= HALF_CENT
    ensures base <= 0.0 ==> TaxAmount(base, rate) == 0.0
  {
    ToCentsIsNearest((if base > 0.0 then base else 0.0) * rate / 100.0, 0);
  }

  /** What buyers paid on the days of a month. */
  ghost function MonthMoney(buyer: map<int, real>, month: nat): real {
    SumOver(Taxes(buyer), Start(month), Start(month + 1))
  }

  /** The tax of a month: confirmed, or estimated from the buyer money of its days. */
  lemma DueIs(b: TaxInputs, account: AccountKey, month: nat)
    ensures (account, month) in b.confirmed ==> Due(b, account, month) == b.confirmed[(account, month)]
    ensures (account, month) !in b.confirmed ==>
      var paid, due := MonthMoney(DaysOf(b.buyer, account), month), Due(b, account, month);
      WholeCents(due) && if paid > 0.0 then Abs(due - paid * b.rate / 100.0) <= HALF_CENT else due == 0.0
  {
    hide TaxAmount, MonthDays, WholeCents;
    var buyer := DaysOf(b.buyer, account);
    var weights := DayWeights(buyer, month);
    forall k | 0 <= k < |weights| ensures Taxes(buyer)(Start(month) + k) == weights[k] {}
    SumOverOfSeq(Taxes(buyer), Start(month), weights);
    TaxAmountIs(Sum(weights), b.rate);
  }

  /** An estimate needs a rate between 0 and 100 percent. */
  predicate Refuses(b: TaxInputs, account: AccountKey, month: nat) {
    account in b.enabled && (account, month) !in b.confirmed && !(0.0 <= b.rate <= 100.0)
  }

  type Taxation = map<AccountKey, map<int, real>>

  ghost predicate Taxed(tax: Taxation, b: TaxInputs, account: AccountKey, month: nat) {
    Spread(DaysOf(tax, account), month, DaysOf(b.buyer, account), Due(b, account, month))
  }

  predicate IsTaxed(b: TaxInputs, account: AccountKey) {
    account in b.accounts && account in b.enabled
  }

  /** One month of every account. */
  method SpreadMonth(b: TaxInputs, month: nat, tax: Taxation) returns (all: Taxation, ok: bool)
    ensures ok <==> forall account :: account in b.accounts ==> !Refuses(b, account, month)
    ensures ok ==> forall account :: IsTaxed(b, account) ==> Taxed(all, b, account, month)
    ensures forall account, day :: !IsTaxed(b, account) || !(Start(month) <= day < Start(month + 1)) ==>
      At(DaysOf(all, account), day) == At(DaysOf(tax, account), day)
  {
    hide Spread, DayWeights, MonthDays, Start, TaxAmount;
    all := tax;
    for i := 0 to |b.accounts|
      invariant forall k :: 0 <= k < i ==> !Refuses(b, b.accounts[k], month)
      invariant forall k :: 0 <= k < i && b.accounts[k] in b.enabled ==> Taxed(all, b, b.accounts[k], month)
      invariant forall account, day :: !IsTaxed(b, account) || !(Start(month) <= day < Start(month + 1)) ==>
        At(DaysOf(all, account), day) == At(DaysOf(tax, account), day)
    {
      var account := b.accounts[i];
      if account in b.enabled {
        if Refuses(b, account, month) { return all, false; }
        var days := SpreadTax(DaysOf(all, account), month, DaysOf(b.buyer, account), Due(b, account, month));
        ghost var before := all;
        all := all[account := days];
        assert Taxed(all, b, account, month);
        assert forall other :: other != account ==> DaysOf(all, other) == DaysOf(before, other);
        assert forall k :: 0 <= k < i && b.accounts[k] in b.enabled ==>
          Taxed(before, b, b.accounts[k], month) && (b.accounts[k] != account ==> Taxed(all, b, b.accounts[k], month));
      }
    }
    ok := true;
  }

  /** Spreads the tax of every account that has it switched on, month by month, over the days of the
      month by what buyers paid on them; other accounts and other days get none. A bad rate is
      refused exactly when some month needs an estimate. */
  method SpreadTaxes(b: TaxInputs, firstMonth: nat, lastMonth: nat) returns (tax: Taxation, ok: bool)
    ensures ok <==> forall account, m :: account in b.accounts && firstMonth <= m <= lastMonth ==> !Refuses(b, account, m)
    ensures ok ==> forall account, m :: IsTaxed(b, account) && firstMonth <= m <= lastMonth ==> Taxed(tax, b, account, m)
    ensures forall account, day :: !IsTaxed(b, account) || !(Start(firstMonth) <= day < Start(lastMonth + 1)) ==>
      At(DaysOf(tax, account), day) == 0.0
  {
    hide Spread, DayWeights, MonthDays, MonthOf, IsTaxed, Refuses, Due, Taxed, Start;
    tax := map[];
    var month := firstMonth;
    while month <= lastMonth
      invariant firstMonth <= month
      invariant forall account, m :: account in b.accounts && firstMonth <= m < month ==> !Refuses(b, account, m)
      invariant forall account, m :: IsTaxed(b, account) && firstMonth <= m < month ==> Taxed(tax, b, account, m)
      invariant forall account, day :: !IsTaxed(b, account) || !(Start(firstMonth) <= day < Start(month)) ==>
        At(DaysOf(tax, account), day) == 0.0
      invariant month <= lastMonth + 1 || month == firstMonth
      decreases lastMonth + 1 - month
    {
      var after, fine := SpreadMonth(b, month, tax);
      StartsCompare(firstMonth, month);
      StartsCompare(month, month + 1);
      StartsCompare(month + 1, lastMonth + 1);
      forall account, day | !IsTaxed(b, account) || !(Start(firstMonth) <= day < Start(month + 1))
        ensures At(DaysOf(after, account), day) == 0.0
      {
      }
      if !fine { return after, false; }
      forall account, m | IsTaxed(b, account) && firstMonth <= m < month ensures Taxed(after, b, account, m) {
        TaxedStays(tax, after, b, account, month, m);
      }
      tax := after;
      FourDaysAfterThe28th(month);
      month := MonthOf(Start(month) + 27 + 4);
    }
    StartsCompare(month, lastMonth + 1);
    ok := true;
  }

  lemma TaxedStays(tax: Taxation, after: Taxation, b: TaxInputs, account: AccountKey, month: nat, m: nat)
    requires m < month && Taxed(tax, b, account, m)
    requires forall day :: !(Start(month) <= day < Start(month + 1)) ==>
      At(DaysOf(after, account), day) == At(DaysOf(tax, account), day)
    ensures Taxed(after, b, account, m)
  {
    hide Spread, DayWeights;
    SpreadStays(DaysOf(tax, account), DaysOf(after, account), month, DaysOf(b.buyer, account), Due(b, account, m), m);
  }
}
