/** Lists of expenses dated outside their month: when adjacent periods still add up. */
module StrayExpenses {
  import opened Wrappers
  import opened Sums
  import opened Calendar
  import opened Expenses

  /** A first and a last day. */
  type Stretch = (nat, nat)

  /** The days a period must hold to count a stray expense: from its date to the first day of its
      month when that is a later one, or from the last day of an earlier month to its date. */
  function StretchOf(e: Expense): Stretch
    requires !InItsMonth(e)
  {
    var day := e.date.value;
    if e.month > MonthOf(day) then (day, Start(e.month)) else (Start(e.month + 1) - 1, day)
  }

  ghost function Part(e: Expense, start: nat, stop: nat): real {
    SumOver(Share(e, start, stop), start, stop + 1)
  }

  lemma MonthReaches(start: nat, m: nat)
    ensures MonthOf(start) <= m <==> start < Start(m + 1)
    ensures m <= MonthOf(start) <==> Start(m) <= start
  {
    hide Start, MonthOf;
    StartsCompare(MonthOf(start) + 1, m + 1);
    StartsCompare(m + 1, MonthOf(start));
    StartsCompare(m, MonthOf(start));
    StartsCompare(MonthOf(start) + 1, m);
  }

  /** A period counts a stray expense exactly when it holds its stretch. */
  lemma StrayIsCounted(e: Expense, start: nat, stop: nat)
    requires !InItsMonth(e)
    ensures var (first, last) := StretchOf(e);
      first < last && Part(e, start, stop) == if start <= first && last <= stop then e.amount else 0.0
  {
    hide Start, MonthOf, DayShare, Share, SumOver, OnDay;
    var day := e.date.value;
    MonthReaches(start, e.month);
    MonthReaches(stop, e.month);
    MonthReaches(day, e.month);
    MonthsCompare(if start <= day then start else day, day);
    MonthsCompare(day, if day <= stop then stop else day);
    if Selected(e, start, stop) { DatedPeriod(e, start, stop); } else { NothingSelected(e, start, stop); }
  }

  // ----- What a split leaves out -----

  predicate Across(s: Stretch, a: nat, b: nat, c: nat) {
    a <= s.0 <= b < s.1 <= c
  }

  lemma SplitOfOne(e: Expense, a: nat, b: nat, c: nat)
    requires a <= b < c
    ensures Part(e, a, c) - Part(e, a, b) - Part(e, b + 1, c) ==
            if !InItsMonth(e) && Across(StretchOf(e), a, b, c) then e.amount else 0.0
  {
    hide Part, StretchOf;
    if InItsMonth(e) {
      AdjacentPeriodsAddUp([e], a, b, c);
      OneExpense(e, a, b);
      OneExpense(e, b + 1, c);
      OneExpense(e, a, c);
      PartIs(e, a, b);
      PartIs(e, b + 1, c);
      PartIs(e, a, c);
    } else {
      StrayIsCounted(e, a, b);
      StrayIsCounted(e, b + 1, c);
      StrayIsCounted(e, a, c);
    }
  }

  lemma PartIs(e: Expense, start: nat, stop: nat)
    ensures Part(e, start, stop) == SumOver(Share(e, start, stop), start, stop + 1)
  {
  }

  /** The amounts of the stray expenses whose stretch is chosen. */
  function Strays(expenses: seq<Expense>, chosen: Stretch -> bool): real {
    if expenses == [] then 0.0
    else
      var n := |expenses| - 1;
      Strays(expenses[..n], chosen) +
      if !InItsMonth(expenses[n]) && chosen(StretchOf(expenses[n])) then expenses[n].amount else 0.0
  }

  function Crossing(a: nat, b: nat, c: nat): Stretch -> bool {
    (s: Stretch) => Across(s, a, b, c)
  }

  function Exactly(s: Stretch): Stretch -> bool {
    (t: Stretch) => t == s
  }

  /** Splitting a period loses the stray expenses whose stretch crosses the split. */
  lemma {:induction false} SplitLoses(expenses: seq<Expense>, a: nat, b: nat, c: nat)
    requires a <= b < c
    ensures Period(expenses, a, c) - Period(expenses, a, b) - Period(expenses, b + 1, c) ==
            Strays(expenses, Crossing(a, b, c))
  {
    hide Period, Part, StretchOf, InItsMonth;
    if expenses == [] {
      NothingInPeriod(a, c);
      NothingInPeriod(a, b);
      NothingInPeriod(b + 1, c);
    } else {
      var n := |expenses| - 1;
      SplitLoses(expenses[..n], a, b, c);
      OneMoreExpense(expenses, a, c);
      OneMoreExpense(expenses, a, b);
      OneMoreExpense(expenses, b + 1, c);
      SplitOfOne(expenses[n], a, b, c);
    }
  }

  lemma NothingInPeriod(start: nat, stop: nat)
    ensures Period([], start, stop) == 0.0
  {
    NoExpenses(start, stop);
  }

  lemma OneMoreExpense(expenses: seq<Expense>, start: nat, stop: nat)
    requires expenses != []
    ensures var n := |expenses| - 1;
      Period(expenses, start, stop) == Period(expenses[..n], start, stop) + Part(expenses[n], start, stop)
  {
    NextExpense(expenses, |expenses| - 1, start, stop);
    assert expenses[..|expenses|] == expenses;
  }

  // ----- Stretches that cancel out -----

  /** The list without the stray expenses of one stretch. */
  function Without(expenses: seq<Expense>, s: Stretch): (r: seq<Expense>)
    ensures |r| <= |expenses|
  {
    if expenses == [] then []
    else
      var n := |expenses| - 1;
      Without(expenses[..n], s) +
      if !InItsMonth(expenses[n]) && StretchOf(expenses[n]) == s then [] else [expenses[n]]
  }

  lemma StraysSnoc(expenses: seq<Expense>, e: Expense, chosen: Stretch -> bool)
    ensures Strays(expenses + [e], chosen) ==
            Strays(expenses, chosen) + if !InItsMonth(e) && chosen(StretchOf(e)) then e.amount else 0.0
  {
    assert (expenses + [e])[..|expenses|] == expenses;
  }

  lemma {:induction false} StraysWithout(expenses: seq<Expense>, s: Stretch, chosen: Stretch -> bool)
    ensures Strays(expenses, chosen) ==
            Strays(Without(expenses, s), chosen) + if chosen(s) then Strays(expenses, Exactly(s)) else 0.0
  {
    hide StretchOf, InItsMonth;
    if expenses != [] {
      var n := |expenses| - 1;
      StraysWithout(expenses[..n], s, chosen);
      if !InItsMonth(expenses[n]) && StretchOf(expenses[n]) == s {
        assert Without(expenses, s) == Without(expenses[..n], s);
      } else {
        StraysSnoc(Without(expenses[..n], s), expenses[n], chosen);
      }
    }
  }

  ghost predicate Cancels(expenses: seq<Expense>) {
    forall s :: Strays(expenses, Exactly(s)) == 0.0
  }

  /** When every stretch cancels out, so does every choice of stretches. */
  lemma {:induction false} ChosenCancel(expenses: seq<Expense>, chosen: Stretch -> bool)
    requires Cancels(expenses)
    ensures Strays(expenses, chosen) == 0.0
    decreases |expenses|
  {
    hide StretchOf, InItsMonth;
    if expenses != [] {
      var n := |expenses| - 1;
      if InItsMonth(expenses[n]) {
        forall s ensures Strays(expenses[..n], Exactly(s)) == 0.0 {
          assert Strays(expenses, Exactly(s)) == 0.0;
        }
        ChosenCancel(expenses[..n], chosen);
      } else {
        var last := StretchOf(expenses[n]);
        var rest := Without(expenses, last);
        assert rest == Without(expenses[..n], last);
        forall s ensures Strays(rest, Exactly(s)) == 0.0 {
          StraysWithout(expenses, last, Exactly(s));
          assert Strays(expenses, Exactly(s)) == 0.0 && Strays(expenses, Exactly(last)) == 0.0;
          if s == last { StraysOfWithout(expenses, s); }
        }
        ChosenCancel(rest, chosen);
        StraysWithout(expenses, last, chosen);
        assert Strays(expenses, Exactly(last)) == 0.0;
      }
    }
  }

  lemma {:induction false} StraysOfWithout(expenses: seq<Expense>, s: Stretch)
    ensures Strays(Without(expenses, s), Exactly(s)) == 0.0
  {
    hide StretchOf, InItsMonth;
    if expenses != [] {
      var n := |expenses| - 1;
      StraysOfWithout(expenses[..n], s);
      if !InItsMonth(expenses[n]) && StretchOf(expenses[n]) == s {
        assert Without(expenses, s) == Without(expenses[..n], s);
      } else {
        StraysSnoc(Without(expenses[..n], s), expenses[n], Exactly(s));
      }
    }
  }

  lemma {:induction false} StraysDiffer(expenses: seq<Expense>, first: nat, last: nat)
    requires first < last
    ensures Strays(expenses, Crossing(first, first, last)) ==
            Strays(expenses, Exactly((first, last))) +
            (if first + 1 < last then Strays(expenses, Crossing(first, first, last - 1)) else 0.0)
  {
    hide StretchOf, InItsMonth;
    if expenses != [] { StraysDiffer(expenses[..|expenses| - 1], first, last); }
  }

  /** No stray expense has a stretch that ends before it begins. */
  lemma {:induction false} EmptyStretch(expenses: seq<Expense>, s: Stretch)
    requires s.1 <= s.0
    ensures Strays(expenses, Exactly(s)) == 0.0
  {
    hide StretchOf, InItsMonth;
    if expenses != [] {
      var n := |expenses| - 1;
      EmptyStretch(expenses[..n], s);
      if !InItsMonth(expenses[n]) { StrayIsCounted(expenses[n], 0, 0); }
    }
  }

  ghost predicate AlwaysAddsUp(expenses: seq<Expense>) {
    forall a, b, c :: ListAddsUp(expenses, a, b, c)
  }

  ghost predicate ListAddsUp(expenses: seq<Expense>, a: nat, b: nat, c: nat) {
    a <= b < c ==> Period(expenses, a, b) + Period(expenses, b + 1, c) == Period(expenses, a, c)
  }

  /** Adjacent periods of a list add up, whatever the periods, exactly when its stray expenses cancel
      out for every stretch. */
  lemma ListAddsUpIff(expenses: seq<Expense>)
    ensures AlwaysAddsUp(expenses) <==> Cancels(expenses)
  {
    hide Period, Strays;
    if Cancels(expenses) {
      forall a: nat, b: nat, c: nat ensures ListAddsUp(expenses, a, b, c) {
        if a <= b < c {
          SplitLoses(expenses, a, b, c);
          ChosenCancel(expenses, Crossing(a, b, c));
        }
      }
    }
    if AlwaysAddsUp(expenses) {
      forall s ensures Strays(expenses, Exactly(s)) == 0.0 {
        var (first, last) := s;
        if first < last {
          StraysDiffer(expenses, first, last);
          NothingIsLost(expenses, first, last);
          if first + 1 < last { NothingIsLost(expenses, first, last - 1); }
        } else {
          EmptyStretch(expenses, s);
        }
      }
    }
  }

  lemma NothingIsLost(expenses: seq<Expense>, first: nat, last: nat)
    requires AlwaysAddsUp(expenses) && first < last
    ensures Strays(expenses, Crossing(first, first, last)) == 0.0
  {
    hide Period, Strays;
    assert ListAddsUp(expenses, first, first, last);
    SplitLoses(expenses, first, first, last);
  }

  /** Two stray expenses of different dates and months can cancel out: one on the last day of a month
      for the next month, the other on the first day of that month for the one before. */
  lemma NeighboursCancel(m: nat, x: real)
    ensures var pair := [Expense(m + 1, Some(Start(m + 1) - 1), x), Expense(m, Some(Start(m + 1)), -x)];
      !InItsMonth(pair[0]) && !InItsMonth(pair[1]) && AlwaysAddsUp(pair)
  {
    hide MonthOf, MonthDays, AlwaysAddsUp;
    var day, next := Start(m + 1) - 1, Start(m + 1);
    MonthOfIs(day, m);
    MonthOfIs(next, m + 1);
    var pair := [Expense(m + 1, Some(day), x), Expense(m, Some(next), -x)];
    assert StretchOf(pair[0]) == (day, next) && StretchOf(pair[1]) == (day, next);
    assert pair[..1] == [pair[0]] && [pair[0]][..0] == [];
    forall s ensures Strays(pair, Exactly(s)) == 0.0 {
      assert Strays([pair[0]], Exactly(s)) == if s == (day, next) then x else 0.0;
    }
    ListAddsUpIff(pair);
  }
}
