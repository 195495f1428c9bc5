/** The finished report: rounded rows, optional merging over accounts, ABC classes and totals. */
module ArticleReport {
  import opened Wrappers
  import opened Sums
  import opened Money
  import opened Sorting
  import opened Abc
  import opened ArticleEngine
  import opened ArticleShares

  // ----- Rounding -----

  /** Rounding to two decimals, ties to the even cent. */
  function Round2(x: real): real {
    var k := (x * 100.0).Floor;
    var rest := x * 100.0 - k as real;
    Cents(if rest < 0.5 || (rest == 0.5 && k % 2 == 0) then k else k + 1)
  }

  /** The rounded amount is the nearest whole number of cents and the even one of two equally near. */
  lemma Round2IsNearest(x: real, n: int)
    ensures WholeCents(Round2(x)) && Abs(Round2(x) - x) <= HALF_CENT
    ensures Abs(Cents(n) - x) < HALF_CENT || (Abs(Cents(n) - x) == HALF_CENT && n % 2 == 0) ==> Round2(x) == Cents(n)
  {
    var y := x * 100.0;
    var k := y.Floor;
    assert n <= k - 1 ==> n as real <= k as real - 1.0;
    assert n >= k + 2 ==> n as real >= k as real + 2.0;
  }

  lemma Round2OfCents(x: real)
    requires WholeCents(x)
    ensures Round2(x) == x
  {
    var n: int :| x == Cents(n);
    Round2IsNearest(x, n);
  }

  /** part/whole in percent. */
  function Percent(part: real, whole: real): real
    requires whole != 0.0
  {
    Round2(part / whole * 100.0)
  }

  // ----- Rows -----

  datatype Row = Row(marketplace: string, account: string, sku: string, offer: string, title: string,
                     image: Option<string>, salesQty: int, returnsQty: int, netQty: int,
                     amounts: map<Measure, real>, unitCost: Option<real>, missingCost: bool,
                     margin: real, markup: Option<real>, revenueClass: Class, profitClass: Class)

  function AmountOf(m: Measure): Row -> real {
    (r: Row) => At(r.amounts, m)
  }

  function Or(text: string, other: string): string {
    if text != "" then text else other
  }

  function CostMissing(a: Article): bool {
    (a.salesQty > 0 || a.returnsQty > 0) && UnitCost(a).None?
  }

  function RowFor(c: Closing, a: Article, w: Shares): Row {
    var profit, revenue, cogs := NetProfit(c, a, w), a.NetRevenue(), Cogs(a);
    Row(a.marketplace, a.account, a.sku, Or(a.offer, a.sku), a.title, a.image, a.salesQty, a.returnsQty, a.NetQty(),
        map m: Measure :: Round2(Figure(c, a, w, m)),
        if UnitCost(a).Some? then Some(Round2(UnitCost(a).value)) else None, CostMissing(a),
        if revenue > 0.0 then Percent(profit, revenue) else 0.0,
        if cogs > 0.0 then Some(Percent(profit, cogs)) else None, C, C)
  }

  function RowsFor(active: seq<Article>, c: Closing, articles: seq<Article>): (r: seq<Row>)
    ensures |r| == |articles|
  {
    seq(|articles|, i requires 0 <= i < |articles| => RowFor(c, articles[i], SharesOf(active, articles[i])))
  }

  /** Offers sold or returned without a known cost. */
  function MissingOffers(articles: seq<Article>): set<string> {
    set a | a in articles && CostMissing(a) :: Or(a.offer, a.sku)
  }

  ghost predicate Rounded(rows: seq<Row>) {
    forall i, m: Measure :: 0 <= i < |rows| ==> WholeCents(At(rows[i].amounts, m))
  }

  lemma {:induction false} RoundedSum(rows: seq<Row>, m: Measure)
    requires Rounded(rows)
    ensures WholeCents(SumBy(rows, AmountOf(m)))
  {
    hide WholeCents;
    if rows == [] {
      ZeroIsWholeCents();
    } else {
      RoundedSum(rows[..|rows| - 1], m);
      SumOfTwo(SumBy(rows[..|rows| - 1], AmountOf(m)), AmountOf(m)(rows[|rows| - 1]));
    }
  }

  lemma ZeroIsWholeCents()
    ensures WholeCents(0.0)
  {
    assert 0.0 == Cents(0);
  }

  lemma RowsAreRounded(active: seq<Article>, c: Closing, articles: seq<Article>)
    ensures Rounded(RowsFor(active, c, articles))
  {
    hide WholeCents, RowFor;
    forall i, m: Measure | 0 <= i < |articles| ensures WholeCents(At(RowsFor(active, c, articles)[i].amounts, m)) {
      RowIsNear(c, articles[i], SharesOf(active, articles[i]), m);
    }
  }

  lemma RowIsNear(c: Closing, a: Article, w: Shares, m: Measure)
    ensures Abs(At(RowFor(c, a, w).amounts, m) - Figure(c, a, w, m)) <= HALF_CENT
    ensures WholeCents(At(RowFor(c, a, w).amounts, m))
  {
    hide Figure, Round2, WholeCents, Percent;
    Round2IsNearest(Figure(c, a, w, m), 0);
  }

  /** Every column of the rounded rows is within half a cent per row of the exact total. */
  lemma {:induction false} RoundingIsBounded(active: seq<Article>, c: Closing, articles: seq<Article>, m: Measure)
    ensures Abs(SumBy(RowsFor(active, c, articles), AmountOf(m)) - FigureSum(active, c, articles, m)) <=
            HalfCents(|articles|)
  {
    hide Figure, Round2, WholeCents, RowFor, SharesOf, At;
    if articles != [] {
      var n := |articles| - 1;
      RoundingIsBounded(active, c, articles[..n], m);
      RowIsNear(c, articles[n], SharesOf(active, articles[n]), m);
      assert RowsFor(active, c, articles)[..n] == RowsFor(active, c, articles[..n]);
    }
  }

  // ----- Merging over accounts -----

  type GroupKey = (string, string)

  function KeyOf(r: Row): GroupKey {
    (r.marketplace, Or(r.offer, r.sku))
  }

  /** The keys in the order in which they first appear. */
  function GroupKeys(rows: seq<Row>): seq<GroupKey> {
    if rows == [] then []
    else
      var before, key := GroupKeys(rows[..|rows| - 1]), KeyOf(rows[|rows| - 1]);
      if key in before then before else before + [key]
  }

  function GroupOf(rows: seq<Row>, key: GroupKey): seq<Row> {
    if rows == [] then []
    else
      var last := rows[|rows| - 1];
      GroupOf(rows[..|rows| - 1], key) + if KeyOf(last) == key then [last] else []
  }

  function FirstTitle(group: seq<Row>): string {
    if group == [] then "" else if group[0].title != "" then group[0].title else FirstTitle(group[1..])
  }

  function FirstImage(group: seq<Row>): Option<string> {
    if group == [] then None
    else if Present(group[0].image) then group[0].image else FirstImage(group[1..])
  }

  function SumQty(group: seq<Row>, sales: bool): int {
    if group == [] then 0
    else
      var last := group[|group| - 1];
      SumQty(group[..|group| - 1], sales) + if sales then last.salesQty else last.returnsQty
  }

  function MergedRow(key: GroupKey, group: seq<Row>): Row
    requires group != []
  {
    if |group| == 1 then group[0]
    else
      var sales, returned := SumQty(group, true), SumQty(group, false);
      var revenue, cogs := SumBy(group, AmountOf(NetRevenueRub)), SumBy(group, AmountOf(CogsRub));
      var profit := SumBy(group, AmountOf(NetProfitRub));
      Row(key.0, "all", group[0].sku, key.1, FirstTitle(group), FirstImage(group), sales, returned, sales - returned,
          map m: Measure :: Round2(SumBy(group, AmountOf(m))),
          if sales - returned > 0 && cogs > 0.0 then Some(Round2(cogs / (sales - returned) as real)) else group[0].unitCost,
          exists r :: r in group && r.missingCost,
          if revenue > 0.0 then Percent(profit, revenue) else 0.0,
          if cogs > 0.0 then Some(Percent(profit, cogs)) else None, C, C)
  }

  lemma {:induction false} GroupIsNonEmpty(rows: seq<Row>, key: GroupKey)
    ensures key in GroupKeys(rows) <==> GroupOf(rows, key) != []
  {
    if rows != [] { GroupIsNonEmpty(rows[..|rows| - 1], key); }
  }

  function Merged(rows: seq<Row>): (r: seq<Row>)
    ensures |r| == |GroupKeys(rows)|
  {
    var keys := GroupKeys(rows);
    seq(|keys|, i requires 0 <= i < |keys| =>
      (GroupIsNonEmpty(rows, keys[i]); MergedRow(keys[i], GroupOf(rows, keys[i]))))
  }

  /** The sums of the groups named by `keys`. */
  function GroupSums(keys: seq<GroupKey>, rows: seq<Row>, f: Row -> real): real {
    if keys == [] then 0.0
    else GroupSums(keys[..|keys| - 1], rows, f) + SumBy(GroupOf(rows, keys[|keys| - 1]), f)
  }

  /** The last row adds to its own group and to no other. */
  lemma GroupWithLast(rows: seq<Row>, k: GroupKey, f: Row -> real)
    requires rows != []
    ensures var n := |rows| - 1;
      SumBy(GroupOf(rows, k), f) == SumBy(GroupOf(rows[..n], k), f) + if KeyOf(rows[n]) == k then f(rows[n]) else 0.0
  {
    var n := |rows| - 1;
    if KeyOf(rows[n]) == k {
      SumByAppend(GroupOf(rows[..n], k), rows[n], f);
    } else {
      assert GroupOf(rows, k) == GroupOf(rows[..n], k);
    }
  }

  lemma {:induction false} GroupSumsWithout(keys: seq<GroupKey>, rows: seq<Row>, f: Row -> real)
    requires rows != [] && KeyOf(rows[|rows| - 1]) !in keys
    ensures GroupSums(keys, rows, f) == GroupSums(keys, rows[..|rows| - 1], f)
  {
    hide GroupOf, SumBy, KeyOf;
    if keys != [] {
      GroupSumsWithout(keys[..|keys| - 1], rows, f);
      GroupWithLast(rows, keys[|keys| - 1], f);
    }
  }

  lemma {:induction false} GroupSumsWith(keys: seq<GroupKey>, rows: seq<Row>, f: Row -> real)
    requires rows != [] && KeyOf(rows[|rows| - 1]) in keys
    requires forall i, j :: 0 <= i < j < |keys| ==> keys[i] != keys[j]
    ensures GroupSums(keys, rows, f) == GroupSums(keys, rows[..|rows| - 1], f) + f(rows[|rows| - 1])
  {
    hide GroupOf, SumBy, KeyOf;
    var n := |keys| - 1;
    GroupWithLast(rows, keys[n], f);
    if keys[n] == KeyOf(rows[|rows| - 1]) {
      GroupSumsWithout(keys[..n], rows, f);
    } else {
      assert keys == keys[..n] + [keys[n]];
      GroupSumsWith(keys[..n], rows, f);
    }
  }

  lemma {:induction false} GroupKeysAreDistinct(rows: seq<Row>)
    ensures forall i, j :: 0 <= i < j < |GroupKeys(rows)| ==> GroupKeys(rows)[i] != GroupKeys(rows)[j]
  {
    if rows != [] { GroupKeysAreDistinct(rows[..|rows| - 1]); }
  }

  /** Every row belongs to exactly one group. */
  lemma {:induction false} GroupsCoverRows(rows: seq<Row>, f: Row -> real)
    ensures GroupSums(GroupKeys(rows), rows, f) == SumBy(rows, f)
  {
    if rows != [] {
      var before, key := rows[..|rows| - 1], KeyOf(rows[|rows| - 1]);
      GroupsCoverRows(before, f);
      GroupKeysAreDistinct(rows);
      if key in GroupKeys(before) {
        GroupSumsWith(GroupKeys(rows), rows, f);
      } else {
        var keys := GroupKeys(rows);
        assert keys[..|keys| - 1] == GroupKeys(before) && keys[|keys| - 1] == key;
        GroupSumsWithout(GroupKeys(before), rows, f);
        GroupIsNonEmpty(before, key);
        SumByAppend([], rows[|rows| - 1], f);
        assert GroupOf(rows, key) == [] + [rows[|rows| - 1]];
      }
    }
  }

  lemma {:induction false} RoundedGroup(rows: seq<Row>, key: GroupKey)
    requires Rounded(rows)
    ensures Rounded(GroupOf(rows, key))
  {
    hide WholeCents;
    if rows != [] { RoundedGroup(rows[..|rows| - 1], key); }
  }

  lemma MergedAmount(key: GroupKey, group: seq<Row>, m: Measure)
    requires group != [] && Rounded(group)
    ensures At(MergedRow(key, group).amounts, m) == SumBy(group, AmountOf(m))
  {
    hide WholeCents, Round2, Percent;
    RoundedSum(group, m);
    Round2OfCents(SumBy(group, AmountOf(m)));
    if |group| == 1 { SumByAppend([], group[0], AmountOf(m)); assert group == [] + [group[0]]; }
  }

  /** Each merged row holds the sum of its group. */
  ghost predicate Additive(rows: seq<Row>, f: Row -> real) {
    forall i :: 0 <= i < |GroupKeys(rows)| ==> f(Merged(rows)[i]) == SumBy(GroupOf(rows, GroupKeys(rows)[i]), f)
  }

  lemma {:induction false} MergedPrefix(rows: seq<Row>, n: nat, f: Row -> real)
    requires Additive(rows, f) && n <= |GroupKeys(rows)|
    ensures SumBy(Merged(rows)[..n], f) == GroupSums(GroupKeys(rows)[..n], rows, f)
  {
    hide MergedRow, GroupOf, GroupKeys, Merged;
    if n > 0 {
      MergedPrefix(rows, n - 1, f);
      assert Merged(rows)[..n][..n - 1] == Merged(rows)[..n - 1];
      assert GroupKeys(rows)[..n][..n - 1] == GroupKeys(rows)[..n - 1];
    }
  }

  lemma MergeKeepsSum(rows: seq<Row>, f: Row -> real)
    requires Additive(rows, f)
    ensures SumBy(Merged(rows), f) == SumBy(rows, f)
  {
    hide GroupOf, GroupKeys, Merged;
    var n := |GroupKeys(rows)|;
    MergedPrefix(rows, n, f);
    assert Merged(rows)[..n] == Merged(rows) && GroupKeys(rows)[..n] == GroupKeys(rows);
    GroupsCoverRows(rows, f);
  }

  /** Merging rows of whole cents keeps every column total. */
  lemma MergeKeepsTotals(rows: seq<Row>, m: Measure)
    requires Rounded(rows)
    ensures SumBy(Merged(rows), AmountOf(m)) == SumBy(rows, AmountOf(m))
    ensures Rounded(Merged(rows))
  {
    hide MergedRow, GroupOf, GroupKeys, WholeCents;
    forall i | 0 <= i < |GroupKeys(rows)|
      ensures AmountOf(m)(Merged(rows)[i]) == SumBy(GroupOf(rows, GroupKeys(rows)[i]), AmountOf(m))
    {
      var key := GroupKeys(rows)[i];
      GroupIsNonEmpty(rows, key);
      RoundedGroup(rows, key);
      MergedAmount(key, GroupOf(rows, key), m);
    }
    forall i, q: Measure | 0 <= i < |GroupKeys(rows)| ensures WholeCents(At(Merged(rows)[i].amounts, q)) {
      var key := GroupKeys(rows)[i];
      GroupIsNonEmpty(rows, key);
      RoundedGroup(rows, key);
      MergedAmount(key, GroupOf(rows, key), q);
      RoundedSum(GroupOf(rows, key), q);
    }
    MergeKeepsSum(rows, AmountOf(m));
  }

  datatype Count = Sold | Returned | Net

  function CountBy(n: Count): Row -> real {
    (r: Row) => (match n case Sold => r.salesQty case Returned => r.returnsQty case Net => r.netQty) as real
  }

  /** What a row shows as its net quantity is what was sold less what came back. */
  predicate Netted(rows: seq<Row>) {
    forall i :: 0 <= i < |rows| ==> rows[i].netQty == rows[i].salesQty - rows[i].returnsQty
  }

  lemma {:induction false} CountsOfGroup(group: seq<Row>)
    requires Netted(group)
    ensures SumBy(group, CountBy(Sold)) == SumQty(group, true) as real
    ensures SumBy(group, CountBy(Returned)) == SumQty(group, false) as real
    ensures SumBy(group, CountBy(Net)) == (SumQty(group, true) - SumQty(group, false)) as real
  {
    if group != [] { CountsOfGroup(group[..|group| - 1]); }
  }

  lemma {:induction false} NettedGroup(rows: seq<Row>, key: GroupKey)
    requires Netted(rows)
    ensures Netted(GroupOf(rows, key))
  {
    if rows != [] { NettedGroup(rows[..|rows| - 1], key); }
  }

  lemma MergedCount(key: GroupKey, group: seq<Row>, n: Count)
    requires group != [] && Netted(group)
    ensures CountBy(n)(MergedRow(key, group)) == SumBy(group, CountBy(n))
  {
    hide Round2, Percent, SumBy, SumQty;
    if |group| == 1 {
      SumByAppend([], group[0], CountBy(n));
      assert group == [] + [group[0]];
      NothingCounted(n);
    } else {
      CountsOfGroup(group);
    }
  }

  lemma NothingCounted(n: Count)
    ensures SumBy([], CountBy(n)) == 0.0
  {
  }

  /** Merging keeps the quantities sold, returned and net. */
  lemma MergeKeepsQuantities(rows: seq<Row>, n: Count)
    requires Netted(rows)
    ensures SumBy(Merged(rows), CountBy(n)) == SumBy(rows, CountBy(n))
  {
    hide MergedRow, GroupOf, GroupKeys, CountBy;
    forall i | 0 <= i < |GroupKeys(rows)|
      ensures CountBy(n)(Merged(rows)[i]) == SumBy(GroupOf(rows, GroupKeys(rows)[i]), CountBy(n))
    {
      GroupIsNonEmpty(rows, GroupKeys(rows)[i]);
      NettedGroup(rows, GroupKeys(rows)[i]);
      MergedCount(GroupKeys(rows)[i], GroupOf(rows, GroupKeys(rows)[i]), n);
    }
    MergeKeepsSum(rows, CountBy(n));
  }

  lemma RowsAreNetted(active: seq<Article>, c: Closing, articles: seq<Article>)
    ensures Netted(RowsFor(active, c, articles))
  {
    hide Figure, Round2, Percent;
  }

  // ----- Classes -----

  type RowKey = (string, string, string)

  function KeyOfRow(r: Row): RowKey {
    (r.marketplace, r.account, r.sku)
  }

  function Positive(x: real): real {
    if x > 0.0 then x else 0.0
  }

  function RankBy(m: Measure): Row -> Rank {
    (r: Row) => (Positive(At(r.amounts, m)), At(r.amounts, NetRevenueRub))
  }

  /** The amounts that are classified, highest first. */
  function Values(ordered: seq<Row>, m: Measure): (r: seq<real>)
    ensures |r| == |ordered|
  {
    seq(|ordered|, i requires 0 <= i < |ordered| => Positive(At(ordered[i].amounts, m)))
  }

  /** Classes are kept per marketplace, account and SKU; a later row of the same key wins. */
  function ClassMap(ordered: seq<Row>, m: Measure, n: nat): map<RowKey, Class>
    requires n <= |ordered|
  {
    if n == 0 then map[]
    else ClassMap(ordered, m, n - 1)[KeyOfRow(ordered[n - 1]) := EngineClass(Values(ordered, m), n - 1)]
  }

  function Classes(rows: seq<Row>, m: Measure): map<RowKey, Class> {
    ClassMap(Sorted(rows, RankBy(m)), m, |rows|)
  }

  lemma {:induction false} ClassMapHolds(ordered: seq<Row>, m: Measure, n: nat, i: nat)
    requires i < n <= |ordered|
    ensures KeyOfRow(ordered[i]) in ClassMap(ordered, m, n)
  {
    if i < n - 1 { ClassMapHolds(ordered, m, n - 1, i); }
  }

  lemma ClassifiedRow(rows: seq<Row>, m: Measure, r: Row)
    requires r in rows
    ensures KeyOfRow(r) in Classes(rows, m)
  {
    hide ClassMap, Sorted;
    SortedIsStable(rows, RankBy(m), (0.0, 0.0));
    var ordered := Sorted(rows, RankBy(m));
    assert r in multiset(ordered);
    var i :| 0 <= i < |ordered| && ordered[i] == r;
    ClassMapHolds(ordered, m, |rows|, i);
  }

  function WithClasses(rows: seq<Row>): (r: seq<Row>)
    ensures |r| == |rows|
  {
    seq(|rows|, i requires 0 <= i < |rows| =>
      (ClassifiedRow(rows, NetRevenueRub, rows[i]); ClassifiedRow(rows, NetProfitRub, rows[i]);
       rows[i].(revenueClass := Classes(rows, NetRevenueRub)[KeyOfRow(rows[i])],
                profitClass := Classes(rows, NetProfitRub)[KeyOfRow(rows[i])])))
  }

  function FinalRank(): Row -> Rank {
    (r: Row) => (At(r.amounts, NetRevenueRub), At(r.amounts, NetProfitRub))
  }

  lemma ValuesDescend(rows: seq<Row>, m: Measure)
    ensures var v := Values(Sorted(rows, RankBy(m)), m);
      Descends(v) && forall k :: 0 <= k < |v| ==> v[k] >= 0.0
  {
    hide Sorted;
    SortedIsStable(rows, RankBy(m), (0.0, 0.0));
    var ordered := Sorted(rows, RankBy(m));
    forall i, j | 0 <= i < j < |ordered| ensures Values(ordered, m)[i] >= Values(ordered, m)[j] {
      assert AtLeast(RankBy(m)(ordered[i]), RankBy(m)(ordered[j]));
    }
  }

  ghost predicate DistinctKeys(rows: seq<Row>) {
    forall i, j :: 0 <= i < j < |rows| ==> KeyOfRow(rows[i]) != KeyOfRow(rows[j])
  }

  ghost function Counted(key: RowKey): Row -> real {
    (r: Row) => if KeyOfRow(r) == key then 1.0 else 0.0
  }

  lemma {:induction false} CountOf(rows: seq<Row>, key: RowKey)
    ensures SumBy(rows, Counted(key)) >= 0.0
    ensures (forall i :: 0 <= i < |rows| ==> KeyOfRow(rows[i]) != key) ==> SumBy(rows, Counted(key)) == 0.0
    ensures DistinctKeys(rows) ==> SumBy(rows, Counted(key)) <= 1.0
  {
    if rows != [] {
      var n := |rows| - 1;
      CountOf(rows[..n], key);
      assert forall i :: 0 <= i < n ==> rows[..n][i] == rows[i];
    }
  }

  lemma {:induction false} CountAtLeast(rows: seq<Row>, key: RowKey, i: nat)
    requires i < |rows| && KeyOfRow(rows[i]) == key
    ensures SumBy(rows, Counted(key)) >= 1.0
  {
    var n := |rows| - 1;
    if i < n { CountAtLeast(rows[..n], key, i); } else { CountOf(rows[..n], key); }
  }

  lemma {:induction false} CountTwo(rows: seq<Row>, key: RowKey, i: nat, j: nat)
    requires i < j < |rows| && KeyOfRow(rows[i]) == key && KeyOfRow(rows[j]) == key
    ensures SumBy(rows, Counted(key)) >= 2.0
  {
    var n := |rows| - 1;
    if j < n { CountTwo(rows[..n], key, i, j); } else { CountAtLeast(rows[..n], key, i); }
  }

  lemma SortedKeysAreDistinct(rows: seq<Row>, rank: Row -> Rank)
    requires DistinctKeys(rows)
    ensures DistinctKeys(Sorted(rows, rank))
  {
    hide Sorted, SumBy;
    var ordered := Sorted(rows, rank);
    forall i, j | 0 <= i < j < |ordered| ensures KeyOfRow(ordered[i]) != KeyOfRow(ordered[j]) {
      if KeyOfRow(ordered[i]) == KeyOfRow(ordered[j]) {
        CountTwo(ordered, KeyOfRow(ordered[i]), i, j);
        SortedSum(rows, rank, Counted(KeyOfRow(ordered[i])));
        CountOf(rows, KeyOfRow(ordered[i]));
      }
    }
  }

  /** No later row has the key of row `i`. */
  ghost predicate LastOfItsKey(ordered: seq<Row>, i: nat)
    requires i < |ordered|
  {
    forall j :: i < j < |ordered| ==> KeyOfRow(ordered[j]) != KeyOfRow(ordered[i])
  }

  lemma {:induction false} OwnClass(ordered: seq<Row>, m: Measure, n: nat, i: nat)
    requires i < n <= |ordered| && LastOfItsKey(ordered, i)
    ensures KeyOfRow(ordered[i]) in ClassMap(ordered, m, n)
    ensures ClassMap(ordered, m, n)[KeyOfRow(ordered[i])] == EngineClass(Values(ordered, m), i)
  {
    hide EngineClass;
    if i < n - 1 { OwnClass(ordered, m, n - 1, i); }
  }

  /** The class of a key is that of the last place that holds the key: A while the prefix stays within
      80% of the total, B while it stays within 95%. */
  lemma LastPlaceDecides(rows: seq<Row>, m: Measure, i: nat)
    requires i < |rows| && LastOfItsKey(Sorted(rows, RankBy(m)), i)
    ensures var ordered := Sorted(rows, RankBy(m)); var v := Values(ordered, m); var key := KeyOfRow(ordered[i]);
      key in Classes(rows, m) && Classes(rows, m)[key] == ByShare(v, i)
  {
    hide Sorted, ClassMap, EngineClass, ByShare, KeyOfRow, Values, LastOfItsKey;
    var ordered := Sorted(rows, RankBy(m));
    OwnClass(ordered, m, |rows|, i);
    ValuesDescend(rows, m);
    EngineClassIs(Values(ordered, m), i);
  }

  /** With distinct keys every row has the class of its own place. */
  lemma ClassesFollowTheOrder(rows: seq<Row>, m: Measure, i: nat)
    requires i < |rows| && DistinctKeys(rows)
    ensures var ordered := Sorted(rows, RankBy(m)); var v := Values(ordered, m); var key := KeyOfRow(ordered[i]);
      key in Classes(rows, m) && Classes(rows, m)[key] == ByShare(v, i)
  {
    hide Sorted, ClassMap, ByShare, KeyOfRow, Values;
    SortedKeysAreDistinct(rows, RankBy(m));
    LastPlaceDecides(rows, m, i);
  }

  // ----- Keys -----

  ghost predicate DistinctArticles(articles: seq<Article>) {
    forall i, j :: 0 <= i < j < |articles| ==>
      (articles[i].account, articles[i].sku) != (articles[j].account, articles[j].sku)
  }

  lemma {:induction false} ActiveIsFromArticles(articles: seq<Article>, a: Article)
    requires a in ActiveOf(articles)
    ensures a in articles
  {
    var n := |articles| - 1;
    if a in ActiveOf(articles[..n]) { ActiveIsFromArticles(articles[..n], a); }
  }

  lemma {:induction false} ActiveAreDistinct(articles: seq<Article>)
    requires DistinctArticles(articles)
    ensures DistinctArticles(ActiveOf(articles))
  {
    if articles != [] {
      var n := |articles| - 1;
      ActiveAreDistinct(articles[..n]);
      var before := ActiveOf(articles[..n]);
      forall i | 0 <= i < |before|
        ensures (before[i].account, before[i].sku) != (articles[n].account, articles[n].sku)
      {
        ActiveIsFromArticles(articles[..n], before[i]);
        var k :| 0 <= k < n && articles[..n][k] == before[i];
        assert articles[k] == before[i];
      }
    }
  }

  /** Rows that are not merged never share a key. */
  lemma RowsHaveDistinctKeys(s: State, c: Closing)
    requires Sound(s)
    ensures var active := ActiveOf(Articles(s)); DistinctKeys(RowsFor(active, c, active))
  {
    hide NetSum, ActiveOf, RowFor;
    forall i, j | 0 <= i < j < |s.order|
      ensures (Articles(s)[i].account, Articles(s)[i].sku) != (Articles(s)[j].account, Articles(s)[j].sku)
    {
      assert ArticleFits(s.order[i], s.items[s.order[i]]) && ArticleFits(s.order[j], s.items[s.order[j]]);
    }
    ActiveAreDistinct(Articles(s));
    var active := ActiveOf(Articles(s));
    forall i | 0 <= i < |active| ensures KeyOfRow(RowsFor(active, c, active)[i]) == (active[i].marketplace, active[i].account, active[i].sku) {
      KeyOfRowFor(c, active[i], SharesOf(active, active[i]));
    }
  }

  lemma KeyOfRowFor(c: Closing, a: Article, w: Shares)
    ensures KeyOfRow(RowFor(c, a, w)) == (a.marketplace, a.account, a.sku)
  {
  }

  // ----- The report -----

  const REPORTED: set<Measure> := {NetRevenueRub, NetAccruedRub, CogsRub, TotalAdRub, IndirectRub, TaxRub, NetProfitRub}

  datatype Report = Report(items: seq<Row>, missing: set<string>, totals: map<Measure, real>)

  function TotalsOf(items: seq<Row>): map<Measure, real> {
    map m | m in REPORTED :: Round2(SumBy(items, AmountOf(m)))
  }

  function ItemsOf(rows: seq<Row>): seq<Row> {
    Sorted(WithClasses(rows), FinalRank())
  }

  function Finalized(articles: seq<Article>, c: Closing, merge: bool): Report {
    var active := ActiveOf(articles);
    var raw := RowsFor(active, c, active);
    var items := ItemsOf(if merge then Merged(raw) else raw);
    Report(items, MissingOffers(active), TotalsOf(items))
  }

  lemma ItemsKeepTotals(rows: seq<Row>, m: Measure)
    ensures SumBy(ItemsOf(rows), AmountOf(m)) == SumBy(rows, AmountOf(m))
  {
    hide Sorted, Classes;
    SortedSum(WithClasses(rows), FinalRank(), AmountOf(m));
    SumByAgrees(WithClasses(rows), rows, AmountOf(m));
  }

  /** Each reported total is within half a cent per active article of the exact one, merged or not. */
  lemma TotalsAreWithinHalfACentPerRow(articles: seq<Article>, c: Closing, merge: bool, m: Measure)
    requires m in REPORTED
    ensures var active := ActiveOf(articles); var total := Finalized(articles, c, merge).totals[m];
      Abs(total - FigureSum(active, c, active, m)) <= HalfCents(|active|)
  {
    hide ItemsOf, Merged, RowsFor, Round2, FigureSum, ActiveOf, WholeCents;
    var active := ActiveOf(articles);
    var raw := RowsFor(active, c, active);
    RowsAreRounded(active, c, active);
    RoundingIsBounded(active, c, active, m);
    MergeKeepsTotals(raw, m);
    ItemsKeepTotals(if merge then Merged(raw) else raw, m);
    RoundedSum(raw, m);
    Round2OfCents(SumBy(raw, AmountOf(m)));
  }

  function QuantityOf(n: Count): Article -> real {
    (a: Article) => (match n case Sold => a.salesQty case Returned => a.returnsQty case Net => a.NetQty()) as real
  }

  lemma RowCounts(c: Closing, a: Article, w: Shares, n: Count)
    ensures CountBy(n)(RowFor(c, a, w)) == QuantityOf(n)(a)
  {
    hide Figure, Round2, Percent;
  }

  lemma {:induction false} RowsHoldQuantities(active: seq<Article>, c: Closing, articles: seq<Article>, n: Count)
    ensures SumBy(RowsFor(active, c, articles), CountBy(n)) == SumBy(articles, QuantityOf(n))
  {
    hide RowFor, SharesOf, CountBy, QuantityOf;
    if articles != [] {
      var last := |articles| - 1;
      RowsHoldQuantities(active, c, articles[..last], n);
      RowCounts(c, articles[last], SharesOf(active, articles[last]), n);
      assert RowsFor(active, c, articles)[..last] == RowsFor(active, c, articles[..last]);
    }
  }

  /** The report shows exactly the quantities of the active articles, merged or not. */
  lemma ReportHoldsTheQuantities(articles: seq<Article>, c: Closing, merge: bool, n: Count)
    ensures SumBy(Finalized(articles, c, merge).items, CountBy(n)) == SumBy(ActiveOf(articles), QuantityOf(n))
  {
    hide Merged, RowsFor, TotalsOf, ActiveOf, QuantityOf, Sorted, Classes;
    var active := ActiveOf(articles);
    var raw := RowsFor(active, c, active);
    RowsAreNetted(active, c, active);
    RowsHoldQuantities(active, c, active, n);
    MergeKeepsQuantities(raw, n);
    var rows := if merge then Merged(raw) else raw;
    SortedSum(WithClasses(rows), FinalRank(), CountBy(n));
    SumByAgrees(WithClasses(rows), rows, CountBy(n));
  }

  // ----- Keys of merged rows -----

  lemma {:induction false} FirstOfGroup(rows: seq<Row>, key: GroupKey) returns (i: nat)
    requires GroupOf(rows, key) != []
    ensures i < |rows| && GroupOf(rows, key)[0] == rows[i] && KeyOf(rows[i]) == key
  {
    var n := |rows| - 1;
    if GroupOf(rows[..n], key) != [] { i := FirstOfGroup(rows[..n], key); } else { i := n; }
  }

  /** Two groups of several rows, of one marketplace, begin with the same SKU. */
  ghost predicate GroupsCollide(rows: seq<Row>, i: nat, j: nat)
    requires i < |GroupKeys(rows)| && j < |GroupKeys(rows)|
  {
    var a, b := GroupOf(rows, GroupKeys(rows)[i]), GroupOf(rows, GroupKeys(rows)[j]);
    |a| > 1 && |b| > 1 && GroupKeys(rows)[i].0 == GroupKeys(rows)[j].0 && a[0].sku == b[0].sku
  }

  lemma MergedKey(key: GroupKey, group: seq<Row>)
    requires group != []
    ensures KeyOfRow(MergedRow(key, group)) ==
            if |group| == 1 then KeyOfRow(group[0]) else (key.0, "all", group[0].sku)
  {
    hide Round2, Percent, SumBy, SumQty;
  }

  lemma MergedPairDiffersIff(rows: seq<Row>, i: nat, j: nat)
    requires DistinctKeys(rows) && (forall k :: 0 <= k < |rows| ==> rows[k].account != "all")
    requires i < j < |GroupKeys(rows)|
    ensures KeyOfRow(Merged(rows)[i]) == KeyOfRow(Merged(rows)[j]) <==> GroupsCollide(rows, i, j)
  {
    hide MergedRow, KeyOf;
    var k, l := GroupKeys(rows)[i], GroupKeys(rows)[j];
    GroupKeysAreDistinct(rows);
    GroupIsNonEmpty(rows, k);
    GroupIsNonEmpty(rows, l);
    var p := FirstOfGroup(rows, k);
    var q := FirstOfGroup(rows, l);
    MergedKey(k, GroupOf(rows, k));
    MergedKey(l, GroupOf(rows, l));
  }

  /** Rows with distinct keys, none of an account called "all", keep distinct keys when merged exactly
      when no two groups of several rows of one marketplace begin with the same SKU. */
  lemma MergedKeysAreDistinctIff(rows: seq<Row>)
    requires DistinctKeys(rows) && forall k :: 0 <= k < |rows| ==> rows[k].account != "all"
    ensures DistinctKeys(Merged(rows)) <==> forall i, j :: 0 <= i < j < |GroupKeys(rows)| ==> !GroupsCollide(rows, i, j)
  {
    hide Merged, GroupKeys, GroupsCollide, KeyOfRow;
    forall i, j | 0 <= i < j < |GroupKeys(rows)|
      ensures KeyOfRow(Merged(rows)[i]) == KeyOfRow(Merged(rows)[j]) <==> GroupsCollide(rows, i, j)
    {
      MergedPairDiffersIff(rows, i, j);
    }
    assert |Merged(rows)| == |GroupKeys(rows)|;
  }

  // ----- A class that is overwritten -----

  /** Two rows of one key with 80% and 20% of the revenue: the key ends in class C although its first
      row stands in the first 80%. */
  lemma SecondRowOverwrites(rows: seq<Row>)
    requires |rows| == 2 && KeyOfRow(rows[0]) == KeyOfRow(rows[1])
    requires At(rows[0].amounts, NetRevenueRub) == 80.0 && At(rows[1].amounts, NetRevenueRub) == 20.0
    ensures var ordered := Sorted(rows, RankBy(NetRevenueRub));
      ordered == rows && ByShare(Values(ordered, NetRevenueRub), 0) == A &&
      KeyOfRow(rows[0]) in Classes(rows, NetRevenueRub) && Classes(rows, NetRevenueRub)[KeyOfRow(rows[0])] == C
  {
    hide ByShare, KeyOfRow, At;
    var rank := RankBy(NetRevenueRub);
    assert rows[..1] == [rows[0]] && rows[..1][..0] == [];
    assert Sorted(rows[..0], rank) == [];
    assert Sorted(rows[..1], rank) == [rows[0]];
    assert Sorted(rows, rank) == [rows[0]] + [rows[1]] == rows;
    var v := Values(rows, NetRevenueRub);
    assert v == [80.0, 20.0];
    SharesOfTwo();
    ValuesDescend(rows, NetRevenueRub);
    EngineClassIs(v, 0);
    LastPlaceDecides(rows, NetRevenueRub, 1);
    EngineClassIs(v, 1);
  }

  lemma SharesOfTwo()
    ensures EngineClass([80.0, 20.0], 0) == A && EngineClass([80.0, 20.0], 1) == C
  {
    var v := [80.0, 20.0];
    assert v[..0] == [] && v[..1] == [80.0] && v[..2] == v && v[..1][..0] == [];
    assert Sum(v[..1]) == 80.0 && Sum(v) == 100.0;
  }

  function SoldArticle(account: string, sku: string, offer: string, sales: real): Article {
    Article(account, "wb", sku, offer, "", None, None, 1, 0, NO_AMOUNTS.(sales := sales), 0.0)
  }

  const NO_CLOSING := Closing(map[], map[], 0.0, map[])

  /** The rows the engine builds for offer A, sold as SKU 5 and 6, and offer B, sold as SKU 5 and 9. */
  ghost function FourRows(): (r: seq<Row>)
    ensures |r| == 4
  {
    var articles := [SoldArticle("a", "5", "A", 40.0), SoldArticle("b", "6", "A", 40.0),
                     SoldArticle("c", "5", "B", 10.0), SoldArticle("d", "9", "B", 10.0)];
    RowsFor(articles, NO_CLOSING, articles)
  }

  lemma SoldRow(active: seq<Article>, account: string, sku: string, offer: string, cents: int)
    requires offer != "" && cents > 0
    ensures var a := SoldArticle(account, sku, offer, Cents(cents)); var r := RowFor(NO_CLOSING, a, SharesOf(active, a));
      Active(a) && KeyOf(r) == ("wb", offer) && KeyOfRow(r) == ("wb", account, sku) &&
      At(r.amounts, NetRevenueRub) == Cents(cents)
  {
    hide Round2, Percent, NetProfit, SharesOf;
    Round2OfCents(Cents(cents));
    var a := SoldArticle(account, sku, offer, Cents(cents));
    assert a.NetRevenue() == Cents(cents);
    assert Figure(NO_CLOSING, a, SharesOf(active, a), NetRevenueRub) == Cents(cents);
  }

  lemma RowsOfFour()
    ensures var rows := FourRows();
      && KeyOf(rows[0]) == KeyOf(rows[1]) == ("wb", "A") && KeyOf(rows[2]) == KeyOf(rows[3]) == ("wb", "B")
      && KeyOfRow(rows[0]) == ("wb", "a", "5") && KeyOfRow(rows[1]) == ("wb", "b", "6")
      && KeyOfRow(rows[2]) == ("wb", "c", "5") && KeyOfRow(rows[3]) == ("wb", "d", "9")
      && At(rows[0].amounts, NetRevenueRub) == At(rows[1].amounts, NetRevenueRub) == 40.0
      && At(rows[2].amounts, NetRevenueRub) == At(rows[3].amounts, NetRevenueRub) == 10.0
      && Rounded(rows)
  {
    hide RowFor, SharesOf, KeyOf, KeyOfRow, Active, At;
    assert Cents(4000) == 40.0 && Cents(1000) == 10.0;
    var articles := [SoldArticle("a", "5", "A", 40.0), SoldArticle("b", "6", "A", 40.0),
                     SoldArticle("c", "5", "B", 10.0), SoldArticle("d", "9", "B", 10.0)];
    SoldRow(articles, "a", "5", "A", 4000);
    SoldRow(articles, "b", "6", "A", 4000);
    SoldRow(articles, "c", "5", "B", 1000);
    SoldRow(articles, "d", "9", "B", 1000);
    RowsAreRounded(articles, NO_CLOSING, articles);
  }

  /** The classes of merged rows can go wrong: both groups of these rows begin with SKU 5, so the first
      merged row, which makes up 80% of the revenue, gets the class of the second one. */
  lemma MergedClassIsOverwritten()
    ensures var rows := FourRows(); var merged := Merged(rows);
      && DistinctKeys(rows) && |merged| == 2 && KeyOfRow(merged[0]) == KeyOfRow(merged[1])
      && var ordered := Sorted(merged, RankBy(NetRevenueRub));
         ordered == merged && ByShare(Values(ordered, NetRevenueRub), 0) == A &&
         KeyOfRow(merged[0]) in Classes(merged, NetRevenueRub) &&
         Classes(merged, NetRevenueRub)[KeyOfRow(merged[0])] == C
  {
    hide Sorted, Classes, ByShare, Values, At, FourRows, Merged, Rounded, KeyOf, GroupKeys, GroupOf;
    var rows := FourRows();
    RowsOfFour();
    GroupsOfFour(rows);
    MergedFour(rows);
    SecondRowOverwrites(Merged(rows));
  }

  lemma MergedFour(rows: seq<Row>)
    requires |rows| == 4 && Rounded(rows)
    requires GroupKeys(rows) == [("wb", "A"), ("wb", "B")]
    requires GroupOf(rows, ("wb", "A")) == [rows[0], rows[1]] && GroupOf(rows, ("wb", "B")) == [rows[2], rows[3]]
    requires KeyOfRow(rows[0]) == ("wb", "a", "5") && KeyOfRow(rows[2]) == ("wb", "c", "5")
    ensures |Merged(rows)| == 2 && KeyOfRow(Merged(rows)[0]) == KeyOfRow(Merged(rows)[1]) == ("wb", "all", "5")
    ensures At(Merged(rows)[0].amounts, NetRevenueRub) ==
            At(rows[0].amounts, NetRevenueRub) + At(rows[1].amounts, NetRevenueRub)
    ensures At(Merged(rows)[1].amounts, NetRevenueRub) ==
            At(rows[2].amounts, NetRevenueRub) + At(rows[3].amounts, NetRevenueRub)
  {
    hide MergedRow, At, GroupOf, GroupKeys, Rounded;
    var a, b := ("wb", "A"), ("wb", "B");
    RoundedGroup(rows, a);
    RoundedGroup(rows, b);
    MergedKey(a, [rows[0], rows[1]]);
    MergedKey(b, [rows[2], rows[3]]);
    MergedAmount(a, [rows[0], rows[1]], NetRevenueRub);
    MergedAmount(b, [rows[2], rows[3]], NetRevenueRub);
    SumOfPair(rows[0], rows[1], AmountOf(NetRevenueRub));
    SumOfPair(rows[2], rows[3], AmountOf(NetRevenueRub));
  }

  lemma SumOfPair(a: Row, b: Row, f: Row -> real)
    ensures SumBy([a, b], f) == f(a) + f(b)
  {
    assert [a, b][..1] == [a] && [a][..0] == [];
    assert SumBy([a], f) == SumBy([], f) + f(a);
    assert SumBy([a, b], f) == SumBy([a], f) + f(b);
  }

  lemma GroupsOfFour(rows: seq<Row>)
    requires |rows| == 4 && KeyOf(rows[0]) == KeyOf(rows[1]) == ("wb", "A") && KeyOf(rows[2]) == KeyOf(rows[3]) == ("wb", "B")
    ensures GroupKeys(rows) == [("wb", "A"), ("wb", "B")]
    ensures GroupOf(rows, ("wb", "A")) == [rows[0], rows[1]] && GroupOf(rows, ("wb", "B")) == [rows[2], rows[3]]
  {
    var three, two, one := rows[..3], rows[..2], rows[..1];
    assert rows[..|rows| - 1] == three && three[..|three| - 1] == two && two[..|two| - 1] == one && one[..|one| - 1] == [];
    var a, b := ("wb", "A"), ("wb", "B");
    assert GroupKeys(one) == [a] && GroupKeys(two) == [a] && GroupKeys(three) == [a, b];
    assert GroupOf(one, a) == [rows[0]] && GroupOf(two, a) == [rows[0], rows[1]] && GroupOf(three, a) == [rows[0], rows[1]];
    assert KeyOf(rows[0]) != b && KeyOf(rows[1]) != b;
    assert GroupOf(one, b) == [];
    assert GroupOf(two, b) == [];
    assert GroupOf(three, b) == [rows[2]];
  }

  // ----- How the report is computed -----

  /** The revenue weights and the number of active articles by account. */
  method AccountWeights(active: seq<Article>) returns (weights: map<string, real>, counts: map<string, nat>, total: real)
    ensures forall account :: At(weights, account) == AccountWeight(active, account)
    ensures forall account :: (if account in counts then counts[account] else 0) == AccountCount(active, account)
    ensures total == TotalWeight(active)
  {
    hide Weight;
    weights, counts := map[], map[];
    for i := 0 to |active|
      invariant forall account :: At(weights, account) == AccountWeight(active[..i], account)
      invariant forall account :: (if account in counts then counts[account] else 0) == AccountCount(active[..i], account)
      invariant SumMap(weights) == TotalWeight(active[..i])
    {
      var account := active[i].account;
      assert active[..i + 1][..i] == active[..i];
      SumMapUpdate(weights, account, At(weights, account) + Weight(active[i]));
      weights := weights[account := At(weights, account) + Weight(active[i])];
      counts := counts[account := (if account in counts then counts[account] else 0) + 1];
    }
    assert active[..|active|] == active;
    total := SumValues(weights);
  }

  method SumValues(m: map<string, real>) returns (total: real)
    ensures total == SumMap(m)
  {
    total := 0.0;
    var rest := m;
    while rest != map[]
      invariant total + SumMap(rest) == SumMap(m)
      decreases |rest|
    {
      var k :| k in rest;
      SumMapRemove(rest, k);
      total := total + rest[k];
      rest := rest - {k};
    }
  }

  /** One pass over the active articles. */
  method BuildRows(active: seq<Article>, c: Closing) returns (rows: seq<Row>, missing: set<string>)
    ensures rows == RowsFor(active, c, active) && missing == MissingOffers(active)
  {
    hide RowFor, Portion;
    var weights, counts, total := AccountWeights(active);
    rows, missing := [], {};
    for i := 0 to |active|
      invariant rows == RowsFor(active, c, active[..i]) && missing == MissingOffers(active[..i])
    {
      var a := active[i];
      var count := if a.account in counts then counts[a.account] else 0;
      var w := Shares(Portion(Weight(a), At(weights, a.account), count), Portion(Weight(a), total, |active|));
      assert w == SharesOf(active, a);
      if CostMissing(a) { missing := missing + {Or(a.offer, a.sku)}; }
      MissingWithOneMore(active, i);
      rows := rows + [RowFor(c, a, w)];
    }
    assert active[..|active|] == active;
  }

  lemma MissingWithOneMore(active: seq<Article>, i: nat)
    requires i < |active|
    ensures MissingOffers(active[..i + 1]) ==
            MissingOffers(active[..i]) + if CostMissing(active[i]) then {Or(active[i].offer, active[i].sku)} else {}
  {
    hide CostMissing;
    assert active[..i + 1] == active[..i] + [active[i]];
  }

  /** Groups the rows by marketplace and offer and merges each group. */
  method MergeAcrossAccounts(rows: seq<Row>) returns (merged: seq<Row>)
    ensures merged == Merged(rows)
  {
    hide MergedRow;
    var groups: map<GroupKey, seq<Row>> := map[];
    var keys: seq<GroupKey> := [];
    for i := 0 to |rows|
      invariant keys == GroupKeys(rows[..i])
      invariant forall k :: k in groups <==> k in keys
      invariant forall k :: k in groups ==> groups[k] == GroupOf(rows[..i], k)
    {
      var r := rows[i];
      assert rows[..i + 1][..i] == rows[..i];
      GroupIsNonEmpty(rows[..i], KeyOf(r));
      if KeyOf(r) in groups {
        groups := groups[KeyOf(r) := groups[KeyOf(r)] + [r]];
      } else {
        keys := keys + [KeyOf(r)];
        groups := groups[KeyOf(r) := [r]];
      }
    }
    assert rows[..|rows|] == rows;
    merged := [];
    for i := 0 to |keys|
      invariant merged == Merged(rows)[..i]
    {
      assert keys[i] in groups;
      GroupIsNonEmpty(rows, keys[i]);
      merged := merged + [MergedRow(keys[i], groups[keys[i]])];
    }
  }

  /** The classes of one metric, from a running share of its total. */
  method Classify(rows: seq<Row>, m: Measure) returns (classes: map<RowKey, Class>)
    ensures classes == Classes(rows, m)
  {
    hide Sorted;
    var ordered := Sorted(rows, RankBy(m));
    var v := Values(ordered, m);
    var total := Sum(v);
    var cumulative := 0.0;
    classes := map[];
    for i := 0 to |ordered|
      invariant classes == ClassMap(ordered, m, i)
      invariant total > 0.0 ==> cumulative == Sum(v[..i]) / total
    {
      var key := KeyOfRow(ordered[i]);
      PrefixSum(v, i);
      var class_ := C;
      if total > 0.0 && v[i] > 0.0 {
        QuotientSum(Sum(v[..i]), v[i], total);
        cumulative := cumulative + v[i] / total;
        class_ := if cumulative <= 0.80 then A else if cumulative <= 0.95 then B else C;
      }
      classes := classes[key := class_];
    }
  }

  lemma QuotientSum(x: real, y: real, total: real)
    requires total > 0.0
    ensures x / total + y / total == (x + y) / total
  {
  }

  method Finish(articles: seq<Article>, c: Closing, merge: bool) returns (report: Report)
    ensures report == Finalized(articles, c, merge)
  {
    hide RowsFor, Merged, Classes, Sorted, MissingOffers, Round2;
    var active: seq<Article> := [];
    for i := 0 to |articles|
      invariant active == ActiveOf(articles[..i])
    {
      assert articles[..i + 1][..i] == articles[..i];
      if Active(articles[i]) { active := active + [articles[i]]; }
    }
    assert articles[..|articles|] == articles;
    var rows, missing := BuildRows(active, c);
    if merge { rows := MergeAcrossAccounts(rows); }
    var items := AssignClasses(rows);
    report := Report(items, missing, map m | m in REPORTED :: Round2(SumBy(items, AmountOf(m))));
  }

  method AssignClasses(rows: seq<Row>) returns (items: seq<Row>)
    ensures items == ItemsOf(rows)
  {
    hide Classes, Sorted;
    var revenue := Classify(rows, NetRevenueRub);
    var profit := Classify(rows, NetProfitRub);
    var classified: seq<Row> := [];
    for i := 0 to |rows|
      invariant classified == WithClasses(rows)[..i]
    {
      ClassifiedRow(rows, NetRevenueRub, rows[i]);
      ClassifiedRow(rows, NetProfitRub, rows[i]);
      var key := KeyOfRow(rows[i]);
      classified := classified + [rows[i].(revenueClass := revenue[key], profitClass := profit[key])];
    }
    assert classified == WithClasses(rows);
    items := Sorted(classified, FinalRank());
  }
}
