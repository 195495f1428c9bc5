/** What the columns of the article report are, told of the articles and the closing alone. */
module ReportColumns {
  import opened Wrappers
  import opened Sums
  import opened Money
  import opened Sorting
  import opened Abc
  import opened ArticleEngine
  import opened ArticleShares
  import opened ArticleReport

  // ----- Columns of one article -----

  /** Cost of goods: the positive cost of a unit for every unit sold that did not come back. */
  function GoodsCost(a: Article): real {
    if a.cost.Some? && a.cost.value > 0.0 then a.cost.value * (a.salesQty - a.returnsQty) as real else 0.0
  }

  /** What the marketplace left of an article's money: sales less returns, and its fees. */
  function Left(a: Article): real {
    a.money.sales - Abs(a.money.returned) +
    (a.money.commission + a.money.acquiring + a.money.logistics + a.money.reverse + a.money.storage + a.money.other)
  }

  /** The exact amount of a column for an article with some share of its account and of the organisation. */
  function Column(c: Closing, a: Article, account: real, org: real, m: Measure): real {
    var overhead, ad, tax := At(c.mp, a.account) * account, At(c.ad, a.account) * account, Abs(At(c.taxes, a.account)) * account;
    match m
    case SalesRub => a.money.sales
    case ReturnsRub => Abs(a.money.returned)
    case NetRevenueRub => a.money.sales - Abs(a.money.returned)
    case CommissionRub => a.money.commission
    case AcquiringRub => a.money.acquiring
    case LogisticsRub => a.money.logistics
    case ReverseRub => a.money.reverse
    case StorageRub => a.money.storage
    case OtherFeesRub => a.money.other
    case OverheadRub => overhead
    case NetAccruedRub => Left(a) + overhead
    case CogsRub => GoodsCost(a)
    case DirectAdRub => a.directAd
    case AllocatedAdRub => ad
    case TotalAdRub => a.directAd + ad
    case GrossProfitRub => Left(a) + overhead - GoodsCost(a)
    case IndirectRub => c.indirect * org
    case OperatingProfitRub => Left(a) + overhead - GoodsCost(a) - a.directAd - ad - c.indirect * org
    case TaxRub => tax
    case NetProfitRub => Left(a) + overhead - GoodsCost(a) - a.directAd - ad - c.indirect * org - tax
  }

  /** Every figure of a row is that column. */
  lemma FigureIs(c: Closing, a: Article, w: Shares, m: Measure)
    ensures Figure(c, a, w, m) == Column(c, a, w.account, w.org, m)
  {
    CogsIs(a);
    hide Cogs, GoodsCost;
    var overhead, ad := At(c.mp, a.account) * w.account, At(c.ad, a.account) * w.account;
    var tax, indirect := Abs(At(c.taxes, a.account)) * w.account, c.indirect * w.org;
    assert Overhead(c, a, w) == overhead && AllocatedAd(c, a, w) == ad && Tax(c, a, w) == tax && Indirect(c, a, w) == indirect;
    hide Overhead, AllocatedAd, Tax, Indirect;
  }

  lemma CogsIs(a: Article)
    ensures Cogs(a) == GoodsCost(a)
  {
    assert a.NetQty() == a.salesQty - a.returnsQty;
  }

  /** An article whose sales all came back costs nothing, and neither does one without a known cost; each
      unit that comes back takes its cost with it. */
  lemma GoodsCostOf(a: Article)
    ensures a.salesQty == a.returnsQty ==> GoodsCost(a) == 0.0
    ensures a.cost.None? || a.cost.value <= 0.0 ==> GoodsCost(a) == 0.0
    ensures a.cost.Some? && a.cost.value > 0.0 ==>
      GoodsCost(a.(returnsQty := a.returnsQty + 1)) == GoodsCost(a) - a.cost.value &&
      GoodsCost(a.(salesQty := a.salesQty + 1)) == GoodsCost(a) + a.cost.value
  {
    if a.cost.Some? { UnitMore(a.cost.value, a.salesQty - a.returnsQty); }
  }

  lemma UnitMore(x: real, n: int)
    ensures x * (n + 1) as real == x * n as real + x && x * (n - 1) as real == x * n as real - x
    ensures n == 0 ==> x * n as real == 0.0
  {
    assert (n + 1) as real == n as real + 1.0 && (n - 1) as real == n as real - 1.0;
  }

  // ----- Shares -----

  function PositiveRevenue(a: Article): real {
    var revenue := a.money.sales - Abs(a.money.returned);
    if revenue > 0.0 then revenue else 0.0
  }

  /** The positive net revenue of the articles, of one account or of all. */
  function RevenueOf(active: seq<Article>, account: Option<string>): real {
    if active == [] then 0.0
    else
      var last := active[|active| - 1];
      RevenueOf(active[..|active| - 1], account) +
      if account.None? || account.value == last.account then PositiveRevenue(last) else 0.0
  }

  function CountOf(active: seq<Article>, account: Option<string>): nat {
    if active == [] then 0
    else
      var last := active[|active| - 1];
      CountOf(active[..|active| - 1], account) + if account.None? || account.value == last.account then 1 else 0
  }

  lemma {:induction false} WeightsAre(active: seq<Article>, account: string)
    ensures AccountWeight(active, account) == RevenueOf(active, Some(account)) && AccountCount(active, account) == CountOf(active, Some(account))
    ensures TotalWeight(active) == RevenueOf(active, None) && |active| == CountOf(active, None)
  {
    if active != [] { WeightsAre(active[..|active| - 1], account); }
  }

  /** A share is the article's part of the positive net revenue; without any revenue all articles have
      the same share. */
  predicate IsShare(share: real, own: real, whole: real, count: nat) {
    if whole > 0.0 then share * whole == own else count > 0 ==> share * count as real == 1.0
  }

  lemma SharesAre(active: seq<Article>, a: Article)
    ensures IsShare(AccountShare(active, a), PositiveRevenue(a), RevenueOf(active, Some(a.account)), CountOf(active, Some(a.account)))
    ensures IsShare(OrgShare(active, a), PositiveRevenue(a), RevenueOf(active, None), |active|)
  {
    WeightsAre(active, a.account);
    PortionIs(Weight(a), AccountWeight(active, a.account), AccountCount(active, a.account));
    PortionIs(Weight(a), TotalWeight(active), |active|);
  }

  lemma PortionIs(weight: real, whole: real, count: nat)
    ensures IsShare(Portion(weight, whole, count), weight, whole, count)
  {
  }

  // ----- Totals -----

  lemma {:induction false} GoodsOfRows(active: seq<Article>, c: Closing, rows: seq<Article>)
    ensures FigureSum(active, c, rows, CogsRub) == SumBy(rows, GoodsCost)
    ensures FigureSum(active, c, rows, DirectAdRub) == SumBy(rows, (a: Article) => a.directAd)
    ensures FigureSum(active, c, rows, NetRevenueRub) == SumBy(rows, (a: Article) => a.money.sales - Abs(a.money.returned))
    ensures FigureSum(active, c, rows, TotalAdRub) ==
            FigureSum(active, c, rows, DirectAdRub) + FigureSum(active, c, rows, AllocatedAdRub)
    ensures NetSum(rows) == SumBy(rows, Left)
  {
    hide Figure, SharesOf, GoodsCost;
    if rows != [] {
      var n := |rows| - 1;
      GoodsOfRows(active, c, rows[..n]);
      ColumnsOfOne(c, rows[n], SharesOf(active, rows[n]));
    }
  }

  lemma ColumnsOfOne(c: Closing, a: Article, w: Shares)
    ensures Figure(c, a, w, CogsRub) == GoodsCost(a) && Figure(c, a, w, DirectAdRub) == a.directAd
    ensures Figure(c, a, w, NetRevenueRub) == a.money.sales - Abs(a.money.returned)
    ensures Figure(c, a, w, TotalAdRub) == Figure(c, a, w, DirectAdRub) + Figure(c, a, w, AllocatedAdRub)
    ensures a.money.Net() == Left(a)
  {
    CogsIs(a);
    hide AllocatedAd, Cogs, GoodsCost;
  }

  /** The pools of the accounts that have an active article. */
  ghost function Taken(pools: map<string, real>, active: seq<Article>): real {
    SumMap(map account | account in pools && CountOf(active, Some(account)) > 0 :: pools[account])
  }

  lemma TakenIs(pools: map<string, real>, active: seq<Article>)
    ensures SumMap(Served(pools, active)) == Taken(pools, active)
  {
    hide AccountCount, CountOf;
    forall account ensures AccountCount(active, account) == CountOf(active, Some(account)) { WeightsAre(active, account); }
    assert Served(pools, active) == map account | account in pools && CountOf(active, Some(account)) > 0 :: pools[account];
  }

  function Absolute(taxes: map<string, real>): map<string, real> {
    map account | account in taxes :: if taxes[account] < 0.0 then -taxes[account] else taxes[account]
  }

  /** The exact total of a reported column, from the active articles and the closing. */
  ghost function ExactTotal(active: seq<Article>, c: Closing, m: Measure): real {
    var accrued := SumBy(active, Left) + Taken(c.mp, active);
    var ads := SumBy(active, (a: Article) => a.directAd) + Taken(c.ad, active);
    var goods, taxes := SumBy(active, GoodsCost), Taken(Absolute(c.taxes), active);
    var indirect := if active == [] then 0.0 else c.indirect;
    match m
    case NetRevenueRub => SumBy(active, (a: Article) => a.money.sales - Abs(a.money.returned))
    case NetAccruedRub => accrued
    case CogsRub => goods
    case TotalAdRub => ads
    case IndirectRub => indirect
    case TaxRub => taxes
    case NetProfitRub => accrued - goods - ads - indirect - taxes
    case _ => 0.0
  }

  lemma NoRowsNoIndirect(c: Closing)
    ensures FigureSum([], c, [], IndirectRub) == 0.0
  {
  }

  lemma ChargesTaken(active: seq<Article>, c: Closing)
    ensures FigureSum(active, c, active, OverheadRub) == Taken(c.mp, active)
    ensures FigureSum(active, c, active, AllocatedAdRub) == Taken(c.ad, active)
    ensures FigureSum(active, c, active, TaxRub) == Taken(Absolute(c.taxes), active)
    ensures FigureSum(active, c, active, IndirectRub) == if active == [] then 0.0 else c.indirect
  {
    hide FigureSum, Served, SumMap, Taken;
    assert AbsAll(c.taxes) == Absolute(c.taxes);
    ChargesAreSharedOut(active, c);
    TakenIs(c.mp, active);
    TakenIs(c.ad, active);
    TakenIs(AbsAll(c.taxes), active);
    if active == [] { NoRowsNoIndirect(c); }
  }

  lemma AccrualsAre(active: seq<Article>, c: Closing)
    ensures FigureSum(active, c, active, NetAccruedRub) == SumBy(active, Left) + FigureSum(active, c, active, OverheadRub)
  {
    hide FigureSum, GoodsCost, Left, NetSum, TakenFrom, OrgShares;
    GoodsOfRows(active, c, active);
    SumsOfShared(active, c, active);
  }

  lemma TotalsAreExact(active: seq<Article>, c: Closing, m: Measure)
    requires m in REPORTED
    ensures FigureSum(active, c, active, m) == ExactTotal(active, c, m)
  {
    hide FigureSum, Taken, GoodsCost, Left, NetSum, Absolute;
    GoodsOfRows(active, c, active);
    AccrualsAre(active, c);
    ChargesTaken(active, c);
    ProfitIsWhatRemains(active, c, active);
  }

  /** Each reported total is within half a cent per active article of what the articles and the closing
      come to: revenue, accruals with the pools that were taken, cost of goods, advertising, indirect
      expenses, taxes, and the profit that is left of them. */
  lemma ReportedTotals(articles: seq<Article>, c: Closing, merge: bool, m: Measure)
    requires m in REPORTED
    ensures var active := ActiveOf(articles);
      Abs(Finalized(articles, c, merge).totals[m] - ExactTotal(active, c, m)) <= HalfCents(|active|)
  {
    hide Finalized, FigureSum, ExactTotal, ActiveOf;
    TotalsAreWithinHalfACentPerRow(articles, c, merge, m);
    TotalsAreExact(ActiveOf(articles), c, m);
  }

  // ----- Rows -----

  /** The article takes part: something was sold or came back, or an amount is above half a cent. */
  predicate TakesPart(a: Article) {
    a.salesQty > 0 || a.returnsQty > 0 || Abs(a.money.sales) > 0.005 || a.directAd > 0.005 ||
    Abs(a.money.commission + a.money.acquiring + a.money.logistics + a.money.reverse + a.money.storage + a.money.other) > 0.005
  }

  lemma {:induction false} ActiveAre(articles: seq<Article>, a: Article)
    ensures a in ActiveOf(articles) <==> a in articles && TakesPart(a)
  {
    hide Abs;
    if articles != [] {
      var n := |articles| - 1;
      ActiveAre(articles[..n], a);
      assert articles == articles[..n] + [articles[n]];
      assert Active(articles[n]) <==> TakesPart(articles[n]);
    }
  }

  /** What a row shows of its article; the shares are those of `SharesAre`. */
  ghost predicate RowShows(r: Row, c: Closing, a: Article, w: Shares) {
    && r.marketplace == a.marketplace && r.account == a.account && r.sku == a.sku
    && r.offer == (if a.offer != "" then a.offer else a.sku) && r.title == a.title && r.image == a.image
    && r.salesQty == a.salesQty && r.returnsQty == a.returnsQty && r.netQty == a.salesQty - a.returnsQty
    && (forall m: Measure :: NearestCent(At(r.amounts, m), Column(c, a, w.account, w.org, m)))
    && (r.missingCost <==> (a.salesQty > 0 || a.returnsQty > 0) && (a.cost.None? || a.cost.value <= 0.0))
    && (r.unitCost.Some? <==> a.cost.Some? && a.cost.value > 0.0)
    && (r.unitCost.Some? ==> NearestCent(r.unitCost.value, a.cost.value))
    && IsRatio(r.margin, Column(c, a, w.account, w.org, NetProfitRub), Column(c, a, w.account, w.org, NetRevenueRub), 0.0)
    && (r.markup.Some? <==> GoodsCost(a) > 0.0)
    && (r.markup.Some? ==> IsRatio(r.markup.value, Column(c, a, w.account, w.org, NetProfitRub), GoodsCost(a), 0.0))
  }

  ghost predicate NearestCent(shown: real, exact: real) {
    WholeCents(shown) && Abs(shown - exact) <= HALF_CENT
  }

  /** A percentage, rounded to two decimals; without a positive whole it is the default. */
  ghost predicate IsRatio(shown: real, part: real, whole: real, otherwise: real) {
    if whole > 0.0 then NearestCent(shown, part / whole * 100.0) else shown == otherwise
  }

  lemma RoundIsNear(x: real)
    ensures NearestCent(Round2(x), x)
  {
    hide Round2, WholeCents;
    Round2IsNearest(x, 0);
  }

  lemma PercentIsNear(part: real, whole: real)
    requires whole != 0.0
    ensures NearestCent(Percent(part, whole), part / whole * 100.0)
  {
    hide Round2, NearestCent;
    RoundIsNear(part / whole * 100.0);
  }

  lemma RowForShows(c: Closing, a: Article, w: Shares)
    ensures RowShows(RowFor(c, a, w), c, a, w)
  {
    hide Figure, Column, Round2, Percent, NearestCent, GoodsCost, Cogs;
    var r := RowFor(c, a, w);
    forall m: Measure ensures NearestCent(At(r.amounts, m), Column(c, a, w.account, w.org, m)) {
      FigureIs(c, a, w, m);
      RoundIsNear(Figure(c, a, w, m));
    }
    if UnitCost(a).Some? { RoundIsNear(UnitCost(a).value); }
    CogsIs(a);
    ProfitAndRevenue(c, a, w);
    if a.NetRevenue() > 0.0 { PercentIsNear(NetProfit(c, a, w), a.NetRevenue()); }
    if Cogs(a) > 0.0 { PercentIsNear(NetProfit(c, a, w), Cogs(a)); }
  }

  lemma ProfitAndRevenue(c: Closing, a: Article, w: Shares)
    ensures NetProfit(c, a, w) == Column(c, a, w.account, w.org, NetProfitRub)
    ensures a.NetRevenue() == Column(c, a, w.account, w.org, NetRevenueRub)
  {
    FigureIs(c, a, w, NetProfitRub);
    FigureIs(c, a, w, NetRevenueRub);
  }

  /** The rows of a report are those of the articles that take part, one each and in their order. */
  lemma RowsShowArticles(articles: seq<Article>, c: Closing, i: nat)
    requires i < |ActiveOf(articles)|
    ensures var active := ActiveOf(articles); var a := active[i];
      a in articles && TakesPart(a) && RowShows(RowsFor(active, c, active)[i], c, a, SharesOf(active, a))
  {
    hide RowFor, RowShows, SharesOf, TakesPart;
    var active := ActiveOf(articles);
    ActiveAre(articles, active[i]);
    RowForShows(c, active[i], SharesOf(active, active[i]));
  }

  /** The article was sold or came back without a positive cost, and is listed under that offer. */
  predicate LacksCost(a: Article, offer: string) {
    (a.salesQty > 0 || a.returnsQty > 0) && (a.cost.None? || a.cost.value <= 0.0) &&
    offer == if a.offer != "" then a.offer else a.sku
  }

  /** Offers without a cost are those of articles that were sold or came back without a positive cost. */
  lemma MissingAre(articles: seq<Article>, c: Closing, merge: bool, offer: string)
    ensures offer in Finalized(articles, c, merge).missing <==> exists a :: a in articles && LacksCost(a, offer)
  {
    hide ItemsOf, Merged, RowsFor, TotalsOf;
    forall a ensures a in ActiveOf(articles) <==> a in articles && TakesPart(a) { ActiveAre(articles, a); }
    if a :| a in articles && LacksCost(a, offer) {
      assert a in ActiveOf(articles) && CostMissing(a);
    }
  }

  // ----- Merged rows -----

  /** The title is the first that is not empty, in the order of the group. */
  lemma {:induction false} TitleIs(group: seq<Row>)
    ensures FirstTitle(group) == "" <==> forall i :: 0 <= i < |group| ==> group[i].title == ""
    ensures FirstTitle(group) != "" ==>
      exists i :: 0 <= i < |group| && group[i].title == FirstTitle(group) && forall j :: 0 <= j < i ==> group[j].title == ""
  {
    if group != [] {
      TitleIs(group[1..]);
      if group[0].title == "" && FirstTitle(group) != "" {
        var i :| 0 <= i < |group[1..]| && group[1..][i].title == FirstTitle(group) &&
          forall j :: 0 <= j < i ==> group[1..][j].title == "";
        assert group[i + 1].title == FirstTitle(group);
        assert forall j :: 0 <= j < i + 1 ==> group[j].title == "" by {
          forall j | 0 <= j < i + 1 ensures group[j].title == "" { if j > 0 { assert group[1..][j - 1] == group[j]; } }
        }
      }
      if FirstTitle(group) == "" {
        forall i | 0 <= i < |group| ensures group[i].title == "" { if i > 0 { assert group[1..][i - 1] == group[i]; } }
      }
    }
  }

  /** What a merged row shows of a group of several rows. */
  ghost predicate MergedShows(r: Row, key: GroupKey, group: seq<Row>)
    requires group != []
  {
    var revenue, goods := SumBy(group, AmountOf(NetRevenueRub)), SumBy(group, AmountOf(CogsRub));
    var profit := SumBy(group, AmountOf(NetProfitRub));
    && (r.marketplace, r.account, r.offer) == (key.0, "all", key.1) && r.title == FirstTitle(group)
    && (forall m: Measure :: At(r.amounts, m) == SumBy(group, AmountOf(m)))
    && r.salesQty == SumQty(group, true) && r.returnsQty == SumQty(group, false) && r.netQty == r.salesQty - r.returnsQty
    && (r.missingCost <==> exists i :: 0 <= i < |group| && group[i].missingCost)
    && IsRatio(r.margin, profit, revenue, 0.0)
    && (r.markup.Some? <==> goods > 0.0) && (r.markup.Some? ==> IsRatio(r.markup.value, profit, goods, 0.0))
    && (if r.netQty > 0 && goods > 0.0 then r.unitCost.Some? && NearestCent(r.unitCost.value, goods / r.netQty as real)
        else r.unitCost == group[0].unitCost)
  }

  lemma MergedRowShows(key: GroupKey, group: seq<Row>)
    requires |group| > 1 && Rounded(group)
    ensures MergedShows(MergedRow(key, group), key, group)
  {
    hide Round2, Percent, NearestCent, SumBy, SumQty, WholeCents;
    var revenue, goods := SumBy(group, AmountOf(NetRevenueRub)), SumBy(group, AmountOf(CogsRub));
    var profit, net := SumBy(group, AmountOf(NetProfitRub)), SumQty(group, true) - SumQty(group, false);
    forall m: Measure ensures At(MergedRow(key, group).amounts, m) == SumBy(group, AmountOf(m)) { MergedAmount(key, group, m); }
    if revenue > 0.0 { PercentIsNear(profit, revenue); }
    if goods > 0.0 { PercentIsNear(profit, goods); }
    if net > 0 && goods > 0.0 { RoundIsNear(goods / net as real); }
  }

  // ----- The order of the report -----

  /** Items come with the highest net revenue first, and the highest net profit among equals. */
  lemma ItemsAreOrdered(articles: seq<Article>, c: Closing, merge: bool, i: nat, j: nat)
    requires i < j < |Finalized(articles, c, merge).items|
    ensures var items := Finalized(articles, c, merge).items;
      var (x, y) := (At(items[i].amounts, NetRevenueRub), At(items[j].amounts, NetRevenueRub));
      x > y || (x == y && At(items[i].amounts, NetProfitRub) >= At(items[j].amounts, NetProfitRub))
  {
    hide Merged, RowsFor, TotalsOf, ActiveOf, MissingOffers, WithClasses, Sorted, At;
    var active := ActiveOf(articles);
    var raw := RowsFor(active, c, active);
    var rows := WithClasses(if merge then Merged(raw) else raw);
    SortedIsStable(rows, FinalRank(), (0.0, 0.0));
    assert AtLeast(FinalRank()(Sorted(rows, FinalRank())[i]), FinalRank()(Sorted(rows, FinalRank())[j]));
  }

  // ----- Groups and classes -----

  predicate IsOffer(r: Row, key: GroupKey) {
    r.marketplace == key.0 && key.1 == if r.offer != "" then r.offer else r.sku
  }

  /** Rows are merged by marketplace and offer: a group holds exactly the rows of its own, in their order,
      and there is a group for every row. */
  lemma {:induction false} GroupsAreOffers(rows: seq<Row>, key: GroupKey, r: Row)
    ensures r in GroupOf(rows, key) <==> r in rows && IsOffer(r, key)
    ensures key in GroupKeys(rows) <==> exists i :: 0 <= i < |rows| && IsOffer(rows[i], key)
  {
    if rows != [] {
      var n := |rows| - 1;
      GroupsAreOffers(rows[..n], key, r);
      assert rows == rows[..n] + [rows[n]];
      assert forall i :: 0 <= i < n ==> rows[..n][i] == rows[i];
    }
  }

  /** Every item of a report carries the class by net revenue and the class by net profit of its key. */
  lemma ItemsCarryClasses(articles: seq<Article>, c: Closing, merge: bool, item: Row)
    requires item in Finalized(articles, c, merge).items
    ensures var active := ActiveOf(articles); var raw := RowsFor(active, c, active);
      var rows := if merge then Merged(raw) else raw; var key := KeyOfRow(item);
      key in Classes(rows, NetRevenueRub) && item.revenueClass == Classes(rows, NetRevenueRub)[key] &&
      key in Classes(rows, NetProfitRub) && item.profitClass == Classes(rows, NetProfitRub)[key]
  {
    hide Merged, RowsFor, TotalsOf, ActiveOf, MissingOffers, Sorted, Classes;
    var active := ActiveOf(articles);
    var raw := RowsFor(active, c, active);
    var rows := if merge then Merged(raw) else raw;
    SortedIsStable(WithClasses(rows), FinalRank(), (0.0, 0.0));
    assert item in multiset(Sorted(WithClasses(rows), FinalRank()));
    assert item in WithClasses(rows);
    var i :| 0 <= i < |rows| && WithClasses(rows)[i] == item;
    ClassifiedRow(rows, NetRevenueRub, rows[i]);
    ClassifiedRow(rows, NetProfitRub, rows[i]);
  }
}
