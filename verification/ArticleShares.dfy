/** Overheads, advertising, taxes and indirect expenses shared out to the active articles. */
module ArticleShares {
  import opened Wrappers
  import opened Sums
  import opened Money
  import opened ArticleEngine

  predicate Active(a: Article) {
    || a.salesQty > 0
    || a.returnsQty > 0
    || Abs(a.money.sales) > HALF_CENT
    || Abs(a.money.Fees()) > HALF_CENT
    || a.directAd > HALF_CENT
  }

  function ActiveOf(articles: seq<Article>): seq<Article> {
    if articles == [] then []
    else
      var last := articles[|articles| - 1];
      ActiveOf(articles[..|articles| - 1]) + if Active(last) then [last] else []
  }

  function InactiveNet(articles: seq<Article>): real {
    if articles == [] then 0.0
    else
      var last := articles[|articles| - 1];
      InactiveNet(articles[..|articles| - 1]) + if Active(last) then 0.0 else last.money.Net()
  }

  // ----- Weights and shares -----

  function Weight(a: Article): (r: real)
    ensures r >= 0.0
  {
    if a.NetRevenue() > 0.0 then a.NetRevenue() else 0.0
  }

  function AccountWeight(active: seq<Article>, account: string): (r: real)
    ensures r >= 0.0
  {
    if active == [] then 0.0
    else
      var last := active[|active| - 1];
      AccountWeight(active[..|active| - 1], account) + if last.account == account then Weight(last) else 0.0
  }

  function AccountCount(active: seq<Article>, account: string): nat {
    if active == [] then 0
    else
      var last := active[|active| - 1];
      AccountCount(active[..|active| - 1], account) + if last.account == account then 1 else 0
  }

  function TotalWeight(active: seq<Article>): (r: real)
    ensures r >= 0.0
  {
    if active == [] then 0.0
    else TotalWeight(active[..|active| - 1]) + Weight(active[|active| - 1])
  }

  /** The part of `whole` that a weight makes up; without any weight everyone has the same part. */
  function Portion(weight: real, whole: real, count: nat): real {
    if whole > 0.0 then weight / whole else if count > 0 then 1.0 / count as real else 0.0
  }

  function AccountShare(active: seq<Article>, a: Article): real {
    Portion(Weight(a), AccountWeight(active, a.account), AccountCount(active, a.account))
  }

  function OrgShare(active: seq<Article>, a: Article): real {
    Portion(Weight(a), TotalWeight(active), |active|)
  }

  /** An article's shares of its account and of the organisation. */
  datatype Shares = Shares(account: real, org: real)

  function SharesOf(active: seq<Article>, a: Article): Shares {
    Shares(AccountShare(active, a), OrgShare(active, a))
  }

  /** The shares of the rows of one account, taken together. */
  function SharesWithin(active: seq<Article>, rows: seq<Article>, account: string): real {
    if rows == [] then 0.0
    else
      var last := rows[|rows| - 1];
      SharesWithin(active, rows[..|rows| - 1], account) +
      if last.account == account then AccountShare(active, last) else 0.0
  }

  function OrgShares(active: seq<Article>, rows: seq<Article>): real {
    if rows == [] then 0.0
    else OrgShares(active, rows[..|rows| - 1]) + OrgShare(active, rows[|rows| - 1])
  }

  lemma PortionsAdd(weight: real, more: real, whole: real, count: nat)
    requires whole > 0.0
    ensures Portion(weight + more, whole, count) == Portion(weight, whole, count) + Portion(more, whole, count)
  {
  }

  lemma {:induction false} SharesFollowWeights(active: seq<Article>, rows: seq<Article>, account: string)
    ensures var whole, count := AccountWeight(active, account), AccountCount(active, account);
      SharesWithin(active, rows, account) ==
        if whole > 0.0 then AccountWeight(rows, account) / whole
        else if count > 0 then AccountCount(rows, account) as real * (1.0 / count as real) else 0.0
  {
    var whole, count := AccountWeight(active, account), AccountCount(active, account);
    if rows != [] {
      var n := |rows| - 1;
      SharesFollowWeights(active, rows[..n], account);
      if rows[n].account == account {
        if whole > 0.0 {
          PortionsAdd(AccountWeight(rows[..n], account), Weight(rows[n]), whole, count);
        } else if count > 0 {
          OneMore(AccountCount(rows[..n], account), 1.0 / count as real);
        }
      }
    }
  }

  lemma OneMore(n: nat, part: real)
    ensures (n + 1) as real * part == n as real * part + part
  {
  }

  lemma WholeOverItself(whole: real)
    requires whole > 0.0
    ensures whole / whole == 1.0 && whole * (1.0 / whole) == 1.0
  {
  }

  /** The shares of an account with an active article sum to one, exactly. */
  lemma SharesSumToOne(active: seq<Article>, account: string)
    ensures SharesWithin(active, active, account) == if AccountCount(active, account) > 0 then 1.0 else 0.0
  {
    hide AccountWeight, AccountCount, SharesWithin;
    SharesFollowWeights(active, active, account);
    var whole, count := AccountWeight(active, account), AccountCount(active, account);
    if whole > 0.0 {
      WholeOverItself(whole);
      WeightNeedsCount(active, account);
    } else if count > 0 {
      WholeOverItself(count as real);
    }
  }

  lemma {:induction false} WeightNeedsCount(active: seq<Article>, account: string)
    ensures AccountWeight(active, account) > 0.0 ==> AccountCount(active, account) > 0
  {
    if active != [] { WeightNeedsCount(active[..|active| - 1], account); }
  }

  lemma {:induction false} OrgSharesFollowWeights(active: seq<Article>, rows: seq<Article>)
    ensures var whole, count := TotalWeight(active), |active|;
      OrgShares(active, rows) ==
        if whole > 0.0 then TotalWeight(rows) / whole
        else if count > 0 then |rows| as real * (1.0 / count as real) else 0.0
  {
    var whole, count := TotalWeight(active), |active|;
    if rows != [] {
      var n := |rows| - 1;
      OrgSharesFollowWeights(active, rows[..n]);
      if whole > 0.0 {
        PortionsAdd(TotalWeight(rows[..n]), Weight(rows[n]), whole, count);
      } else if count > 0 {
        OneMore(n, 1.0 / count as real);
      }
    }
  }

  /** So do the shares of the organisation. */
  lemma OrgSharesSumToOne(active: seq<Article>)
    requires active != []
    ensures OrgShares(active, active) == 1.0
  {
    hide TotalWeight, OrgShares;
    OrgSharesFollowWeights(active, active);
    if TotalWeight(active) > 0.0 { WholeOverItself(TotalWeight(active)); } else { WholeOverItself(|active| as real); }
  }

  // ----- Pools of the accounts -----

  /** What the rows take of their accounts' pools. */
  function TakenFrom(pools: map<string, real>, active: seq<Article>, rows: seq<Article>): real {
    if rows == [] then 0.0
    else
      var last := rows[|rows| - 1];
      TakenFrom(pools, active, rows[..|rows| - 1]) + At(pools, last.account) * AccountShare(active, last)
  }

  /** The pools of the accounts that have an active article. */
  function Served(pools: map<string, real>, active: seq<Article>): map<string, real> {
    map account | account in pools && AccountCount(active, account) > 0 :: pools[account]
  }

  /** The pools nobody takes. */
  function Idle(pools: map<string, real>, active: seq<Article>): map<string, real> {
    map account | account in pools && AccountCount(active, account) == 0 :: pools[account]
  }

  lemma {:induction false} TakenWithout(pools: map<string, real>, account: string, active: seq<Article>, rows: seq<Article>)
    requires account in pools
    ensures TakenFrom(pools, active, rows) ==
            TakenFrom(pools - {account}, active, rows) + pools[account] * SharesWithin(active, rows, account)
  {
    hide AccountShare;
    if rows != [] {
      var n := |rows| - 1;
      TakenWithout(pools, account, active, rows[..n]);
      TimesSum(pools[account], SharesWithin(active, rows[..n], account), AccountShare(active, rows[n]));
    }
  }

  lemma TimesSum(x: real, a: real, b: real)
    ensures x * (a + b) == x * a + x * b
  {
  }

  lemma {:induction false} NothingTaken(active: seq<Article>, rows: seq<Article>)
    ensures TakenFrom(map[], active, rows) == 0.0
  {
    hide AccountShare;
    if rows != [] { NothingTaken(active, rows[..|rows| - 1]); }
  }

  /** Every pool of an account with an active article is shared out exactly; the others stay idle. */
  lemma {:induction false} PoolsAreSharedOut(pools: map<string, real>, active: seq<Article>)
    ensures TakenFrom(pools, active, active) == SumMap(Served(pools, active))
    ensures SumMap(Served(pools, active)) + SumMap(Idle(pools, active)) == SumMap(pools)
    decreases |pools|
  {
    hide SumMap, TakenFrom, AccountCount, SharesWithin;
    if pools == map[] {
      NothingTaken(active, active);
      EmptySum(Served(pools, active));
      EmptySum(Idle(pools, active));
      EmptySum(pools);
    } else {
      var account :| account in pools;
      var rest := pools - {account};
      PoolsAreSharedOut(rest, active);
      TakenWithout(pools, account, active, active);
      SharesSumToOne(active, account);
      SumMapRemove(pools, account);
      if AccountCount(active, account) > 0 {
        SumMapRemove(Served(pools, active), account);
        assert Served(pools, active) - {account} == Served(rest, active);
        assert Idle(pools, active) == Idle(rest, active);
      } else {
        SumMapRemove(Idle(pools, active), account);
        assert Idle(pools, active) - {account} == Idle(rest, active);
        assert Served(pools, active) == Served(rest, active);
      }
    }
  }

  lemma EmptySum(m: map<string, real>)
    requires m.Keys == {}
    ensures SumMap(m) == 0.0
  {
    assert m == map[];
  }

  // ----- The figures of a row -----

  datatype Closing = Closing(mp: map<string, real>, ad: map<string, real>, indirect: real, taxes: map<string, real>)

  datatype Measure =
    | SalesRub | ReturnsRub | NetRevenueRub | CommissionRub | AcquiringRub | LogisticsRub | ReverseRub | StorageRub
    | OtherFeesRub | OverheadRub | NetAccruedRub | CogsRub | DirectAdRub | AllocatedAdRub | TotalAdRub
    | GrossProfitRub | IndirectRub | OperatingProfitRub | TaxRub | NetProfitRub

  function AbsAll(pools: map<string, real>): map<string, real> {
    map account | account in pools :: Abs(pools[account])
  }

  function UnitCost(a: Article): Option<real> {
    if a.cost.Some? && a.cost.value > 0.0 then a.cost else None
  }

  function Overhead(c: Closing, a: Article, w: Shares): real {
    At(c.mp, a.account) * w.account
  }

  function AllocatedAd(c: Closing, a: Article, w: Shares): real {
    At(c.ad, a.account) * w.account
  }

  function Indirect(c: Closing, a: Article, w: Shares): real {
    c.indirect * w.org
  }

  function Tax(c: Closing, a: Article, w: Shares): real {
    Abs(At(c.taxes, a.account)) * w.account
  }

  function Cogs(a: Article): real {
    if UnitCost(a).Some? then UnitCost(a).value * a.NetQty() as real else 0.0
  }

  function NetAccrued(c: Closing, a: Article, w: Shares): real {
    a.money.Net() + Overhead(c, a, w)
  }

  function TotalAd(c: Closing, a: Article, w: Shares): real {
    a.directAd + AllocatedAd(c, a, w)
  }

  function GrossProfit(c: Closing, a: Article, w: Shares): real {
    NetAccrued(c, a, w) - Cogs(a)
  }

  function OperatingProfit(c: Closing, a: Article, w: Shares): real {
    GrossProfit(c, a, w) - TotalAd(c, a, w) - Indirect(c, a, w)
  }

  function NetProfit(c: Closing, a: Article, w: Shares): real {
    OperatingProfit(c, a, w) - Tax(c, a, w)
  }

  /** The exact amount of an article before rounding. */
  function Figure(c: Closing, a: Article, w: Shares, m: Measure): real {
    match m
    case SalesRub => a.money.sales
    case ReturnsRub => Abs(a.money.returned)
    case NetRevenueRub => a.NetRevenue()
    case CommissionRub => a.money.commission
    case AcquiringRub => a.money.acquiring
    case LogisticsRub => a.money.logistics
    case ReverseRub => a.money.reverse
    case StorageRub => a.money.storage
    case OtherFeesRub => a.money.other
    case OverheadRub => Overhead(c, a, w)
    case NetAccruedRub => NetAccrued(c, a, w)
    case CogsRub => Cogs(a)
    case DirectAdRub => a.directAd
    case AllocatedAdRub => AllocatedAd(c, a, w)
    case TotalAdRub => TotalAd(c, a, w)
    case GrossProfitRub => GrossProfit(c, a, w)
    case IndirectRub => Indirect(c, a, w)
    case OperatingProfitRub => OperatingProfit(c, a, w)
    case TaxRub => Tax(c, a, w)
    case NetProfitRub => NetProfit(c, a, w)
  }

  /** The exact total of the rows. */
  function FigureSum(active: seq<Article>, c: Closing, rows: seq<Article>, m: Measure): real {
    if rows == [] then 0.0
    else FigureSum(active, c, rows[..|rows| - 1], m) + Figure(c, rows[|rows| - 1], SharesOf(active, rows[|rows| - 1]), m)
  }

  // ----- Conservation -----

  lemma {:induction false} ActiveNet(articles: seq<Article>)
    ensures NetSum(ActiveOf(articles)) + InactiveNet(articles) == NetSum(articles)
  {
    hide Amounts.Net, Active;
    if articles != [] {
      var n := |articles| - 1;
      ActiveNet(articles[..n]);
      if Active(articles[n]) {
        NetSumAppend(ActiveOf(articles[..n]), articles[n]);
      } else {
        assert ActiveOf(articles) == ActiveOf(articles[..n]);
      }
    }
  }

  lemma NetSumAppend(articles: seq<Article>, a: Article)
    ensures NetSum(articles + [a]) == NetSum(articles) + a.money.Net()
  {
    assert (articles + [a])[..|articles|] == articles;
  }

  lemma {:induction false} SumsOfShared(active: seq<Article>, c: Closing, rows: seq<Article>)
    ensures FigureSum(active, c, rows, OverheadRub) == TakenFrom(c.mp, active, rows)
    ensures FigureSum(active, c, rows, AllocatedAdRub) == TakenFrom(c.ad, active, rows)
    ensures FigureSum(active, c, rows, TaxRub) == TakenFrom(AbsAll(c.taxes), active, rows)
    ensures FigureSum(active, c, rows, IndirectRub) == c.indirect * OrgShares(active, rows)
    ensures FigureSum(active, c, rows, NetAccruedRub) == NetSum(rows) + FigureSum(active, c, rows, OverheadRub)
  {
    hide AccountShare, OrgShare, Amounts.Net, Figure, Overhead, AllocatedAd, Tax, Indirect, NetAccrued, At, AbsAll;
    if rows != [] {
      var n := |rows| - 1;
      SumsOfShared(active, c, rows[..n]);
      SharedFigures(active, c, rows[n]);
      TimesSum(c.indirect, OrgShares(active, rows[..n]), OrgShare(active, rows[n]));
    }
  }

  lemma SharedFigures(active: seq<Article>, c: Closing, a: Article)
    ensures Figure(c, a, SharesOf(active, a), OverheadRub) == At(c.mp, a.account) * AccountShare(active, a)
    ensures Figure(c, a, SharesOf(active, a), AllocatedAdRub) == At(c.ad, a.account) * AccountShare(active, a)
    ensures Figure(c, a, SharesOf(active, a), TaxRub) == At(AbsAll(c.taxes), a.account) * AccountShare(active, a)
    ensures Figure(c, a, SharesOf(active, a), IndirectRub) == c.indirect * OrgShare(active, a)
    ensures Figure(c, a, SharesOf(active, a), NetAccruedRub) == a.money.Net() + Figure(c, a, SharesOf(active, a), OverheadRub)
  {
    hide AccountShare, OrgShare, Amounts.Net;
    assert Abs(At(c.taxes, a.account)) == At(AbsAll(c.taxes), a.account);
  }

  /** Overheads, unattributed advertising and taxes go in full to the accounts' own rows, indirect
      expenses in full to the organisation. */
  lemma ChargesAreSharedOut(active: seq<Article>, c: Closing)
    ensures FigureSum(active, c, active, OverheadRub) == SumMap(Served(c.mp, active))
    ensures FigureSum(active, c, active, AllocatedAdRub) == SumMap(Served(c.ad, active))
    ensures FigureSum(active, c, active, TaxRub) == SumMap(Served(AbsAll(c.taxes), active))
    ensures active != [] ==> FigureSum(active, c, active, IndirectRub) == c.indirect
  {
    hide FigureSum, TakenFrom, Served, SumMap, OrgShares;
    SumsOfShared(active, c, active);
    PoolsAreSharedOut(c.mp, active);
    PoolsAreSharedOut(c.ad, active);
    PoolsAreSharedOut(AbsAll(c.taxes), active);
    if active != [] { OrgSharesSumToOne(active); }
  }

  /** The exact total of the rows of one account. */
  function FigureWithin(active: seq<Article>, c: Closing, rows: seq<Article>, account: string, m: Measure): real {
    if rows == [] then 0.0
    else
      var last := rows[|rows| - 1];
      FigureWithin(active, c, rows[..|rows| - 1], account, m) +
      if last.account == account then Figure(c, last, SharesOf(active, last), m) else 0.0
  }

  /** A figure that is the article's share of a pool adds up to the account's share of the pool. */
  lemma {:induction false} AccountTakesByShare(active: seq<Article>, c: Closing, rows: seq<Article>, account: string,
                                               m: Measure, pool: real)
    requires forall a :: a in rows && a.account == account ==>
      Figure(c, a, SharesOf(active, a), m) == pool * AccountShare(active, a)
    ensures FigureWithin(active, c, rows, account, m) == pool * SharesWithin(active, rows, account)
  {
    hide AccountShare, Figure, SharesOf;
    if rows != [] {
      var n := |rows| - 1;
      AccountTakesByShare(active, c, rows[..n], account, m, pool);
      TimesSum(pool, SharesWithin(active, rows[..n], account), AccountShare(active, rows[n]));
    }
  }

  /** The rows of every account with an active article take exactly the overhead, the advertising and
      the tax of that account; another account takes nothing. */
  lemma AccountTakesItsOwn(active: seq<Article>, c: Closing, account: string)
    ensures var takes := AccountCount(active, account) > 0;
      && FigureWithin(active, c, active, account, OverheadRub) == (if takes then At(c.mp, account) else 0.0)
      && FigureWithin(active, c, active, account, AllocatedAdRub) == (if takes then At(c.ad, account) else 0.0)
      && FigureWithin(active, c, active, account, TaxRub) == (if takes then Abs(At(c.taxes, account)) else 0.0)
  {
    hide FigureWithin, SharesWithin, AccountCount, Figure, AccountShare;
    forall a | a in active && a.account == account
      ensures Figure(c, a, SharesOf(active, a), OverheadRub) == At(c.mp, account) * AccountShare(active, a)
      ensures Figure(c, a, SharesOf(active, a), AllocatedAdRub) == At(c.ad, account) * AccountShare(active, a)
      ensures Figure(c, a, SharesOf(active, a), TaxRub) == At(AbsAll(c.taxes), account) * AccountShare(active, a)
    {
      SharedFigures(active, c, a);
    }
    AccountTakesByShare(active, c, active, account, OverheadRub, At(c.mp, account));
    AccountTakesByShare(active, c, active, account, AllocatedAdRub, At(c.ad, account));
    AccountTakesByShare(active, c, active, account, TaxRub, At(AbsAll(c.taxes), account));
    SharesSumToOne(active, account);
  }

  /** The exact net accrual of the report is the money the engine holds, less what inactive articles
      hold and less the pools of accounts without an active article. */
  lemma ReportHoldsTheMoney(s: State, c: Closing)
    requires Sound(s) && c.mp == s.unallocatedMp
    ensures var active := ActiveOf(Articles(s));
      FigureSum(active, c, active, NetAccruedRub) ==
      Held(s) - InactiveNet(Articles(s)) - SumMap(Idle(c.mp, active))
  {
    hide FigureSum, TakenFrom, Served, Idle, SumMap, OrgShares, NetSum, ActiveOf, InactiveNet;
    var active := ActiveOf(Articles(s));
    ActiveNet(Articles(s));
    SumsOfShared(active, c, active);
    PoolsAreSharedOut(c.mp, active);
  }

  /** Net profit is the net accrual less cost of goods, advertising, indirect expenses and taxes. */
  lemma {:induction false} ProfitIsWhatRemains(active: seq<Article>, c: Closing, rows: seq<Article>)
    ensures FigureSum(active, c, rows, NetProfitRub) ==
            FigureSum(active, c, rows, NetAccruedRub) - FigureSum(active, c, rows, CogsRub) -
            FigureSum(active, c, rows, DirectAdRub) - FigureSum(active, c, rows, AllocatedAdRub) -
            FigureSum(active, c, rows, IndirectRub) - FigureSum(active, c, rows, TaxRub)
  {
    hide Figure;
    if rows != [] {
      ProfitIsWhatRemains(active, c, rows[..|rows| - 1]);
      ProfitOfRow(c, rows[|rows| - 1], SharesOf(active, rows[|rows| - 1]));
    }
  }

  lemma ProfitOfRow(c: Closing, a: Article, w: Shares)
    ensures Figure(c, a, w, NetProfitRub) ==
            Figure(c, a, w, NetAccruedRub) - Figure(c, a, w, CogsRub) - Figure(c, a, w, DirectAdRub) -
            Figure(c, a, w, AllocatedAdRub) - Figure(c, a, w, IndirectRub) - Figure(c, a, w, TaxRub)
  {
    hide Overhead, AllocatedAd, Indirect, Tax, Cogs, Amounts.Net;
  }

  /** Money of an article that only has returns without a quantity appears in no row. */
  lemma ReturnsAloneAreNotReported()
    ensures var ops := [AddLine(Movement("acc", "wb", "1", "", "", 0, 0, NO_AMOUNTS.(returned := 100.0)))];
      && Held(Run(ops)) == -100.0
      && Ordered(Run(ops))
      && ActiveOf(Articles(Run(ops))) == []
  {
    var m := Movement("acc", "wb", "1", "", "", 0, 0, NO_AMOUNTS.(returned := 100.0));
    var ops := [AddLine(m)];
    assert ops[..0] == [];
    assert Run(ops) == Move(EMPTY, m);
    var key := ("acc", "1");
    var a := Moved(FirstArticle(CardOf(EMPTY, m)), m);
    assert CardKey(CardOf(EMPTY, m)) == key;
    assert Run(ops).items == map[key := a] && Run(ops).order == [key];
    assert Articles(Run(ops)) == [a] && !Active(a);
    assert [a][..0] == [];
  }
}
