/** The mutable streaming engine, each operation proved against its meaning. */
module StreamingEngine {
  import opened Wrappers
  import opened Sums
  import opened Money
  import opened Text
  import opened ArticleEngine
  import opened ArticleShares
  import opened ArticleReport

  class ArticleAccumulator {
    const account: string
    const marketplace: string
    const sku: string
    var offer: string
    var title: string
    var image: Option<string>
    var cost: Option<real>
    var salesQty: int
    var returnsQty: int
    var money: Amounts
    var directAd: real

    constructor (c: Card)
      ensures Value() == FirstArticle(c)
    {
      account, marketplace, sku := c.account, c.marketplace, Strip(c.sku);
      offer, title, image, cost := Strip(c.offer), c.title, c.image, c.cost;
      salesQty, returnsQty, money, directAd := 0, 0, NO_AMOUNTS, 0.0;
    }

    function Value(): Article
      reads this
    {
      Article(account, marketplace, sku, offer, title, image, cost, salesQty, returnsQty, money, directAd)
    }

    method Enrich(c: Card)
      modifies this
      ensures Value() == Enriched(old(Value()), c)
    {
      if Strip(c.offer) != "" && offer == "" { offer := Strip(c.offer); }
      if c.title != "" && title == "" { title := c.title; }
      if Present(c.image) && !Present(image) { image := c.image; }
      if c.cost.Some? && c.cost.value > 0.0 { cost := c.cost; }
    }

    method Receive(m: Movement)
      modifies this
      ensures Value() == Moved(old(Value()), m)
    {
      salesQty := salesQty + m.salesQty;
      returnsQty := returnsQty + m.returnsQty;
      money := money.Plus(m.money);
    }

    method ReceiveAd(cost: real)
      modifies this
      ensures Value() == old(Value()).(directAd := old(Value()).directAd + Abs(cost))
    {
      directAd := directAd + Abs(cost);
    }
  }

  /** The values of the accumulators. */
  ghost function ValuesOf(items: map<ArticleKey, ArticleAccumulator>): map<ArticleKey, Article>
    reads items.Values
  {
    map k | k in items :: items[k].Value()
  }

  ghost predicate Distinct(items: map<ArticleKey, ArticleAccumulator>) {
    forall k, l :: k in items && l in items && k != l ==> items[k] != items[l]
  }

  class ArticleEconomicsEngine {
    var items: map<ArticleKey, ArticleAccumulator>
    var order: seq<ArticleKey>
    var offers: map<ArticleKey, string>
    var unallocatedMp: map<string, real>
    var unallocatedAd: map<string, real>
    var attributed: real

    constructor ()
      ensures Distinct(items) && State() == EMPTY
    {
      items, order, offers, unallocatedMp, unallocatedAd, attributed := map[], [], map[], map[], map[], 0.0;
    }

    ghost function State(): State
      reads this, items.Values
    {
      ArticleEngine.State(ValuesOf(items), order, offers, unallocatedMp, unallocatedAd, attributed)
    }

    /** Known accumulators stay where they are. */
    twostate predicate Kept()
      reads this
    {
      forall k :: k in items ==> (k in old(items) && items[k] == old(items[k])) || fresh(items[k])
    }

    method RegisterCard(c: Card) returns (acc: ArticleAccumulator)
      requires Distinct(items)
      modifies this, items.Values
      ensures Distinct(items) && State() == Register(old(State()), c) && Kept()
      ensures CardKey(c) in items && acc == items[CardKey(c)]
    {
      hide ArticleAccumulator.Value, FirstArticle, Enriched, Strip;
      var key := CardKey(c);
      ghost var before := ValuesOf(items);
      if key !in items {
        acc := new ArticleAccumulator(c);
        items := items[key := acc];
        order := order + [key];
        assert ValuesOf(items) == before[key := FirstArticle(c)];
      } else {
        acc := items[key];
        acc.Enrich(c);
        assert ValuesOf(items) == before[key := Enriched(before[key], c)];
      }
      if Strip(c.offer) != "" {
        offers := offers[(c.account, Strip(c.offer)) := Strip(c.sku)];
      }
    }

    method ResolveSku(account: string, text: string) returns (sku: string)
      ensures sku == Resolve(State(), account, text)
    {
      var candidate := Strip(text);
      if (account, candidate) in items { return candidate; }
      sku := if (account, candidate) in offers then offers[(account, candidate)] else candidate;
    }

    method AddLineMovement(m: Movement) returns (delta: real)
      requires Distinct(items)
      modifies this, items.Values
      ensures Distinct(items) && State() == Move(old(State()), m) && Kept()
      ensures delta == m.money.Net()
    {
      hide State, Moved, Register, Strip, Amounts.Net;
      ghost var before := State();
      var sku := ResolveSku(m.account, if m.sku != "" then m.sku else m.offer);
      var c := Card(m.account, m.marketplace, sku, m.offer, m.title, None, None);
      var acc := RegisterCard(c);
      RegisterKeepsPools(before, c);
      delta := m.money.Net();
      ReceiveAt(CardKey(c), m, delta);
    }

    /** Adds a movement to the accumulator under a key and to the running total. */
    method ReceiveAt(key: ArticleKey, m: Movement, delta: real)
      requires Distinct(items) && key in items
      modifies this`attributed, items[key]
      ensures key in old(State()).items
      ensures State() == old(State()).(items := old(State()).items[key := Moved(old(State()).items[key], m)],
                                       attributed := old(State()).attributed + delta)
    {
      hide ArticleAccumulator.Value, Moved;
      ghost var known := ValuesOf(items);
      items[key].Receive(m);
      attributed := attributed + delta;
      assert ValuesOf(items) == known[key := Moved(known[key], m)];
    }

    method ProcessAccrualOperation(account: string, marketplace: string, total: real, lines: seq<Movement>)
      returns (delta: real)
      requires Distinct(items)
      modifies this, items.Values
      ensures Distinct(items) && State() == Operate(old(State()), account, marketplace, total, lines) && Kept()
      ensures delta == NetOfLines(Placed(account, marketplace, lines))
    {
      hide Move, Amounts.Net, ValuesOf;
      delta := 0.0;
      ghost var placed := Placed(account, marketplace, lines);
      for i := 0 to |lines|
        invariant Distinct(items) && Kept()
        invariant State() == MoveAll(old(State()), placed[..i]) && delta == NetOfLines(placed[..i])
      {
        var one := AddLineMovement(lines[i].(account := account, marketplace := marketplace));
        assert placed[..i + 1][..i] == placed[..i];
        delta := delta + one;
      }
      assert placed[..|lines|] == placed;
      var rest := total - delta;
      if Abs(rest) >= HALF_CENT {
        unallocatedMp := unallocatedMp[account := At(unallocatedMp, account) + rest];
      }
    }

    method AddUnallocatedMpFee(account: string, amount: real)
      modifies this
      ensures State() == AddFee(old(State()), account, amount) && items == old(items)
    {
      unallocatedMp := unallocatedMp[account := At(unallocatedMp, account) + amount];
    }

    method AddSkuAdCost(account: string, marketplace: string, sku: string, offer: string, cost: real)
      requires Distinct(items)
      modifies this, items.Values
      ensures Distinct(items) && State() == AddSkuAd(old(State()), account, marketplace, sku, offer, cost) && Kept()
    {
      hide State, Register, Strip;
      var resolved := ResolveSku(account, if sku != "" then sku else offer);
      var c := Card(account, marketplace, resolved, offer, "", None, None);
      var acc := RegisterCard(c);
      ReceiveAdAt(CardKey(c), cost);
    }

    method ReceiveAdAt(key: ArticleKey, cost: real)
      requires Distinct(items) && key in items
      modifies items[key]
      ensures key in old(State()).items
      ensures var a := old(State()).items[key];
        State() == old(State()).(items := old(State()).items[key := a.(directAd := a.directAd + Abs(cost))])
    {
      hide ArticleAccumulator.Value;
      ghost var known := ValuesOf(items);
      items[key].ReceiveAd(cost);
      assert ValuesOf(items) == known[key := known[key].(directAd := known[key].directAd + Abs(cost))];
    }

    method AddUnallocatedAdCost(account: string, cost: real)
      modifies this
      ensures State() == AddAd(old(State()), account, cost) && items == old(items)
    {
      unallocatedAd := unallocatedAd[account := At(unallocatedAd, account) + Abs(cost)];
    }

    /** The values of the accumulators as they were registered. */
    method Collect() returns (articles: seq<Article>)
      requires Ordered(State())
      ensures articles == Articles(State())
    {
      hide ArticleAccumulator.Value, Ordered;
      ghost var s := State();
      articles := [];
      for i := 0 to |order|
        invariant articles == Articles(s)[..i]
      {
        OrderedIsKnown(s, i);
        articles := articles + [items[order[i]].Value()];
      }
    }

    /** The report of the current state; nothing changes. */
    method Finalize(indirect: real, taxes: map<string, real>, merge: bool) returns (report: Report)
      requires Ordered(State())
      ensures report == Finalized(Articles(State()), Closing(unallocatedMp, unallocatedAd, indirect, taxes), merge)
    {
      hide State, Ordered, Finalized;
      var articles := Collect();
      report := Finish(articles, Closing(unallocatedMp, unallocatedAd, indirect, taxes), merge);
    }
  }

  lemma OrderedIsKnown(s: State, i: nat)
    requires Ordered(s) && i < |s.order|
    ensures s.order[i] in s.items
  {
  }
}
