/** The streaming engine of article economics: what its state means and what every run keeps. */
module ArticleEngine {
  import opened Wrappers
  import opened Sums
  import opened Money
  import opened Text

  /** An account and an article (or offer) of it. */
  type ArticleKey = (string, string)

  // ----- Articles -----

  datatype Amounts = Amounts(sales: real, returned: real, commission: real, acquiring: real, logistics: real,
                             reverse: real, storage: real, other: real)
  {
    function Fees(): real {
      commission + acquiring + logistics + reverse + storage + other
    }

    /** What the amounts leave after returns and fees; returns count with either sign. */
    function Net(): real {
      sales - Abs(returned) + Fees()
    }

    function Plus(more: Amounts): Amounts {
      Amounts(sales + more.sales, returned + Abs(more.returned), commission + more.commission,
              acquiring + more.acquiring, logistics + more.logistics, reverse + more.reverse,
              storage + more.storage, other + more.other)
    }
  }

  const NO_AMOUNTS := Amounts(0.0, 0.0, 0.0, 0.0, 0.0, 0.0, 0.0, 0.0)

  datatype Article = Article(account: string, marketplace: string, sku: string, offer: string, title: string,
                             image: Option<string>, cost: Option<real>,
                             salesQty: int, returnsQty: int, money: Amounts, directAd: real)
  {
    function NetQty(): int {
      salesQty - returnsQty
    }

    function NetRevenue(): real {
      money.sales - Abs(money.returned)
    }
  }

  datatype Card = Card(account: string, marketplace: string, sku: string, offer: string, title: string,
                       image: Option<string>, cost: Option<real>)

  datatype Movement = Movement(account: string, marketplace: string, sku: string, offer: string, title: string,
                               salesQty: int, returnsQty: int, money: Amounts)

  // ----- The state -----

  /** `order` lists the articles as they were registered. */
  datatype State = State(items: map<ArticleKey, Article>, order: seq<ArticleKey>, offers: map<ArticleKey, string>,
                         unallocatedMp: map<string, real>, unallocatedAd: map<string, real>, attributed: real)

  const EMPTY := State(map[], [], map[], map[], map[], 0.0)

  function FirstArticle(c: Card): Article {
    Article(c.account, c.marketplace, Strip(c.sku), Strip(c.offer), c.title, c.image, c.cost, 0, 0, NO_AMOUNTS, 0.0)
  }

  function Present(text: Option<string>): bool {
    text.Some? && text.value != ""
  }

  /** A known article takes only what it lacks, but always a positive cost. */
  function Enriched(a: Article, c: Card): Article {
    a.(offer := if a.offer == "" then Strip(c.offer) else a.offer,
       title := if a.title == "" then c.title else a.title,
       image := if Present(c.image) && !Present(a.image) then c.image else a.image,
       cost := if c.cost.Some? && c.cost.value > 0.0 then c.cost else a.cost)
  }

  function CardKey(c: Card): ArticleKey {
    (c.account, Strip(c.sku))
  }

  /** The article of a card is known or new; the offer index is not yet touched. */
  function Known(s: State, c: Card): State {
    var key := CardKey(c);
    if key in s.items then s.(items := s.items[key := Enriched(s.items[key], c)])
    else s.(items := s.items[key := FirstArticle(c)], order := s.order + [key])
  }

  function Register(s: State, c: Card): State {
    var known := Known(s, c);
    if Strip(c.offer) == "" then known
    else known.(offers := known.offers[(c.account, Strip(c.offer)) := Strip(c.sku)])
  }

  function Resolve(s: State, account: string, text: string): string {
    var candidate := Strip(text);
    if (account, candidate) in s.items then candidate
    else if (account, candidate) in s.offers then s.offers[(account, candidate)]
    else candidate
  }

  function CardOf(s: State, m: Movement): Card {
    Card(m.account, m.marketplace, Resolve(s, m.account, if m.sku != "" then m.sku else m.offer), m.offer, m.title, None, None)
  }

  function Moved(a: Article, m: Movement): Article {
    a.(salesQty := a.salesQty + m.salesQty, returnsQty := a.returnsQty + m.returnsQty, money := a.money.Plus(m.money))
  }

  function Move(s: State, m: Movement): State {
    var c := CardOf(s, m);
    var known := Register(s, c);
    known.(items := known.items[CardKey(c) := Moved(known.items[CardKey(c)], m)], attributed := s.attributed + m.money.Net())
  }

  function MoveAll(s: State, lines: seq<Movement>): State {
    if lines == [] then s else Move(MoveAll(s, lines[..|lines| - 1]), lines[|lines| - 1])
  }

  function NetOfLines(lines: seq<Movement>): real {
    if lines == [] then 0.0 else NetOfLines(lines[..|lines| - 1]) + lines[|lines| - 1].money.Net()
  }

  /** The lines of an operation belong to its account. */
  function Placed(account: string, marketplace: string, lines: seq<Movement>): (r: seq<Movement>)
    ensures |r| == |lines|
  {
    seq(|lines|, i requires 0 <= i < |lines| => lines[i].(account := account, marketplace := marketplace))
  }

  /** One accrual operation: what its lines do not explain stays with the account, unless it is
      smaller than half a cent. */
  function Operate(s: State, account: string, marketplace: string, total: real, lines: seq<Movement>): State {
    var placed := Placed(account, marketplace, lines);
    var moved := MoveAll(s, placed);
    var rest := total - NetOfLines(placed);
    if Abs(rest) >= HALF_CENT then
      moved.(unallocatedMp := moved.unallocatedMp[account := At(moved.unallocatedMp, account) + rest])
    else moved
  }

  function AddFee(s: State, account: string, amount: real): State {
    s.(unallocatedMp := s.unallocatedMp[account := At(s.unallocatedMp, account) + amount])
  }

  function AddAd(s: State, account: string, cost: real): State {
    s.(unallocatedAd := s.unallocatedAd[account := At(s.unallocatedAd, account) + Abs(cost)])
  }

  function AddSkuAd(s: State, account: string, marketplace: string, sku: string, offer: string, cost: real): State {
    var c := Card(account, marketplace, Resolve(s, account, if sku != "" then sku else offer), offer, "", None, None);
    var known := Register(s, c);
    var a := known.items[CardKey(c)];
    known.(items := known.items[CardKey(c) := a.(directAd := a.directAd + Abs(cost))])
  }

  // ----- Runs -----

  datatype Op =
    | AddCard(card: Card)
    | AddLine(line: Movement)
    | AddOperation(account: string, marketplace: string, total: real, lines: seq<Movement>)
    | AddUnallocatedFee(account: string, amount: real)
    | AddArticleAd(account: string, marketplace: string, sku: string, offer: string, cost: real)
    | AddUnallocatedAd(account: string, cost: real)

  function Step(s: State, op: Op): State {
    match op
    case AddCard(card) => Register(s, card)
    case AddLine(line) => Move(s, line)
    case AddOperation(account, marketplace, total, lines) => Operate(s, account, marketplace, total, lines)
    case AddUnallocatedFee(account, amount) => AddFee(s, account, amount)
    case AddArticleAd(account, marketplace, sku, offer, cost) => AddSkuAd(s, account, marketplace, sku, offer, cost)
    case AddUnallocatedAd(account, cost) => AddAd(s, account, cost)
  }

  function Run(ops: seq<Op>): State {
    if ops == [] then EMPTY else Step(Run(ops[..|ops| - 1]), ops[|ops| - 1])
  }

  // ----- What every state keeps -----

  /** The articles in the order of their registration. */
  function Articles(s: State): (r: seq<Article>)
    requires Ordered(s)
    ensures |r| == |s.order|
  {
    seq(|s.order|, i requires 0 <= i < |s.order| => s.items[s.order[i]])
  }

  predicate Ordered(s: State) {
    && (forall k :: k in s.order ==> k in s.items)
    && (forall k :: k in s.items ==> k in s.order)
    && (forall i, j :: 0 <= i < j < |s.order| ==> s.order[i] != s.order[j])
  }

  function NetSum(articles: seq<Article>): real {
    if articles == [] then 0.0
    else NetSum(articles[..|articles| - 1]) + articles[|articles| - 1].money.Net()
  }

  predicate ArticleFits(k: ArticleKey, a: Article) {
    && a.account == k.0 && a.sku == k.1
    && Strip(a.sku) == a.sku && Strip(a.offer) == a.offer
    && a.money.returned >= 0.0 && a.directAd >= 0.0
  }

  /** Every article stands under its own key, every entry of the offer index names a registered
      article, and the running total is what a scan of the articles gives. */
  predicate Sound(s: State) {
    && Ordered(s)
    && (forall k :: k in s.items ==> ArticleFits(k, s.items[k]))
    && (forall o :: o in s.offers ==> (o.0, s.offers[o]) in s.items)
    && s.attributed == NetSum(Articles(s))
  }

  lemma {:induction false} NetSumUpdate(articles: seq<Article>, i: nat, a: Article)
    requires i < |articles|
    ensures NetSum(articles[i := a]) == NetSum(articles) - articles[i].money.Net() + a.money.Net()
  {
    var n := |articles| - 1;
    if i == n {
      assert articles[i := a][..n] == articles[..n];
    } else {
      NetSumUpdate(articles[..n], i, a);
      assert articles[i := a][..n] == articles[..n][i := a];
    }
  }

  /** Replacing an article by another of the same key moves the scan by the difference. */
  lemma ReplaceKeepsOrder(s: State, k: ArticleKey, a: Article)
    requires Ordered(s) && k in s.items
    ensures var after := s.(items := s.items[k := a]);
      Ordered(after) && NetSum(Articles(after)) == NetSum(Articles(s)) - s.items[k].money.Net() + a.money.Net()
  {
    hide Amounts.Net;
    var after := s.(items := s.items[k := a]);
    assert k in s.order;
    var i :| 0 <= i < |s.order| && s.order[i] == k;
    assert Articles(after) == Articles(s)[i := a];
    NetSumUpdate(Articles(s), i, a);
  }

  lemma AppendKeepsOrder(s: State, k: ArticleKey, a: Article)
    requires Ordered(s) && k !in s.items
    ensures var after := s.(items := s.items[k := a], order := s.order + [k]);
      Ordered(after) && Articles(after) == Articles(s) + [a] &&
      NetSum(Articles(after)) == NetSum(Articles(s)) + a.money.Net()
  {
    hide Amounts.Net;
    var after := s.(items := s.items[k := a], order := s.order + [k]);
    assert k !in s.order;
    assert Articles(after) == Articles(s) + [a];
    assert Articles(after)[..|s.order|] == Articles(s);
  }

  /** A new article value under a known key, with its share of the running total. */
  lemma ReplaceKeepsSound(s: State, k: ArticleKey, a: Article, delta: real)
    requires Sound(s) && k in s.items && ArticleFits(k, a)
    requires a.money.Net() == s.items[k].money.Net() + delta
    ensures Sound(s.(items := s.items[k := a], attributed := s.attributed + delta))
  {
    hide NetSum, Articles, ArticleFits, Amounts.Net;
    ReplaceKeepsOrder(s, k, a);
    var after := s.(items := s.items[k := a], attributed := s.attributed + delta);
    assert Ordered(after) by { assert after.items == s.(items := s.items[k := a]).items; }
    SameArticles(s.(items := s.items[k := a]), after);
  }

  lemma SameArticles(s: State, t: State)
    requires Ordered(s) && Ordered(t) && s.items == t.items && s.order == t.order
    ensures Articles(s) == Articles(t)
  {
  }

  lemma NewKeepsSound(s: State, k: ArticleKey, a: Article)
    requires Sound(s) && k !in s.items && ArticleFits(k, a) && a.money == NO_AMOUNTS
    ensures Sound(s.(items := s.items[k := a], order := s.order + [k]))
  {
    hide NetSum, Articles, ArticleFits, Ordered, Amounts.Net;
    AppendKeepsOrder(s, k, a);
    NoAmountsNet();
  }

  lemma NoAmountsNet()
    ensures NO_AMOUNTS.Net() == 0.0
  {
  }

  lemma OfferKeepsSound(s: State, o: ArticleKey, sku: string)
    requires Sound(s) && (o.0, sku) in s.items
    ensures Sound(s.(offers := s.offers[o := sku]))
  {
    hide NetSum, Articles, ArticleFits;
    SameArticles(s, s.(offers := s.offers[o := sku]));
  }

  lemma EnrichedFits(s: State, k: ArticleKey, c: Card)
    requires Sound(s) && k in s.items
    ensures ArticleFits(k, Enriched(s.items[k], c)) && Enriched(s.items[k], c).money == s.items[k].money
  {
    hide NetSum, Articles, Strip;
    StripTwice(c.offer);
    assert ArticleFits(k, s.items[k]);
  }

  lemma FirstFits(c: Card)
    ensures ArticleFits(CardKey(c), FirstArticle(c)) && FirstArticle(c).money == NO_AMOUNTS
  {
    hide Strip;
    StripTwice(c.sku);
    StripTwice(c.offer);
  }

  lemma KnownKeepsSound(s: State, c: Card)
    requires Sound(s)
    ensures Sound(Known(s, c))
  {
    hide Sound, ArticleFits, Strip, Enriched, FirstArticle, Amounts.Net;
    var key := CardKey(c);
    if key in s.items {
      EnrichedFits(s, key, c);
      ReplaceKeepsSound(s, key, Enriched(s.items[key], c), 0.0);
    } else {
      FirstFits(c);
      NewKeepsSound(s, key, FirstArticle(c));
    }
  }

  lemma RegisterKeepsSound(s: State, c: Card)
    requires Sound(s)
    ensures Sound(Register(s, c)) && CardKey(c) in Register(s, c).items
    ensures forall k :: k in s.items ==> k in Register(s, c).items
    ensures Register(s, c).attributed == s.attributed
  {
    hide Sound, Strip, Enriched, FirstArticle;
    KnownKeepsSound(s, c);
    if Strip(c.offer) != "" {
      OfferKeepsSound(Known(s, c), (c.account, Strip(c.offer)), Strip(c.sku));
    }
  }

  lemma MoveKeepsSound(s: State, m: Movement)
    requires Sound(s)
    ensures Sound(Move(s, m)) && forall k :: k in s.items ==> k in Move(s, m).items
  {
    hide Sound, Register, Strip;
    var c := CardOf(s, m);
    RegisterKeepsSound(s, c);
    var known := Register(s, c);
    MovedFits(known, CardKey(c), m);
    ReplaceKeepsSound(known, CardKey(c), Moved(known.items[CardKey(c)], m), m.money.Net());
  }

  lemma MovedFits(s: State, k: ArticleKey, m: Movement)
    requires Sound(s) && k in s.items
    ensures ArticleFits(k, Moved(s.items[k], m))
    ensures Moved(s.items[k], m).money.Net() == s.items[k].money.Net() + m.money.Net()
  {
    hide NetSum, Articles, Strip;
    assert ArticleFits(k, s.items[k]);
  }

  lemma {:induction false} MoveAllKeepsSound(s: State, lines: seq<Movement>)
    requires Sound(s)
    ensures Sound(MoveAll(s, lines))
    ensures MoveAll(s, lines).attributed == s.attributed + NetOfLines(lines)
    ensures MoveAll(s, lines).unallocatedMp == s.unallocatedMp
  {
    hide Sound, Amounts.Net, Register, CardOf, Moved;
    if lines != [] {
      var before, last := lines[..|lines| - 1], lines[|lines| - 1];
      MoveAllKeepsSound(s, before);
      MoveKeepsSound(MoveAll(s, before), last);
      RegisterKeepsPools(MoveAll(s, before), CardOf(MoveAll(s, before), last));
    }
  }

  lemma SkuAdKeepsSound(s: State, account: string, marketplace: string, sku: string, offer: string, cost: real)
    requires Sound(s)
    ensures Sound(AddSkuAd(s, account, marketplace, sku, offer, cost))
    ensures AddSkuAd(s, account, marketplace, sku, offer, cost).attributed == s.attributed
  {
    hide Sound, Register, Strip;
    var c := Card(account, marketplace, Resolve(s, account, if sku != "" then sku else offer), offer, "", None, None);
    RegisterKeepsSound(s, c);
    var known := Register(s, c);
    var a := known.items[CardKey(c)];
    AdFits(known, CardKey(c), cost);
    ReplaceKeepsSound(known, CardKey(c), a.(directAd := a.directAd + Abs(cost)), 0.0);
  }

  lemma AdFits(s: State, k: ArticleKey, cost: real)
    requires Sound(s) && k in s.items
    ensures ArticleFits(k, s.items[k].(directAd := s.items[k].directAd + Abs(cost)))
  {
    hide NetSum, Articles, Strip;
    assert ArticleFits(k, s.items[k]);
  }

  lemma PoolsKeepSound(s: State, mp: map<string, real>, ad: map<string, real>)
    requires Sound(s)
    ensures Sound(s.(unallocatedMp := mp, unallocatedAd := ad))
  {
    hide NetSum, ArticleFits;
    SameArticles(s, s.(unallocatedMp := mp, unallocatedAd := ad));
  }

  lemma StepKeepsSound(s: State, op: Op)
    requires Sound(s)
    ensures Sound(Step(s, op))
  {
    hide Sound, Move, Register, Strip, MoveAll;
    match op
    case AddCard(card) => RegisterKeepsSound(s, card);
    case AddLine(line) => MoveKeepsSound(s, line);
    case AddOperation(account, marketplace, total, lines) =>
      var placed := Placed(account, marketplace, lines);
      MoveAllKeepsSound(s, placed);
      var moved := MoveAll(s, placed);
      PoolsKeepSound(moved, Operate(s, account, marketplace, total, lines).unallocatedMp, moved.unallocatedAd);
    case AddUnallocatedFee(account, amount) => PoolsKeepSound(s, AddFee(s, account, amount).unallocatedMp, s.unallocatedAd);
    case AddArticleAd(account, marketplace, sku, offer, cost) => SkuAdKeepsSound(s, account, marketplace, sku, offer, cost);
    case AddUnallocatedAd(account, cost) => PoolsKeepSound(s, s.unallocatedMp, AddAd(s, account, cost).unallocatedAd);
  }

  /** After any run the running total is the sum over all articles. */
  lemma {:induction false} RunKeepsSound(ops: seq<Op>)
    ensures Sound(Run(ops))
  {
    if ops != [] {
      hide Sound, Step;
      RunKeepsSound(ops[..|ops| - 1]);
      StepKeepsSound(Run(ops[..|ops| - 1]), ops[|ops| - 1]);
    }
  }

  /** Resolving a second time changes nothing, and a known offer resolves to a registered article. */
  lemma ResolveTwice(s: State, account: string, text: string)
    requires Sound(s)
    ensures var sku := Resolve(s, account, text);
      && Resolve(s, account, sku) == sku
      && ((account, Strip(text)) in s.offers ==> (account, sku) in s.items)
  {
    hide Strip, NetSum, Articles;
    StripTwice(text);
    var sku := Resolve(s, account, text);
    if (account, sku) in s.items { assert ArticleFits((account, sku), s.items[(account, sku)]); }
  }

  // ----- Conservation -----

  /** Everything the run took in from the accounts. */
  function Taken(op: Op): real {
    match op
    case AddLine(line) => line.money.Net()
    case AddOperation(_, _, total, _) => total
    case AddUnallocatedFee(_, amount) => amount
    case _ => 0.0
  }

  function TakenIn(ops: seq<Op>): real {
    if ops == [] then 0.0 else TakenIn(ops[..|ops| - 1]) + Taken(ops[|ops| - 1])
  }

  function Operations(ops: seq<Op>): nat {
    if ops == [] then 0 else Operations(ops[..|ops| - 1]) + if ops[|ops| - 1].AddOperation? then 1 else 0
  }

  ghost function Held(s: State): real {
    s.attributed + SumMap(s.unallocatedMp)
  }

  lemma AddedToPool(pool: map<string, real>, account: string, x: real)
    ensures SumMap(pool[account := At(pool, account) + x]) == SumMap(pool) + x
  {
    SumMapUpdate(pool, account, At(pool, account) + x);
  }

  lemma StepHolds(s: State, op: Op)
    requires Sound(s)
    ensures var lost := Held(s) + Taken(op) - Held(Step(s, op));
      if op.AddOperation? then Abs(lost) < HALF_CENT else lost == 0.0
  {
    hide Sound, Register, Strip, MoveAll, Amounts.Net, SumMap;
    match op
    case AddCard(card) => RegisterKeepsSound(s, card);
      RegisterKeepsPools(s, card);
    case AddLine(line) => MoveKeepsSound(s, line);
      RegisterKeepsPools(s, CardOf(s, line));
    case AddOperation(account, marketplace, total, lines) =>
      var placed := Placed(account, marketplace, lines);
      MoveAllKeepsSound(s, placed);
      AddedToPool(MoveAll(s, placed).unallocatedMp, account, total - NetOfLines(placed));
    case AddUnallocatedFee(account, amount) => AddedToPool(s.unallocatedMp, account, amount);
    case AddArticleAd(account, marketplace, sku, offer, cost) =>
      SkuAdKeepsSound(s, account, marketplace, sku, offer, cost);
      RegisterKeepsPools(s, Card(account, marketplace, Resolve(s, account, if sku != "" then sku else offer), offer, "", None, None));
    case AddUnallocatedAd(account, cost) =>
  }

  lemma RegisterKeepsPools(s: State, c: Card)
    ensures Register(s, c).unallocatedMp == s.unallocatedMp && Register(s, c).unallocatedAd == s.unallocatedAd
    ensures Register(s, c).attributed == s.attributed
  {
    hide Strip;
  }

  /** Attributed plus unallocated money differs from the money taken in by less than half a cent for
      each accrual operation, and not at all without one. */
  lemma {:induction false} RunHoldsTheMoney(ops: seq<Op>)
    ensures Operations(ops) == 0 ==> TakenIn(ops) == Held(Run(ops))
    ensures Operations(ops) > 0 ==> Abs(TakenIn(ops) - Held(Run(ops))) < HalfCents(Operations(ops))
  {
    hide Held, Step, Taken;
    if ops == [] {
      NothingHeld();
    } else {
      var before, op := ops[..|ops| - 1], ops[|ops| - 1];
      RunHoldsTheMoney(before);
      RunKeepsSound(before);
      StepHolds(Run(before), op);
    }
  }

  lemma NothingHeld()
    ensures Held(EMPTY) == 0.0
  {
  }
}
