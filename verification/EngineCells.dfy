/** What the engine holds of every article and account after a run, told of the operations. */
module EngineCells {
  import opened Wrappers
  import opened Sums
  import opened Text
  import opened ArticleEngine

  // ----- Cells of an article -----

  datatype Cell =
    | SoldQty | ReturnedQty | Sales | Returned | Commission | Acquiring | Logistics | Reverse | Storage | Other | DirectAd

  function CellOf(a: Article, t: Cell): real {
    match t
    case SoldQty => a.salesQty as real
    case ReturnedQty => a.returnsQty as real
    case Sales => a.money.sales
    case Returned => a.money.returned
    case Commission => a.money.commission
    case Acquiring => a.money.acquiring
    case Logistics => a.money.logistics
    case Reverse => a.money.reverse
    case Storage => a.money.storage
    case Other => a.money.other
    case DirectAd => a.directAd
  }

  function ArticleCell(s: State, key: ArticleKey, t: Cell): real {
    if key in s.items then CellOf(s.items[key], t) else 0.0
  }

  /** What a movement brings to its article; returns count with either sign. */
  function MovementCell(m: Movement, t: Cell): real {
    match t
    case SoldQty => m.salesQty as real
    case ReturnedQty => m.returnsQty as real
    case Sales => m.money.sales
    case Returned => if m.money.returned < 0.0 then -m.money.returned else m.money.returned
    case Commission => m.money.commission
    case Acquiring => m.money.acquiring
    case Logistics => m.money.logistics
    case Reverse => m.money.reverse
    case Storage => m.money.storage
    case Other => m.money.other
    case DirectAd => 0.0
  }

  /** The article that a SKU or offer of an account leads to: one registered under that SKU, else the one
      that was last registered with that offer, else a new one. */
  predicate LeadsTo(s: State, account: string, text: string, key: ArticleKey) {
    var plain := Strip(text);
    key.0 == account &&
    if (account, plain) in s.items then key.1 == plain
    else if (account, plain) in s.offers then key.1 == s.offers[(account, plain)]
    else key.1 == plain
  }

  function NameOf(sku: string, offer: string): string {
    if sku != "" then sku else offer
  }

  lemma KeyOfName(s: State, account: string, text: string)
    requires Sound(s)
    ensures Strip(Resolve(s, account, text)) == Resolve(s, account, text)
    ensures forall key :: LeadsTo(s, account, text, key) <==> key == (account, Resolve(s, account, text))
  {
    hide Strip, NetSum, Articles;
    StripTwice(text);
    var sku := Resolve(s, account, text);
    if (account, sku) in s.items { assert ArticleFits((account, sku), s.items[(account, sku)]); }
  }

  lemma RegisterKeepsCells(s: State, c: Card, key: ArticleKey, t: Cell)
    ensures ArticleCell(Register(s, c), key, t) == ArticleCell(s, key, t)
  {
    hide Strip;
  }

  lemma MoveBooksTheCell(s: State, m: Movement, key: ArticleKey, t: Cell)
    requires Sound(s)
    ensures ArticleCell(Move(s, m), key, t) ==
            ArticleCell(s, key, t) + if LeadsTo(s, m.account, NameOf(m.sku, m.offer), key) then MovementCell(m, t) else 0.0
  {
    hide Strip, Register, Sound, LeadsTo, Resolve, Amounts.Net;
    var c := CardOf(s, m);
    KeyOfName(s, m.account, NameOf(m.sku, m.offer));
    RegisterKeepsCells(s, c, key, t);
    RegisterKeepsSound(s, c);
  }

  // ----- Operations -----

  function LinesCell(s: State, lines: seq<Movement>, key: ArticleKey, t: Cell): real {
    if lines == [] then 0.0
    else
      var before, m := lines[..|lines| - 1], lines[|lines| - 1];
      LinesCell(s, before, key, t) +
      if LeadsTo(MoveAll(s, before), m.account, NameOf(m.sku, m.offer), key) then MovementCell(m, t) else 0.0
  }

  lemma {:induction false} LinesBookTheCell(s: State, lines: seq<Movement>, key: ArticleKey, t: Cell)
    requires Sound(s)
    ensures ArticleCell(MoveAll(s, lines), key, t) == ArticleCell(s, key, t) + LinesCell(s, lines, key, t)
  {
    hide Move, Sound, LeadsTo, ArticleCell, MovementCell;
    if lines != [] {
      var n := |lines| - 1;
      LinesBookTheCell(s, lines[..n], key, t);
      MoveAllKeepsSound(s, lines[..n]);
      MoveBooksTheCell(MoveAll(s, lines[..n]), lines[n], key, t);
    }
  }

  /** What an operation brings to an article: the movements and the advertising that lead to it. */
  function OpCell(s: State, op: Op, key: ArticleKey, t: Cell): real {
    match op
    case AddLine(m) => if LeadsTo(s, m.account, NameOf(m.sku, m.offer), key) then MovementCell(m, t) else 0.0
    case AddOperation(account, marketplace, _, lines) => LinesCell(s, Placed(account, marketplace, lines), key, t)
    case AddArticleAd(account, _, sku, offer, cost) =>
      if t == DirectAd && LeadsTo(s, account, NameOf(sku, offer), key) then if cost < 0.0 then -cost else cost else 0.0
    case _ => 0.0
  }

  function Booked(ops: seq<Op>, key: ArticleKey, t: Cell): real {
    if ops == [] then 0.0
    else
      var before, op := ops[..|ops| - 1], ops[|ops| - 1];
      Booked(before, key, t) + OpCell(Run(before), op, key, t)
  }

  lemma AdBooksTheCell(s: State, account: string, marketplace: string, sku: string, offer: string, cost: real,
                       key: ArticleKey, t: Cell)
    requires Sound(s)
    ensures ArticleCell(AddSkuAd(s, account, marketplace, sku, offer, cost), key, t) ==
            ArticleCell(s, key, t) + OpCell(s, AddArticleAd(account, marketplace, sku, offer, cost), key, t)
  {
    hide Strip, Register, Sound, LeadsTo, Resolve;
    var c := Card(account, marketplace, Resolve(s, account, if sku != "" then sku else offer), offer, "", None, None);
    KeyOfName(s, account, NameOf(sku, offer));
    RegisterKeepsCells(s, c, key, t);
    RegisterKeepsSound(s, c);
  }

  lemma OpBooksTheCell(s: State, op: Op, key: ArticleKey, t: Cell)
    requires Sound(s)
    ensures ArticleCell(Step(s, op), key, t) == ArticleCell(s, key, t) + OpCell(s, op, key, t)
  {
    hide Sound, Move, MoveAll, Register, LeadsTo, CellOf, MovementCell, AddSkuAd, LinesCell, Strip;
    match op
    case AddCard(card) => RegisterKeepsCells(s, card, key, t);
    case AddLine(m) => MoveBooksTheCell(s, m, key, t);
    case AddOperation(account, marketplace, total, lines) => LinesBookTheCell(s, Placed(account, marketplace, lines), key, t);
    case AddUnallocatedFee(account, amount) =>
    case AddArticleAd(account, marketplace, sku, offer, cost) => AdBooksTheCell(s, account, marketplace, sku, offer, cost, key, t);
    case AddUnallocatedAd(account, cost) =>
  }

  /** After every run each quantity and amount of each article is the sum of what the movements and the
      advertising that lead to the article brought. */
  lemma {:induction false} RunBooksTheCell(ops: seq<Op>, key: ArticleKey, t: Cell)
    ensures ArticleCell(Run(ops), key, t) == Booked(ops, key, t)
  {
    hide Step, Sound, OpCell, CellOf;
    if ops != [] {
      var before, op := ops[..|ops| - 1], ops[|ops| - 1];
      RunBooksTheCell(before, key, t);
      RunKeepsSound(before);
      OpBooksTheCell(Run(before), op, key, t);
    }
  }

  // ----- Pools of an account -----

  /** What the lines of an operation come to: sales less returns, and fees. */
  function LinesNet(lines: seq<Movement>): real {
    if lines == [] then 0.0
    else
      var m := lines[|lines| - 1].money;
      LinesNet(lines[..|lines| - 1]) + (m.sales - Abs(m.returned)) +
      (m.commission + m.acquiring + m.logistics + m.reverse + m.storage + m.other)
  }

  lemma {:induction false} LinesNetIs(account: string, marketplace: string, lines: seq<Movement>)
    ensures NetOfLines(Placed(account, marketplace, lines)) == LinesNet(lines)
  {
    if lines != [] {
      var n := |lines| - 1;
      LinesNetIs(account, marketplace, lines[..n]);
      assert Placed(account, marketplace, lines)[..n] == Placed(account, marketplace, lines[..n]);
    }
  }

  /** What an operation leaves in an account's pool: the part of its total that its lines do not explain,
      unless that is less than half a cent, and fees without an article. */
  function PoolOf(op: Op, account: string): real {
    match op
    case AddOperation(a, _, total, lines) =>
      var rest := total - LinesNet(lines);
      if a == account && (rest >= 0.005 || rest <= -0.005) then rest else 0.0
    case AddUnallocatedFee(a, amount) => if a == account then amount else 0.0
    case _ => 0.0
  }

  function AdOf(op: Op, account: string): real {
    match op
    case AddUnallocatedAd(a, cost) => if a != account then 0.0 else if cost < 0.0 then -cost else cost
    case _ => 0.0
  }

  function PoolSum(ops: seq<Op>, account: string): real {
    if ops == [] then 0.0 else PoolSum(ops[..|ops| - 1], account) + PoolOf(ops[|ops| - 1], account)
  }

  function AdSum(ops: seq<Op>, account: string): real {
    if ops == [] then 0.0 else AdSum(ops[..|ops| - 1], account) + AdOf(ops[|ops| - 1], account)
  }

  lemma {:induction false} MoveAllKeepsPools(s: State, lines: seq<Movement>)
    ensures MoveAll(s, lines).unallocatedMp == s.unallocatedMp && MoveAll(s, lines).unallocatedAd == s.unallocatedAd
  {
    hide Register, CardOf, Moved, Amounts.Net;
    if lines != [] {
      var before := MoveAll(s, lines[..|lines| - 1]);
      MoveAllKeepsPools(s, lines[..|lines| - 1]);
      RegisterKeepsPools(before, CardOf(before, lines[|lines| - 1]));
    }
  }

  lemma StepFillsThePool(s: State, op: Op, account: string)
    ensures At(Step(s, op).unallocatedMp, account) == At(s.unallocatedMp, account) + PoolOf(op, account)
    ensures At(Step(s, op).unallocatedAd, account) == At(s.unallocatedAd, account) + AdOf(op, account)
  {
    hide Register, MoveAll, CardOf, Moved, Amounts.Net, NetOfLines, LinesNet;
    match op
    case AddCard(card) => RegisterKeepsPools(s, card);
    case AddLine(m) => RegisterKeepsPools(s, CardOf(s, m));
    case AddOperation(a, marketplace, total, lines) =>
      LinesNetIs(a, marketplace, lines);
      MoveAllKeepsPools(s, Placed(a, marketplace, lines));
    case AddUnallocatedFee(a, amount) =>
    case AddArticleAd(a, marketplace, sku, offer, cost) =>
      RegisterKeepsPools(s, Card(a, marketplace, Resolve(s, a, if sku != "" then sku else offer), offer, "", None, None));
    case AddUnallocatedAd(a, cost) =>
  }

  /** After every run each account's pool holds exactly the unexplained parts of its own operations and
      its own fees without an article, and its advertising pool its own costs without one. */
  lemma {:induction false} RunFillsThePools(ops: seq<Op>, account: string)
    ensures At(Run(ops).unallocatedMp, account) == PoolSum(ops, account)
    ensures At(Run(ops).unallocatedAd, account) == AdSum(ops, account)
  {
    hide Step, PoolOf, AdOf;
    if ops != [] {
      RunFillsThePools(ops[..|ops| - 1], account);
      StepFillsThePool(Run(ops[..|ops| - 1]), ops[|ops| - 1], account);
    }
  }

  // ----- What is known of an article -----

  /** The last positive cost of the cards of an article. */
  function LastCost(ops: seq<Op>, key: ArticleKey): Option<real> {
    if ops == [] then None
    else
      var op := ops[|ops| - 1];
      if op.AddCard? && (op.card.account, Strip(op.card.sku)) == key && op.card.cost.Some? && op.card.cost.value > 0.0
      then op.card.cost else LastCost(ops[..|ops| - 1], key)
  }

  function PositiveCost(s: State, key: ArticleKey): Option<real> {
    if key in s.items && s.items[key].cost.Some? && s.items[key].cost.value > 0.0 then s.items[key].cost else None
  }

  lemma RegisterKeepsCost(s: State, c: Card, key: ArticleKey)
    ensures PositiveCost(Register(s, c), key) ==
      if (c.account, Strip(c.sku)) == key && c.cost.Some? && c.cost.value > 0.0 then c.cost else PositiveCost(s, key)
    ensures CardKey(c) in Register(s, c).items
  {
    hide Strip;
  }

  lemma MoveKeepsCost(s: State, m: Movement, key: ArticleKey)
    ensures PositiveCost(Move(s, m), key) == PositiveCost(s, key)
  {
    hide Strip, Register, Resolve, Amounts.Net, Amounts.Plus;
    RegisterKeepsCost(s, CardOf(s, m), key);
  }

  lemma {:induction false} MoveAllKeepsCost(s: State, lines: seq<Movement>, key: ArticleKey)
    ensures PositiveCost(MoveAll(s, lines), key) == PositiveCost(s, key)
  {
    hide Move;
    if lines != [] {
      MoveAllKeepsCost(s, lines[..|lines| - 1], key);
      MoveKeepsCost(MoveAll(s, lines[..|lines| - 1]), lines[|lines| - 1], key);
    }
  }

  /** The positive cost of an article is that of the last of its cards that has one; nothing else sets it
      and nothing takes it away. */
  lemma {:induction false} RunKnowsTheCost(ops: seq<Op>, key: ArticleKey)
    ensures PositiveCost(Run(ops), key) == LastCost(ops, key)
  {
    hide Strip, Register, MoveAll, Resolve, Move;
    if ops != [] {
      var s, op := Run(ops[..|ops| - 1]), ops[|ops| - 1];
      RunKnowsTheCost(ops[..|ops| - 1], key);
      match op
      case AddCard(card) => RegisterKeepsCost(s, card, key);
      case AddLine(m) => MoveKeepsCost(s, m, key);
      case AddOperation(account, marketplace, total, lines) => MoveAllKeepsCost(s, Placed(account, marketplace, lines), key);
      case AddUnallocatedFee(account, amount) =>
      case AddArticleAd(account, marketplace, sku, offer, cost) =>
        RegisterKeepsCost(s, Card(account, marketplace, Resolve(s, account, if sku != "" then sku else offer), offer, "", None, None), key);
      case AddUnallocatedAd(account, cost) =>
    }
  }

  /** What an article is called: kept by `after` once `before` has it. */
  predicate KeepsNames(before: State, after: State) {
    forall key :: key in before.items ==> key in after.items && SameNames(before.items[key], after.items[key])
  }

  predicate SameNames(a: Article, b: Article) {
    b.marketplace == a.marketplace && (a.offer != "" ==> b.offer == a.offer) && (a.title != "" ==> b.title == a.title) &&
    (Present(a.image) ==> b.image == a.image)
  }

  lemma RegisterKeepsNames(s: State, c: Card)
    ensures KeepsNames(s, Register(s, c))
    ensures var a := Register(s, c).items[CardKey(c)];
      (a.title == "" ==> c.title == "") && (a.offer == "" ==> Strip(c.offer) == "") && (Present(c.image) ==> Present(a.image))
  {
    hide Strip;
  }

  lemma KeepsNamesOn(a: State, b: State, c: State)
    requires KeepsNames(a, b) && KeepsNames(b, c)
    ensures KeepsNames(a, c)
  {
  }

  lemma MoveKeepsNames(s: State, m: Movement)
    ensures KeepsNames(s, Move(s, m))
  {
    hide Strip, Register, Resolve, Amounts.Net, Amounts.Plus;
    RegisterKeepsNames(s, CardOf(s, m));
  }

  lemma {:induction false} MoveAllKeepsNames(s: State, lines: seq<Movement>)
    ensures KeepsNames(s, MoveAll(s, lines))
  {
    hide Move, KeepsNames;
    if lines == [] {
      NamesStay(s);
    } else {
      var before := MoveAll(s, lines[..|lines| - 1]);
      MoveAllKeepsNames(s, lines[..|lines| - 1]);
      MoveKeepsNames(before, lines[|lines| - 1]);
      KeepsNamesOn(s, before, Move(before, lines[|lines| - 1]));
    }
  }

  lemma NamesStay(s: State)
    ensures KeepsNames(s, s)
  {
  }

  lemma StepKeepsNames(s: State, op: Op)
    ensures KeepsNames(s, Step(s, op))
  {
    hide Strip, Register, MoveAll, Resolve, Move;
    match op
    case AddCard(card) => RegisterKeepsNames(s, card);
    case AddLine(m) => MoveKeepsNames(s, m);
    case AddOperation(account, marketplace, total, lines) => MoveAllKeepsNames(s, Placed(account, marketplace, lines));
    case AddUnallocatedFee(account, amount) =>
    case AddArticleAd(account, marketplace, sku, offer, cost) =>
      RegisterKeepsNames(s, Card(account, marketplace, Resolve(s, account, if sku != "" then sku else offer), offer, "", None, None));
    case AddUnallocatedAd(account, cost) =>
  }

  /** Over every run an article stays registered and keeps the marketplace, offer, title and image that it
      once has. */
  lemma {:induction false} RunKeepsNames(ops: seq<Op>, n: nat)
    requires n <= |ops|
    ensures KeepsNames(Run(ops[..n]), Run(ops))
  {
    hide Step, KeepsNames;
    if n == |ops| {
      assert ops[..n] == ops;
      NamesStay(Run(ops));
    } else {
      var before := ops[..|ops| - 1];
      RunKeepsNames(before, n);
      assert before[..n] == ops[..n];
      StepKeepsNames(Run(before), ops[|ops| - 1]);
      KeepsNamesOn(Run(ops[..n]), Run(before), Run(ops));
    }
  }

  /** An offer leads to the article it was last registered with, unless it is an article number itself. */
  lemma RegisteredOfferLeads(s: State, c: Card)
    requires Sound(s) && Strip(c.offer) != ""
    ensures var t := Register(s, c);
      (c.account, Strip(c.offer)) !in t.items ==> LeadsTo(t, c.account, c.offer, (c.account, Strip(c.sku)))
    ensures LeadsTo(Register(s, c), c.account, c.sku, (c.account, Strip(c.sku)))
  {
    hide Strip, Sound;
  }
}
