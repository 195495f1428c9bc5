/** The strict reader of the buyout report. */
module Buyouts {
  import opened Wrappers
  import opened Ledger

  /** A field of a report line as it stands in the payload. */
  datatype Field = Missing | Malformed | Number(x: real)

  datatype ReportLine = ReportLine(sku: string, posting: string, offer: string, name: string,
                                   quantity: Field, price: Field, amount: Field)
  {
    function Id(): Key { (posting, sku) }
  }

  datatype Problem = NoProducts | NoIdentity | Duplicate | MissingField | BadNumber | BadQuantity

  predicate IsDigit(c: char) {
    '0' <= c <= '9'
  }

  /** Digits only, and not all of them zero. */
  predicate IsPositiveNumber(s: string) {
    (forall i :: 0 <= i < |s| ==> IsDigit(s[i])) && (exists i :: 0 <= i < |s| && s[i] != '0')
  }

  predicate IsWhole(x: real) {
    x == x.Floor as real
  }

  predicate Identified(line: ReportLine) {
    IsPositiveNumber(line.sku) && line.posting != ""
  }

  predicate Numeric(line: ReportLine) {
    line.quantity.Number? && line.price.Number? && line.amount.Number?
  }

  predicate Acceptable(line: ReportLine) {
    Identified(line) && Numeric(line) && line.quantity.x != 0.0 && IsWhole(line.quantity.x)
  }

  /** The record a line stands for: what the buyer's country withheld is price times quantity
      less what was received. */
  predicate Renders(line: ReportLine, r: Buyout) {
    && Numeric(line)
    && r.sku == line.sku && r.posting == line.posting && r.offer == line.offer && r.title == line.name
    && r.quantity == line.quantity.x && r.receipt == line.amount.x
    && r.gross == line.price.x * line.quantity.x
    && r.gross == r.receipt + r.deduction
  }

  predicate DistinctLines(lines: seq<ReportLine>) {
    forall i, j :: 0 <= i < j < |lines| ==> lines[i].Id() != lines[j].Id()
  }

  predicate AcceptableReport(products: Option<seq<ReportLine>>) {
    && products.Some? && DistinctLines(products.value)
    && forall i :: 0 <= i < |products.value| ==> Acceptable(products.value[i])
  }

  predicate RendersAll(lines: seq<ReportLine>, records: seq<Buyout>) {
    |records| == |lines| && forall i :: 0 <= i < |records| ==> Renders(lines[i], records[i])
  }

  /** Reads the whole report or refuses it: the result is the list of records line by line
      exactly when every line is acceptable and no posting/SKU pair occurs twice. */
  method ParseBuyouts(products: Option<seq<ReportLine>>) returns (r: Result<seq<Buyout>, Problem>)
    ensures r.Ok? <==> AcceptableReport(products)
    ensures r.Ok? ==> RendersAll(products.value, r.value)
    ensures r.Err? && r.error == NoProducts <==> products.None?
  {
    if products.None? {
      return Err(NoProducts);
    }
    var lines := products.value;
    var result: seq<Buyout> := [];
    var seen: set<Key> := {};
    for i := 0 to |lines|
      invariant |result| == i
      invariant forall k :: 0 <= k < i ==> Acceptable(lines[k]) && Renders(lines[k], result[k])
      invariant forall id :: id in seen <==> exists k :: 0 <= k < i && lines[k].Id() == id
      invariant DistinctLines(lines[..i])
    {
      var line := lines[i];
      if !IsPositiveNumber(line.sku) || line.posting == "" {
        return Err(NoIdentity);
      }
      if line.Id() in seen {
        return Err(Duplicate);
      }
      seen := seen + {line.Id()};
      if line.quantity.Missing? || line.price.Missing? || line.amount.Missing? {
        return Err(MissingField);
      }
      if line.quantity.Malformed? {
        return Err(BadNumber);
      }
      var quantity := line.quantity.x;
      if quantity == 0.0 || !IsWhole(quantity) {
        return Err(BadQuantity);
      }
      if line.price.Malformed? || line.amount.Malformed? {
        return Err(BadNumber);
      }
      var gross, receipt := line.price.x * quantity, line.amount.x;
      result := result + [Buyout(line.sku, line.posting, line.offer, line.name, quantity, gross, receipt,
                                 gross - receipt)];
    }
    assert lines[..|lines|] == lines;
    return Ok(result);
  }
}
