/**
 * normalize_broker_a: Broker A's export to canonical positions. Each field
 * reads the first of its candidate columns that the export has; the account
 * id is "A:" and the stripped Client Code, or "A:UNKNOWN" for every row when
 * the export has no Client Code column.
 */
module BrokerA {
  import opened Wrappers
  import opened Text
  import opened RawTable
  import opened DeliveryMonth
  import opened Categorical
  import opened Canonical

  const BROKER := "Broker A"
  const ACCOUNT_PREFIX := "A:"

  /**
   * The columns the source reads unconditionally: without them the
   * delivery-month and trade-date steps fail.
   */
  predicate Readable(t: Table)
  {
    t.Valid() && "Delivery Month/Year" in t.columns && "Trade Date" in t.columns
  }

  /** Row i of the fragment: every canonical field read from the columns chosen for it. */
  function Row(t: Table, p: Parsers, i: nat): (r: Position)
    requires Readable(t) && i < t.rows
    ensures r.broker == BROKER && StartsWith(r.accountId, ACCOUNT_PREFIX)
  {
    var account := Col(t, "Client Code");
    var productCode := Col(t, "Exchange Instrument Code");
    var productName := Resolve(t, ["Commodity Name", "Instrument Long Name", "Commodity Code"]);
    var instrumentType := Col(t, "Future/Option");
    var putCall := MapPutCall(Col(t, "Put/Call"));
    var strike := Resolve(t, ["Strike", "Exercise Price"]);
    var month := NormalizeDeliveryMonth(t.columns["Delivery Month/Year"], p.month);
    var side := MapSide(Col(t, "Bought or Sold"));
    var quantity := Col(t, "Quantity");
    var tradeDate := NormalizeTradeDate(t.columns["Trade Date"], p.date);
    var tradePrice := Resolve(t, ["Price", "Trade Price"]);
    var marketPrice := Resolve(t, ["Market Rate", "Current Price"]);
    var margin := Resolve(t, ["Variation Margin", "Variation Margin Amount"]);
    var currency := Col(t, "Transaction Currency");
    var lotSize := Resolve(t, ["Lot Size", "Contract Size"]);
    var fxSpot := Col(t, "FX Spot Rate");
    Position(
      broker := BROKER,
      accountId := AccountId(ACCOUNT_PREFIX, account, i),
      productCode := At(productCode, i),
      productName := At(productName, i),
      instrumentType := At(instrumentType, i),
      putCall := At(putCall, i),
      strikePrice := At(strike, i),
      deliveryMonth := month[i],
      side := At(side, i),
      quantity := At(quantity, i),
      tradeDate := tradeDate[i],
      tradePrice := At(tradePrice, i),
      marketPrice := At(marketPrice, i),
      variationMargin := At(margin, i),
      currency := At(currency, i),
      lotSize := At(lotSize, i),
      fxSpotRate := At(fxSpot, i))
  }

  /** normalize_broker_a: one canonical position per row of the export, in row order. */
  function Normalize(t: Table, p: Parsers): (r: seq<Position>)
    requires Readable(t)
    ensures |r| == t.rows
    ensures forall i :: 0 <= i < |r| ==> r[i].broker == BROKER && StartsWith(r[i].accountId, ACCOUNT_PREFIX)
  {
    seq(t.rows, i requires 0 <= i < t.rows => Row(t, p, i))
  }

  /** Client Code absent: every row's account id is exactly "A:UNKNOWN". */
  lemma UnknownAccount(t: Table, p: Parsers)
    requires Readable(t) && "Client Code" !in t.columns
    ensures forall i :: 0 <= i < t.rows ==> Normalize(t, p)[i].accountId == ACCOUNT_PREFIX + "UNKNOWN"
  {
    forall i | 0 <= i < t.rows
      ensures Normalize(t, p)[i].accountId == ACCOUNT_PREFIX + "UNKNOWN"
    {
      assert Normalize(t, p)[i].accountId == AccountId(ACCOUNT_PREFIX, None, i);
    }
  }

  /** Client Code present: row i's account id is "A:" and its stripped Client Code ("A:nan" for a null). */
  lemma ClientCodeAccount(t: Table, p: Parsers, i: nat)
    requires Readable(t) && "Client Code" in t.columns && i < t.rows
    ensures Normalize(t, p)[i].accountId == ACCOUNT_PREFIX + Trim(AsText(t.columns["Client Code"][i]))
  {
  }

  /** The per-row normalisers: delivery month, trade date, side, put/call; instrument type read as is. */
  lemma ScalarFields(t: Table, p: Parsers, i: nat)
    requires Readable(t) && i < t.rows
    ensures var row := Normalize(t, p)[i];
            && row.deliveryMonth == MonthOf(t.columns["Delivery Month/Year"][i], p.month)
            && row.tradeDate == p.date(t.columns["Trade Date"][i])
            && row.instrumentType == CellOf(t, "Future/Option", i)
            && row.side == (if "Bought or Sold" in t.columns then Some(SideOf(t.columns["Bought or Sold"][i])) else None)
            && row.putCall == (if "Put/Call" in t.columns then Some(PutCallOf(t.columns["Put/Call"][i])) else None)
  {
  }

  /** Each fallback chain reads the first of its columns the export has, and null when it has none. */
  lemma FallbackChains(t: Table, p: Parsers, i: nat)
    requires Readable(t) && i < t.rows
    ensures var row := Normalize(t, p)[i];
            && row.productName == (if "Commodity Name" in t.columns then CellOf(t, "Commodity Name", i)
                                   else if "Instrument Long Name" in t.columns then CellOf(t, "Instrument Long Name", i)
                                   else CellOf(t, "Commodity Code", i))
            && row.strikePrice == (if "Strike" in t.columns then CellOf(t, "Strike", i) else CellOf(t, "Exercise Price", i))
            && row.tradePrice == (if "Price" in t.columns then CellOf(t, "Price", i) else CellOf(t, "Trade Price", i))
            && row.marketPrice == (if "Market Rate" in t.columns then CellOf(t, "Market Rate", i) else CellOf(t, "Current Price", i))
            && row.variationMargin == (if "Variation Margin" in t.columns then CellOf(t, "Variation Margin", i)
                                       else CellOf(t, "Variation Margin Amount", i))
            && row.lotSize == (if "Lot Size" in t.columns then CellOf(t, "Lot Size", i) else CellOf(t, "Contract Size", i))
  {
    assert Normalize(t, p)[i] == Row(t, p, i);
    ResolveThree(t, "Commodity Name", "Instrument Long Name", "Commodity Code", i);
    ResolveTwo(t, "Strike", "Exercise Price", i);
    ResolveTwo(t, "Price", "Trade Price", i);
    ResolveTwo(t, "Market Rate", "Current Price", i);
    ResolveTwo(t, "Variation Margin", "Variation Margin Amount", i);
    ResolveTwo(t, "Lot Size", "Contract Size", i);
  }

  /** The fields with a single source column are read as they are, null when the column is absent. */
  lemma DirectColumns(t: Table, p: Parsers, i: nat)
    requires Readable(t) && i < t.rows
    ensures var row := Normalize(t, p)[i];
            && row.productCode == CellOf(t, "Exchange Instrument Code", i)
            && row.quantity == CellOf(t, "Quantity", i)
            && row.currency == CellOf(t, "Transaction Currency", i)
            && row.fxSpotRate == CellOf(t, "FX Spot Rate", i)
  {
    assert Normalize(t, p)[i] == Row(t, p, i);
  }
}
