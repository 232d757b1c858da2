/**
 * normalize_broker_b: Broker B's export to canonical positions. Unlike
 * Broker A, the account id prefers Client Account only when that column has
 * some non-null value, and the instrument type is inferred per row from
 * Strike and Option Type instead of being read from a column.
 */
module BrokerB {
  import opened Wrappers
  import opened Text
  import opened RawTable
  import opened DeliveryMonth
  import opened Categorical
  import opened Canonical

  const BROKER := "Broker B"
  const ACCOUNT_PREFIX := "B:"

  /**
   * The columns the source reads unconditionally: the delivery-month column,
   * and one of the two trade-date columns; without them the source fails.
   */
  predicate Readable(t: Table)
  {
    && t.Valid()
    && "Delivery/Prompt date" in t.columns
    && ("Trade Date" in t.columns || "Last Traded date" in t.columns)
  }

  /**
   * The column the account ids come from: Client Account if present and not
   * entirely null, else Ledger Code if present, else none.
   */
  function AccountSource(t: Table): (r: Option<seq<Cell>>)
    ensures r.None? <==> "Ledger Code" !in t.columns
                         && ("Client Account" !in t.columns || !HasNonNull(t.columns["Client Account"]))
    ensures t.Valid() && r.Some? ==> |r.value| == t.rows
  {
    if "Client Account" in t.columns && HasNonNull(t.columns["Client Account"]) then Some(t.columns["Client Account"])
    else if "Ledger Code" in t.columns then Some(t.columns["Ledger Code"])
    else None
  }

  /** Row i is an option: its Strike or its Option Type is a non-null cell of a present column. */
  predicate IsOption(t: Table, i: nat)
    ensures IsOption(t, i) ==> "Strike" in t.columns || "Option Type" in t.columns
  {
    CellOf(t, "Strike", i).Some? || CellOf(t, "Option Type", i).Some?
  }

  /** The word the source writes for row i's is_option flag. */
  function InstrumentTypeAt(t: Table, i: nat): (r: string)
    ensures r == "OPTION" || r == "FUTURE"
    ensures r == "OPTION" <==> IsOption(t, i)
  {
    if IsOption(t, i) then "OPTION" else "FUTURE"
  }

  /** is_option |= column.notna(): each flag raised where the column has a value. */
  function OrNotNull(flags: seq<bool>, column: seq<Cell>): (r: seq<bool>)
    requires |flags| == |column|
    ensures |r| == |flags|
    ensures forall i :: 0 <= i < |r| ==> (r[i] <==> flags[i] || column[i].Some?)
  {
    seq(|flags|, i requires 0 <= i < |flags| => flags[i] || column[i].Some?)
  }

  /**
   * The instrument-type column as the source builds it: all flags down, then
   * raised by Strike and by Option Type where present, then mapped to words.
   */
  method InstrumentTypes(t: Table) returns (types: seq<string>)
    requires t.Valid()
    ensures |types| == t.rows
    ensures forall i :: 0 <= i < t.rows ==> types[i] == "OPTION" || types[i] == "FUTURE"
    ensures forall i :: 0 <= i < t.rows ==>
              (types[i] == "OPTION" <==> CellOf(t, "Strike", i).Some? || CellOf(t, "Option Type", i).Some?)
    ensures forall i :: 0 <= i < t.rows ==> types[i] == InstrumentTypeAt(t, i)
  {
    var isOption := seq(t.rows, _ => false);
    if "Strike" in t.columns {
      isOption := OrNotNull(isOption, t.columns["Strike"]);
    }
    if "Option Type" in t.columns {
      isOption := OrNotNull(isOption, t.columns["Option Type"]);
    }
    types := seq(|isOption|, i requires 0 <= i < |isOption| => if isOption[i] then "OPTION" else "FUTURE");
  }

  /** Row i of the fragment: every canonical field read from the columns chosen for it. */
  function Row(t: Table, p: Parsers, i: nat): (r: Position)
    requires Readable(t) && i < t.rows
    ensures r.broker == BROKER && StartsWith(r.accountId, ACCOUNT_PREFIX)
  {
    var account := AccountSource(t);
    var productCode := Col(t, "Instrument Code");
    var productName := Resolve(t, ["Instrument Long Name", "Commodity Name"]);
    var putCall := MapPutCall(Col(t, "Option Type"));
    var strike := Col(t, "Strike");
    var month := NormalizeDeliveryMonth(t.columns["Delivery/Prompt date"], p.month);
    var side := MapSide(Col(t, "Side"));
    var quantity := Col(t, "Volume");
    var dateNames := ["Trade Date", "Last Traded date"];
    var dateSource := assert dateNames[0] in t.columns || dateNames[1] in t.columns; Resolve(t, dateNames);
    var tradeDate := NormalizeTradeDate(dateSource.value, p.date);
    var tradePrice := Col(t, "Price");
    var marketPrice := Col(t, "Market Rate");
    var margin := Col(t, "Variation Margin");
    var currency := Resolve(t, ["Currency Code", "Transaction Currency"]);
    var lotSize := Col(t, "Lot Size");
    var fxSpot := Col(t, "FX Spot Rate");
    Position(
      broker := BROKER,
      accountId := AccountId(ACCOUNT_PREFIX, account, i),
      productCode := At(productCode, i),
      productName := At(productName, i),
      instrumentType := Some(InstrumentTypeAt(t, i)),
      putCall := At(putCall, i),
      strikePrice := At(strike, i),
      deliveryMonth := month[i],
      side := At(side, i),
      quantity := At(quantity, i),
      tradeDate := tradeDate[i],
      tradePrice := At(tradePrice, i),
      marketPrice := At(marketPrice, i),
      variationMargin := At(margin, i),
      currency := At(currency, i),
      lotSize := At(lotSize, i),
      fxSpotRate := At(fxSpot, i))
  }

  /** normalize_broker_b: one canonical position per row of the export, in row order. */
  function Normalize(t: Table, p: Parsers): (r: seq<Position>)
    requires Readable(t)
    ensures |r| == t.rows
    ensures forall i :: 0 <= i < |r| ==> r[i].broker == BROKER && StartsWith(r[i].accountId, ACCOUNT_PREFIX)
  {
    seq(t.rows, i requires 0 <= i < t.rows => Row(t, p, i))
  }

  /** The account-id rule, row by row. */
  lemma AccountRule(t: Table, p: Parsers, i: nat)
    requires Readable(t) && i < t.rows
    ensures Normalize(t, p)[i].accountId ==
              if "Client Account" in t.columns && HasNonNull(t.columns["Client Account"])
              then ACCOUNT_PREFIX + Trim(AsText(t.columns["Client Account"][i]))
              else if "Ledger Code" in t.columns then ACCOUNT_PREFIX + Trim(AsText(t.columns["Ledger Code"][i]))
              else ACCOUNT_PREFIX + "UNKNOWN"
  {
    var source := AccountSource(t);
    assert Normalize(t, p)[i] == Row(t, p, i);
    assert Row(t, p, i).accountId == AccountId(ACCOUNT_PREFIX, source, i);
    if "Client Account" in t.columns && HasNonNull(t.columns["Client Account"]) {
      assert source == Some(t.columns["Client Account"]);
    } else if "Ledger Code" in t.columns {
      assert source == Some(t.columns["Ledger Code"]);
    }
  }

  /** A present but wholly null Client Account gives way to Ledger Code. */
  lemma NullClientAccountFallsBack(t: Table, p: Parsers, i: nat)
    requires Readable(t) && i < t.rows
    requires "Client Account" in t.columns && "Ledger Code" in t.columns
    requires forall k :: 0 <= k < t.rows ==> t.columns["Client Account"][k].None?
    ensures Normalize(t, p)[i].accountId == ACCOUNT_PREFIX + Trim(AsText(t.columns["Ledger Code"][i]))
  {
    AccountRule(t, p, i);
  }

  /** Row i is an OPTION exactly when Strike or Option Type holds a value there, a FUTURE otherwise. */
  lemma InstrumentTypeRule(t: Table, p: Parsers, i: nat)
    requires Readable(t) && i < t.rows
    ensures var kind := Normalize(t, p)[i].instrumentType;
            && (kind == Some("OPTION") <==> CellOf(t, "Strike", i).Some? || CellOf(t, "Option Type", i).Some?)
            && (kind == Some("FUTURE") <==> CellOf(t, "Strike", i).None? && CellOf(t, "Option Type", i).None?)
  {
    assert Normalize(t, p)[i].instrumentType == Some(InstrumentTypeAt(t, i));
  }

  /** The per-row normalisers: delivery month, trade date, side, put/call (read from Option Type). */
  lemma ScalarFields(t: Table, p: Parsers, i: nat)
    requires Readable(t) && i < t.rows
    ensures var row := Normalize(t, p)[i];
            && row.deliveryMonth == MonthOf(t.columns["Delivery/Prompt date"][i], p.month)
            && row.tradeDate == p.date(if "Trade Date" in t.columns then t.columns["Trade Date"][i]
                                       else t.columns["Last Traded date"][i])
            && row.side == (if "Side" in t.columns then Some(SideOf(t.columns["Side"][i])) else None)
            && row.putCall == (if "Option Type" in t.columns then Some(PutCallOf(t.columns["Option Type"][i])) else None)
  {
    var names := ["Trade Date", "Last Traded date"];
    var dates := Resolve(t, names);
    ResolveTwo(t, "Trade Date", "Last Traded date", i);
    assert names[0] in t.columns || names[1] in t.columns;
    assert dates.Some? && dates.value[i] == At(dates, i);
    assert Normalize(t, p)[i].tradeDate == p.date(dates.value[i]);
  }

  /** Each fallback chain reads the first of its columns the export has, and null when it has none. */
  lemma FallbackChains(t: Table, p: Parsers, i: nat)
    requires Readable(t) && i < t.rows
    ensures var row := Normalize(t, p)[i];
            && row.productName == (if "Instrument Long Name" in t.columns then CellOf(t, "Instrument Long Name", i)
                                   else CellOf(t, "Commodity Name", i))
            && row.currency == (if "Currency Code" in t.columns then CellOf(t, "Currency Code", i)
                                else CellOf(t, "Transaction Currency", i))
  {
    assert Normalize(t, p)[i] == Row(t, p, i);
    ResolveTwo(t, "Instrument Long Name", "Commodity Name", i);
    ResolveTwo(t, "Currency Code", "Transaction Currency", i);
  }

  /** The fields with a single source column are read as they are, null when the column is absent. */
  lemma DirectColumns(t: Table, p: Parsers, i: nat)
    requires Readable(t) && i < t.rows
    ensures var row := Normalize(t, p)[i];
            && row.productCode == CellOf(t, "Instrument Code", i)
            && row.strikePrice == CellOf(t, "Strike", i)
            && row.quantity == CellOf(t, "Volume", i)
            && row.tradePrice == CellOf(t, "Price", i)
            && row.marketPrice == CellOf(t, "Market Rate", i)
            && row.variationMargin == CellOf(t, "Variation Margin", i)
            && row.lotSize == CellOf(t, "Lot Size", i)
            && row.fxSpotRate == CellOf(t, "FX Spot Rate", i)
  {
    assert Normalize(t, p)[i] == Row(t, p, i);
  }
}
