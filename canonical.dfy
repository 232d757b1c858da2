/**
 * The canonical position row both adapters emit, the foreign date parsers
 * they are handed, and the pieces the two adapters share.
 */
module Canonical {
  import opened Wrappers
  import opened Text
  import opened RawTable
  import opened DeliveryMonth

  /**
   * The general date parsing the normaliser borrows from pandas: `month`
   * for the last resort of the delivery-month parser, `date` for one value
   * of normalize_trade_date ("YYYY-MM-DD" or null).
   */
  datatype Parsers = Parsers(month: MonthParser, date: Cell -> Cell)

  /**
   * One canonical position. The numeric fields carry the raw cell: the
   * numeric coercion is not part of this model.
   */
  datatype Position = Position(
    broker: string,
    accountId: string,
    productCode: Cell,
    productName: Cell,
    instrumentType: Cell,
    putCall: Cell,
    strikePrice: Cell,
    deliveryMonth: Cell,
    side: Cell,
    quantity: Cell,
    tradeDate: Cell,
    tradePrice: Cell,
    marketPrice: Cell,
    variationMargin: Cell,
    currency: Cell,
    lotSize: Cell,
    fxSpotRate: Cell)

  predicate StartsWith(s: string, prefix: string)
  {
    |prefix| <= |s| && s[..|prefix|] == prefix
  }

  /** normalize_trade_date over a column: the date parser applied to every value. */
  function NormalizeTradeDate(column: seq<Cell>, date: Cell -> Cell): (r: seq<Cell>)
    ensures |r| == |column|
    ensures forall i :: 0 <= i < |r| ==> r[i] == date(column[i])
  {
    seq(|column|, i requires 0 <= i < |column| => date(column[i]))
  }

  /**
   * The account id of row i: the prefix and the stripped text of the chosen
   * column's cell (a null cell reads "nan"), or the prefix and "UNKNOWN"
   * when no column was chosen.
   */
  function AccountId(prefix: string, source: Option<seq<Cell>>, i: nat): (r: string)
    requires source.Some? ==> i < |source.value|
    ensures StartsWith(r, prefix)
    ensures source.None? ==> r == prefix + "UNKNOWN"
    ensures source.Some? ==> r[|prefix|..] == Trim(AsText(source.value[i]))
  {
    match source
    case None => prefix + "UNKNOWN"
    case Some(cells) => prefix + Trim(AsText(cells[i]))
  }
}
