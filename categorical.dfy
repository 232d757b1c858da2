/**
 * map_side and map_put_call: a present column is stripped and upper-cased
 * value by value, a few synonyms are folded onto one canonical word, and
 * every other value passes through upper-cased; an absent column stays
 * absent.
 */
module Categorical {
  import opened Wrappers
  import opened Text
  import opened RawTable

  const BUY_TOKENS: set<string> := {"B", "BUY", "BOUGHT"}
  const SELL_TOKENS: set<string> := {"S", "SELL", "SOLD"}
  const PUT_TOKENS: set<string> := {"P", "PUT"}
  const CALL_TOKENS: set<string> := {"C", "CALL"}

  /** astype(str).str.strip().str.upper() of one cell (a null reads "NAN"). */
  function Folded(cell: Cell): (r: string)
    ensures r == Upper(Trim(AsText(cell)))
    ensures Trimmed(r) && Upper(r) == r
  {
    UpperOfTrimmed(Trim(AsText(cell)));
    Upper(Trim(AsText(cell)))
  }

  /** The replace table of map_side, applied to a folded value. */
  function SideWord(u: string): (r: string)
    ensures r == "BUY" <==> u in BUY_TOKENS
    ensures r == "SELL" <==> u in SELL_TOKENS
    ensures r != "BUY" && r != "SELL" ==> r == u
  {
    if u in BUY_TOKENS then "BUY" else if u in SELL_TOKENS then "SELL" else u
  }

  /** The replace table of map_put_call, applied to a folded value. */
  function PutCallWord(u: string): (r: string)
    ensures r == "PUT" <==> u in PUT_TOKENS
    ensures r == "CALL" <==> u in CALL_TOKENS
    ensures r != "PUT" && r != "CALL" ==> r == u
  {
    if u in PUT_TOKENS then "PUT" else if u in CALL_TOKENS then "CALL" else u
  }

  /** One value of map_side. */
  function SideOf(cell: Cell): (r: string)
    ensures r == "BUY" <==> Folded(cell) in BUY_TOKENS
    ensures r == "SELL" <==> Folded(cell) in SELL_TOKENS
    ensures r != "BUY" && r != "SELL" ==> r == Folded(cell)
  {
    SideWord(Folded(cell))
  }

  /** One value of map_put_call. */
  function PutCallOf(cell: Cell): (r: string)
    ensures r == "PUT" <==> Folded(cell) in PUT_TOKENS
    ensures r == "CALL" <==> Folded(cell) in CALL_TOKENS
    ensures r != "PUT" && r != "CALL" ==> r == Folded(cell)
  {
    PutCallWord(Folded(cell))
  }

  /** map_side over a column that may be absent. */
  function MapSide(column: Option<seq<Cell>>): (r: Option<seq<Cell>>)
    ensures r.None? <==> column.None?
    ensures r.Some? ==> |r.value| == |column.value|
    ensures r.Some? ==> forall i :: 0 <= i < |r.value| ==> r.value[i] == Some(SideOf(column.value[i]))
  {
    match column
    case None => None
    case Some(cells) => Some(seq(|cells|, i requires 0 <= i < |cells| => Some(SideOf(cells[i]))))
  }

  /** map_put_call over a column that may be absent. */
  function MapPutCall(column: Option<seq<Cell>>): (r: Option<seq<Cell>>)
    ensures r.None? <==> column.None?
    ensures r.Some? ==> |r.value| == |column.value|
    ensures r.Some? ==> forall i :: 0 <= i < |r.value| ==> r.value[i] == Some(PutCallOf(column.value[i]))
  {
    match column
    case None => None
    case Some(cells) => Some(seq(|cells|, i requires 0 <= i < |cells| => Some(PutCallOf(cells[i]))))
  }

  /** Folding an already folded value changes nothing. */
  lemma FoldedIdempotent(cell: Cell)
    ensures Folded(Some(Folded(cell))) == Folded(cell)
  {
    var t := Trim(AsText(cell));
    UpperOfTrimmed(t);
  }

  /** A word of capital letters is already folded. */
  lemma CapitalWord(w: string)
    requires forall i :: 0 <= i < |w| ==> 'A' <= w[i] <= 'Z'
    ensures Folded(Some(w)) == w
  {
    TrimOfTrimmed(w);
    assert Upper(w) == w;
  }

  /** A canonical word folds to itself. */
  lemma FoldedWord(w: string)
    requires w in {"BUY", "SELL", "PUT", "CALL"}
    ensures Folded(Some(w)) == w
  {
    if w == "BUY" {
      assert |w| == 3 && w[0] == 'B' && w[1] == 'U' && w[2] == 'Y';
    } else if w == "SELL" {
      assert |w| == 4 && w[0] == 'S' && w[1] == 'E' && w[2] == 'L' && w[3] == 'L';
    } else if w == "PUT" {
      assert |w| == 3 && w[0] == 'P' && w[1] == 'U' && w[2] == 'T';
    } else {
      assert |w| == 4 && w[0] == 'C' && w[1] == 'A' && w[2] == 'L' && w[3] == 'L';
    }
    CapitalWord(w);
  }

  /** map_side applied to its own output changes nothing. */
  lemma SideIdempotent(cell: Cell)
    ensures SideOf(Some(SideOf(cell))) == SideOf(cell)
  {
    var r := SideOf(cell);
    if r == "BUY" || r == "SELL" {
      FoldedWord(r);
    } else {
      FoldedIdempotent(cell);
    }
  }

  /** map_put_call applied to its own output changes nothing. */
  lemma PutCallIdempotent(cell: Cell)
    ensures PutCallOf(Some(PutCallOf(cell))) == PutCallOf(cell)
  {
    var r := PutCallOf(cell);
    if r == "PUT" || r == "CALL" {
      FoldedWord(r);
    } else {
      FoldedIdempotent(cell);
    }
  }

  /** Column-wide: mapping the side column twice is mapping it once. */
  lemma MapSideIdempotent(column: Option<seq<Cell>>)
    ensures MapSide(MapSide(column)) == MapSide(column)
  {
    if column.Some? {
      var once := MapSide(column).value;
      forall i | 0 <= i < |once|
        ensures MapSide(MapSide(column)).value[i] == once[i]
      {
        SideIdempotent(column.value[i]);
      }
      assert MapSide(MapSide(column)).value == once;
    }
  }

  /** Column-wide: mapping the put/call column twice is mapping it once. */
  lemma MapPutCallIdempotent(column: Option<seq<Cell>>)
    ensures MapPutCall(MapPutCall(column)) == MapPutCall(column)
  {
    if column.Some? {
      var once := MapPutCall(column).value;
      forall i | 0 <= i < |once|
        ensures MapPutCall(MapPutCall(column)).value[i] == once[i]
      {
        PutCallIdempotent(column.value[i]);
      }
      assert MapPutCall(MapPutCall(column)).value == once;
    }
  }

  lemma UpperOfNan(t: string)
    requires t == "nan"
    ensures Upper(t) == "NAN"
  {
    var u := Upper(t);
    assert |u| == 3 && u[0] == 'N' && u[1] == 'A' && u[2] == 'N';
  }

  /** A null cell in a present column reads "nan" and folds to "NAN". */
  lemma FoldedOfNull(cell: Cell)
    requires cell.None?
    ensures Folded(cell) == "NAN"
  {
    TrimOfTrimmed("nan");
    UpperOfNan("nan");
  }

  /** A folded value starting with neither 'B' nor 'S' is no side synonym and passes through. */
  lemma NotASideToken(u: string)
    requires u != [] && u[0] != 'B' && u[0] != 'S'
    ensures SideWord(u) == u
  {
    assert "B"[0] == 'B' && "BUY"[0] == 'B' && "BOUGHT"[0] == 'B';
    assert "S"[0] == 'S' && "SELL"[0] == 'S' && "SOLD"[0] == 'S';
  }

  /** A null cell in a present column is not kept null: map_side turns it into "NAN". */
  lemma NullSideIsNan(cell: Cell)
    requires cell.None?
    ensures SideOf(cell) == "NAN"
  {
    FoldedOfNull(cell);
    var u := Folded(cell);
    assert u[0] == 'N';
    NotASideToken(u);
  }

  /** Folding a text that is already stripped is upper-casing it. */
  lemma FoldedOfTrimmed(s: string)
    requires Trimmed(s)
    ensures Folded(Some(s)) == Upper(s)
  {
    TrimOfTrimmed(s);
  }

  /** "b" is BUY. */
  lemma LowerBIsBuy(b: string)
    requires b == "b"
    ensures SideOf(Some(b)) == "BUY"
  {
    assert b[0] == 'b';
    FoldedOfTrimmed(b);
    UpperOfLowerB(b);
    CapitalBIsBuyWord(Upper(b));
  }

  /** Padding around a value is stripped before the lookup: " b " maps to BUY. */
  lemma PaddedLowerBIsBuy(x: string)
    requires x == " b "
    ensures SideOf(Some(x)) == "BUY"
  {
    StripPaddedB(x);
    UpperOfLowerB("b");
    CapitalBIsBuyWord(Upper("b"));
  }

  lemma StripPaddedB(x: string)
    requires x == " b "
    ensures Trim(x) == "b"
  {
    assert x[0] == ' ' && x[1..] == "b ";
    assert TrimStart(x) == "b ";
    assert "b "[..1] == "b";
    assert TrimEnd("b ") == "b";
  }

  lemma UpperOfLowerB(b: string)
    requires b == "b"
    ensures Upper(b) == "B"
  {
    var u := Upper(b);
    assert |u| == 1 && u[0] == 'B';
  }

  lemma CapitalBIsBuyWord(u: string)
    requires u == "B"
    ensures SideWord(u) == "BUY"
  {
    assert u in BUY_TOKENS;
  }

  lemma UpperOfSold(s: string)
    requires s == "Sold"
    ensures Upper(s) == "SOLD"
  {
    var u := Upper(s);
    assert |u| == 4 && u[0] == 'S' && u[1] == 'O' && u[2] == 'L' && u[3] == 'D';
  }

  lemma SoldIsSellWord(u: string)
    requires u == "SOLD"
    ensures SideWord(u) == "SELL"
  {
    assert u[0] == 'S';
    assert "B"[0] == 'B' && "BUY"[0] == 'B' && "BOUGHT"[0] == 'B';
    assert u in SELL_TOKENS;
  }

  /** "Sold" is SELL. */
  lemma SoldIsSell(sold: string)
    requires sold == "Sold"
    ensures SideOf(Some(sold)) == "SELL"
  {
    assert sold[0] == 'S' && sold[3] == 'd';
    FoldedOfTrimmed(sold);
    UpperOfSold(sold);
    SoldIsSellWord(Upper(sold));
  }

  /** The unknown "X" passes through as "X". */
  lemma UnknownSidePassesThrough(x: string)
    requires x == "X"
    ensures SideOf(Some(x)) == "X"
  {
    assert x[0] == 'X';
    CapitalWord(x);
    NotASideToken(x);
  }
}
