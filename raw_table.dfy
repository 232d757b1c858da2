/**
 * A broker's raw export as the adapters see it: named columns of equal
 * length whose cells are text or null (pandas' NaN), and the column look-up
 * helpers `col` and the "first present candidate wins" fallback chains.
 */
module RawTable {
  import opened Wrappers

  /** One raw cell: Some(text) or None for a null (NaN) value. */
  type Cell = Option<string>

  /** astype(str) of one cell: a null reads as the text "nan". */
  function AsText(c: Cell): (r: string)
    ensures c.Some? ==> r == c.value
    ensures c.None? ==> r == "nan"
  {
    match c
    case Some(s) => s
    case None => "nan"
  }

  datatype Table = Table(rows: nat, columns: map<string, seq<Cell>>) {
    /** Every column holds one cell per row. */
    predicate Valid()
    {
      forall name :: name in columns ==> |columns[name]| == rows
    }
  }

  /** col(name): the column if the table has it, otherwise nothing. */
  function Col(t: Table, name: string): (r: Option<seq<Cell>>)
    ensures r.Some? <==> name in t.columns
    ensures r.Some? ==> r.value == t.columns[name]
  {
    if name in t.columns then Some(t.columns[name]) else None
  }

  /** df.notna().any() on one column. */
  predicate HasNonNull(column: seq<Cell>)
    ensures !HasNonNull(column) <==> forall i :: 0 <= i < |column| ==> column[i].None?
  {
    exists i :: 0 <= i < |column| && column[i].Some?
  }

  /** The position of the first candidate the table has, if any. */
  function FirstPresent(t: Table, candidates: seq<string>): (r: Option<nat>)
    ensures r.Some? ==> r.value < |candidates| && candidates[r.value] in t.columns
    ensures forall j :: 0 <= j < |candidates| && (r.None? || j < r.value) ==> candidates[j] !in t.columns
  {
    if candidates == [] then None
    else if candidates[0] in t.columns then Some(0)
    else match FirstPresent(t, candidates[1..])
      case None => None
      case Some(k) => Some(k + 1)
  }

  /**
   * A fallback chain `col(a) if a in df.columns else col(b) if ... else col(z)`:
   * the column of the first candidate present, or nothing when none is.
   */
  function Resolve(t: Table, candidates: seq<string>): (r: Option<seq<Cell>>)
    ensures r.None? <==> forall j :: 0 <= j < |candidates| ==> candidates[j] !in t.columns
    ensures t.Valid() && r.Some? ==> |r.value| == t.rows
  {
    match FirstPresent(t, candidates)
    case None => None
    case Some(k) => Some(t.columns[candidates[k]])
  }

  /** The chosen column is that of the first candidate present, whichever it is. */
  lemma ResolvePicksFirst(t: Table, candidates: seq<string>, j: nat)
    requires j < |candidates| && candidates[j] in t.columns
    requires forall k :: 0 <= k < j ==> candidates[k] !in t.columns
    ensures Resolve(t, candidates) == Some(t.columns[candidates[j]])
  {
    var r := FirstPresent(t, candidates);
    assert r.Some?;
    assert r.value == j;
  }

  /** The cell of row i in a column that may be absent; an absent column reads as null. */
  function At(column: Option<seq<Cell>>, i: nat): (c: Cell)
    requires column.Some? ==> i < |column.value|
    ensures column.None? ==> c.None?
  {
    match column
    case None => None
    case Some(cells) => cells[i]
  }

  /** The cell of row i of the named column, null when the table has no such column. */
  function CellOf(t: Table, name: string, i: nat): Cell
  {
    if name in t.columns && i < |t.columns[name]| then t.columns[name][i] else None
  }

  /**
   * The nested conditional the source writes out for a chain:
   * `col(a) if a in df.columns else col(b) if b in df.columns else ...`,
   * read at row i.
   */
  function ChainCell(t: Table, candidates: seq<string>, i: nat): Cell
  {
    if candidates == [] then None
    else if candidates[0] in t.columns then CellOf(t, candidates[0], i)
    else ChainCell(t, candidates[1..], i)
  }

  /** Resolving the chain once and reading row i agrees with the nested conditional at row i. */
  lemma {:induction false} ResolveAt(t: Table, candidates: seq<string>, i: nat)
    requires t.Valid() && i < t.rows
    ensures At(Resolve(t, candidates), i) == ChainCell(t, candidates, i)
  {
    if candidates != [] && candidates[0] !in t.columns {
      ResolveAt(t, candidates[1..], i);
      var rest := FirstPresent(t, candidates[1..]);
      assert FirstPresent(t, candidates) == (if rest.None? then None else Some(rest.value + 1));
      if rest.Some? {
        assert candidates[rest.value + 1] == candidates[1..][rest.value];
      }
    }
  }

  /** A two-column chain `col(a) if a in df.columns else col(b)`, at row i. */
  lemma ResolveTwo(t: Table, a: string, b: string, i: nat)
    requires t.Valid() && i < t.rows
    ensures At(Resolve(t, [a, b]), i) == if a in t.columns then CellOf(t, a, i) else CellOf(t, b, i)
  {
    ResolveAt(t, [a, b], i);
    assert [a, b][1..] == [b] && [b][1..] == [];
  }

  /** A three-column chain, at row i. */
  lemma ResolveThree(t: Table, a: string, b: string, c: string, i: nat)
    requires t.Valid() && i < t.rows
    ensures At(Resolve(t, [a, b, c]), i)
         == if a in t.columns then CellOf(t, a, i) else if b in t.columns then CellOf(t, b, i) else CellOf(t, c, i)
  {
    ResolveAt(t, [a, b, c], i);
    assert [a, b, c][1..] == [b, c] && [b, c][1..] == [c] && [c][1..] == [];
    assert ChainCell(t, [c], i) == CellOf(t, c, i);
    assert ChainCell(t, [b, c], i) == if b in t.columns then CellOf(t, b, i) else CellOf(t, c, i);
  }
}
