/**
 * The union step of the run: both brokers' canonical fragments in one
 * table, Broker A's rows first, nothing merged or dropped.
 */
module Pipeline {
  import opened Wrappers
  import opened RawTable
  import opened DeliveryMonth
  import opened Canonical
  import BrokerA
  import BrokerB

  /** pd.concat([a, b], ignore_index=True): a's rows, then b's, each in its own order. */
  function Concat(a: seq<Position>, b: seq<Position>): (r: seq<Position>)
    ensures |r| == |a| + |b|
    ensures r[..|a|] == a && r[|a|..] == b
    ensures forall i :: 0 <= i < |a| ==> r[i] == a[i]
    ensures forall j :: 0 <= j < |b| ==> r[|a| + j] == b[j]
  {
    a + b
  }

  /** The combined canonical table of one run. */
  function NormalizeAll(ta: Table, tb: Table, p: Parsers): (r: seq<Position>)
    requires BrokerA.Readable(ta) && BrokerB.Readable(tb)
    ensures |r| == ta.rows + tb.rows
    ensures r[..ta.rows] == BrokerA.Normalize(ta, p)
    ensures r[ta.rows..] == BrokerB.Normalize(tb, p)
  {
    var a := BrokerA.Normalize(ta, p);
    var b := BrokerB.Normalize(tb, p);
    Concat(a, b)
  }

  /** Rows 0 .. |A|-1 are Broker A's, tagged and prefixed "A:"; the rest are Broker B's, prefixed "B:". */
  lemma BrokerTags(ta: Table, tb: Table, p: Parsers)
    requires BrokerA.Readable(ta) && BrokerB.Readable(tb)
    ensures var r := NormalizeAll(ta, tb, p);
            forall i :: 0 <= i < |r| ==>
              if i < ta.rows then r[i].broker == "Broker A" && StartsWith(r[i].accountId, "A:")
              else r[i].broker == "Broker B" && StartsWith(r[i].accountId, "B:")
  {
    var r := NormalizeAll(ta, tb, p);
    var a := BrokerA.Normalize(ta, p);
    var b := BrokerB.Normalize(tb, p);
    forall i | 0 <= i < |r|
      ensures if i < ta.rows then r[i].broker == "Broker A" && StartsWith(r[i].accountId, "A:")
              else r[i].broker == "Broker B" && StartsWith(r[i].accountId, "B:")
    {
      if i < ta.rows {
        assert r[i] == a[i];
      } else {
        var j := i - ta.rows;
        assert r[ta.rows + j] == b[j];
      }
    }
  }

  /** Every delivery month in the combined table is null or four digits, '-', two digits. */
  lemma DeliveryMonthsCanonical(ta: Table, tb: Table, p: Parsers)
    requires BrokerA.Readable(ta) && BrokerB.Readable(tb)
    ensures var r := NormalizeAll(ta, tb, p);
            forall i :: 0 <= i < |r| && r[i].deliveryMonth.Some? ==> YearDashMonth(r[i].deliveryMonth.value)
  {
    var r := NormalizeAll(ta, tb, p);
    forall i | 0 <= i < |r| && r[i].deliveryMonth.Some?
      ensures YearDashMonth(r[i].deliveryMonth.value)
    {
      if i < ta.rows {
        BrokerA.ScalarFields(ta, p, i);
        NormOneShape(Prepare(ta.columns["Delivery Month/Year"][i]), p.month);
      } else {
        BrokerB.ScalarFields(tb, p, i - ta.rows);
        NormOneShape(Prepare(tb.columns["Delivery/Prompt date"][i - ta.rows]), p.month);
      }
    }
  }
}
