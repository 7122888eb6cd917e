/**
 * Commission banding: `pd.cut` over the edges 0, 499, 800, 1200, 1500 and
 * infinity, intervals closed on the right, the lowest edge included.
 */
module Bands {
  import opened Wrappers

  /** The five bands, in the category order of the chart legend. */
  datatype Band = Upto499 | Upto800 | Upto1200 | Upto1500 | Above1500

  const AllBands: seq<Band> := [Upto499, Upto800, Upto1200, Upto1500, Above1500]

  /** The finite bin edges; the last band has no upper edge. */
  const Edges: seq<real> := [0.0, 499.0, 800.0, 1200.0, 1500.0]

  function Rank(b: Band): nat {
    match b
    case Upto499 => 0
    case Upto800 => 1
    case Upto1200 => 2
    case Upto1500 => 3
    case Above1500 => 4
  }

  /** The category labels; the top band is labelled "1800+" although it starts above 1500. */
  function Label(b: Band): string {
    match b
    case Upto499 => "0-499"
    case Upto800 => "500-800"
    case Upto1200 => "800-1200"
    case Upto1500 => "1200-1500"
    case Above1500 => "1800+"
  }

  /** `x` lies in band `b`: between consecutive edges, closed on the right, the lowest edge included. */
  predicate InBand(x: real, b: Band) {
    var k := Rank(b);
    (if k == 0 then Edges[0] <= x else Edges[k] < x) && (k == 4 || x <= Edges[k + 1])
  }

  /**
   * The band of a commission. A missing or negative commission falls outside
   * every interval and gets no band; it is never treated as zero.
   */
  function BandOf(c: Option<real>): (r: Option<Band>)
    ensures r.Some? <==> c.Some? && c.value >= 0.0
    ensures r.Some? ==> InBand(c.value, r.value)
  {
    match c
    case None => None
    case Some(x) =>
      if x < 0.0 then None
      else if x <= 499.0 then Some(Upto499)
      else if x <= 800.0 then Some(Upto800)
      else if x <= 1200.0 then Some(Upto1200)
      else if x <= 1500.0 then Some(Upto1500)
      else Some(Above1500)
  }

  /** The intervals do not overlap, so the band of a value is unique. */
  lemma BandOfExact(x: real, b: Band)
    ensures BandOf(Some(x)) == Some(b) <==> InBand(x, b)
  {
  }

  /** A larger commission never gets a lower band. */
  lemma BandOfMonotone(x: real, y: real)
    requires 0.0 <= x <= y
    ensures Rank(BandOf(Some(x)).value) <= Rank(BandOf(Some(y)).value)
  {
  }

  lemma BandOfBoundaries()
    ensures BandOf(Some(0.0)) == Some(Upto499)
    ensures BandOf(Some(499.0)) == Some(Upto499)
    ensures BandOf(Some(500.0)) == Some(Upto800)
    ensures BandOf(Some(800.0)) == Some(Upto800)
    ensures BandOf(Some(1200.0)) == Some(Upto1200)
    ensures BandOf(Some(1201.0)) == Some(Upto1500)
    ensures BandOf(Some(1500.0)) == Some(Upto1500)
    ensures BandOf(Some(1501.0)) == Some(Above1500)
    ensures BandOf(Some(-1.0)) == None && BandOf(None) == None
  {
  }

  /** `AllBands` lists every band once, in rank order, with distinct labels. */
  lemma AllBandsOrdered()
    ensures forall b :: b in AllBands
    ensures forall i :: 0 <= i < |AllBands| ==> Rank(AllBands[i]) == i
    ensures forall a, b :: Label(a) == Label(b) ==> a == b
  {
    forall b: Band
      ensures b in AllBands
    {
      assert AllBands[Rank(b)] == b;
    }
  }
}
