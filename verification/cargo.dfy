/**
  The cargo types of the two generators, in the order their constructors list
  them, with the TEU size of each.
 */
module Cargo {
  import opened Common
  import opened Shares

  /** Container kinds: dry (DC), reefer (RC), high-cube dry (HC) and high-cube reefer (HR). */
  datatype Kind = DC | RC | HC | HR

  /** A cargo type: container size, weight class in tonnes and container kind. */
  datatype CargoType = CargoType(size: Size, weight: real, kind: Kind)

  /** `cargo_types`, in the order the constructor lists them. */
  function CargoTypes(): (ts: seq<CargoType>)
    ensures |ts| == 28
  {
    [ CargoType(Twenty, 3.0, DC), CargoType(Twenty, 9.0, DC), CargoType(Twenty, 14.0, DC), CargoType(Twenty, 21.0, DC),
      CargoType(Twenty, 27.0, DC), CargoType(Twenty, 30.0, DC), CargoType(Twenty, 33.0, DC),
      CargoType(Twenty, 14.0, RC), CargoType(Twenty, 21.0, RC), CargoType(Twenty, 27.0, RC), CargoType(Twenty, 30.0, RC),
      CargoType(Twenty, 33.0, RC),
      CargoType(Forty, 3.0, DC), CargoType(Forty, 9.0, DC), CargoType(Forty, 14.0, DC), CargoType(Forty, 21.0, DC),
      CargoType(Forty, 27.0, DC),
      CargoType(Forty, 14.0, RC), CargoType(Forty, 21.0, RC), CargoType(Forty, 27.0, RC),
      CargoType(Forty, 3.0, HC), CargoType(Forty, 9.0, HC), CargoType(Forty, 14.0, HC), CargoType(Forty, 21.0, HC),
      CargoType(Forty, 27.0, HC),
      CargoType(Forty, 14.0, HR), CargoType(Forty, 21.0, HR), CargoType(Forty, 27.0, HR) ]
  }

  /** No cargo type is listed twice, so the dicts keyed by cargo type have one entry per type. */
  lemma CargoTypesDistinct()
    ensures DistinctSeq(CargoTypes())
  {
    var ts := CargoTypes();
    assert forall a, b :: 0 <= a < b < 28 ==> ts[a] != ts[b];
  }

  /** `self.teu` of either generator: the TEU size of every cargo type, read off its container size. */
  function TeuOf<T>(ts: seq<T>, size: T -> Size): (teu: seq<nat>)
    ensures |teu| == |ts| && forall k :: 0 <= k < |ts| ==> 1 <= teu[k] <= 2 && (teu[k] == 1 <==> size(ts[k]) == Twenty)
  {
    seq(|ts|, k requires 0 <= k < |ts| => Teu(size(ts[k])))
  }

  // ---------- The legacy generator's cargo types ----------

  datatype Weight = Light | Medium | Heavy
  datatype Revenue = Long | Spot

  /** A legacy cargo type: size, weight class, revenue class, and whether it is a reefer. */
  datatype LegacyCargoType = LegacyCargoType(size: Size, weight: Weight, revenue: Revenue, reefer: bool)

  /**
    The legacy `cargo_types`: every dry combination of size, weight and revenue,
    sizes outermost and revenues innermost, then the two 40ft medium reefers
    when reefers are included.
   */
  function LegacyCargoTypes(includeReefer: bool): (ts: seq<LegacyCargoType>)
    ensures |ts| == if includeReefer then 14 else 12
    ensures forall j :: 0 <= j < |ts| ==> (ts[j].reefer <==> j >= 12)
    ensures forall j :: 12 <= j < |ts| ==> ts[j].size == Forty && ts[j].weight == Medium
    ensures forall j :: 0 <= j < |ts| ==> (ts[j].size == Twenty <==> j < 6)
  {
    var dry := [ LegacyCargoType(Twenty, Light, Long, false), LegacyCargoType(Twenty, Light, Spot, false),
                 LegacyCargoType(Twenty, Medium, Long, false), LegacyCargoType(Twenty, Medium, Spot, false),
                 LegacyCargoType(Twenty, Heavy, Long, false), LegacyCargoType(Twenty, Heavy, Spot, false),
                 LegacyCargoType(Forty, Light, Long, false), LegacyCargoType(Forty, Light, Spot, false),
                 LegacyCargoType(Forty, Medium, Long, false), LegacyCargoType(Forty, Medium, Spot, false),
                 LegacyCargoType(Forty, Heavy, Long, false), LegacyCargoType(Forty, Heavy, Spot, false) ];
    if includeReefer then dry + [LegacyCargoType(Forty, Medium, Long, true), LegacyCargoType(Forty, Medium, Spot, true)]
    else dry
  }

  /** Every dry combination of size, weight and revenue is listed, reefer or not. */
  lemma LegacyCargoTypesComplete(includeReefer: bool, t: LegacyCargoType)
    requires !t.reefer
    ensures t in LegacyCargoTypes(includeReefer)
  {
    var ts := LegacyCargoTypes(includeReefer);
    var j := (if t.size == Twenty then 0 else 6)
             + (match t.weight case Light => 0 case Medium => 2 case Heavy => 4)
             + (if t.revenue == Long then 0 else 1);
    assert ts[j] == t;
  }

  /** No legacy cargo type is listed twice. */
  lemma LegacyCargoTypesDistinct(includeReefer: bool)
    ensures DistinctSeq(LegacyCargoTypes(includeReefer))
  {
    var ts := LegacyCargoTypes(includeReefer);
    assert forall a, b :: 0 <= a < b < |ts| ==> ts[a] != ts[b];
  }
}
