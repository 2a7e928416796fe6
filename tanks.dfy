/**
 * Tank records, the fixed table of tank types the gas planner offers, and the
 * effective-volume rule that turns a tank into the cubic feet of gas it supplies.
 * Volumes are in cubic feet.
 */
module Tanks {

  datatype Option<+T> = None | Some(value: T)

  /** The keys of the tank-type table. */
  datatype TankName = AL80 | AL40 | LP85 | LP108

  /**
   * One tank, or one manifolded pair when `double` is set. `caveFill` is the
   * volume of a cave fill (absent for tanks that have none); `fill` is the
   * volume at rated pressure, of one cylinder of a pair.
   */
  datatype Tank = Tank(name: string, double: bool, caveFill: Option<real>, fill: real)

  /** Volume of one cylinder: the cave fill when cave filling is on and the tank has one. */
  function SingleVolume(t: Tank, caveFilled: bool): (r: real)
    ensures r == t.fill || (caveFilled && t.caveFill == Some(r))
    ensures !caveFilled ==> r == t.fill
  {
    if caveFilled then (match t.caveFill case Some(c) => c case None => t.fill) else t.fill
  }

  /** Gas a tank supplies: a pair holds twice one cylinder. */
  function EffectiveVolume(t: Tank, caveFilled: bool): (r: real)
    ensures 0.0 <= t.fill && (t.caveFill.Some? ==> 0.0 <= t.caveFill.value) ==> 0.0 <= r
  {
    SingleVolume(t, caveFilled) * (if t.double then 2.0 else 1.0)
  }

  /** The tank-type table. Only the two low-pressure steel tanks are doubles, and cave filling never lowers a volume. */
  function TankType(n: TankName): (t: Tank)
    ensures t.fill > 0.0
    ensures t.double <==> n == LP85 || n == LP108
    ensures t.caveFill.Some? <==> t.double
    ensures EffectiveVolume(t, false) <= EffectiveVolume(t, true)
    ensures !t.double ==> EffectiveVolume(t, true) == EffectiveVolume(t, false) == t.fill
  {
    match n
    case AL80 => Tank("AL80", false, None, 80.0)
    case AL40 => Tank("AL40", false, None, 40.0)
    case LP85 => Tank("LP85", true, Some(109.0), 85.0)
    case LP108 => Tank("LP108", true, Some(147.0), 108.0)
  }

  /** Left fold of the effective volumes, accumulated from the first tank to the last. */
  function TotalVolume(s: seq<Tank>, caveFilled: bool): (r: real)
    ensures (forall i :: 0 <= i < |s| ==> 0.0 <= EffectiveVolume(s[i], caveFilled)) ==> 0.0 <= r
  {
    if s == [] then 0.0
    else
      var init := s[..|s| - 1];
      assert forall i :: 0 <= i < |init| ==> init[i] == s[i];
      TotalVolume(init, caveFilled) + EffectiveVolume(s[|s| - 1], caveFilled)
  }

  /** Sum of the tanks' fills, one cylinder each, accumulated from the first tank to the last. */
  function FillSum(s: seq<Tank>): real {
    if s == [] then 0.0 else FillSum(s[..|s| - 1]) + s[|s| - 1].fill
  }

  lemma {:induction false} TotalVolumeConcat(a: seq<Tank>, b: seq<Tank>, caveFilled: bool)
    ensures TotalVolume(a + b, caveFilled) == TotalVolume(a, caveFilled) + TotalVolume(b, caveFilled)
    decreases |b|
  {
    if b == [] {
      assert a + b == a;
    } else {
      var init := b[..|b| - 1];
      assert (a + b)[..|a + b| - 1] == a + init;
      assert (a + b)[|a + b| - 1] == b[|b| - 1];
      TotalVolumeConcat(a, init, caveFilled);
    }
  }

  /** Removing the tank at index i lowers the total by exactly that tank's effective volume. */
  lemma TotalVolumeRemove(s: seq<Tank>, i: nat, caveFilled: bool)
    requires i < |s|
    ensures TotalVolume(s[..i] + s[i + 1..], caveFilled)
         == TotalVolume(s, caveFilled) - EffectiveVolume(s[i], caveFilled)
  {
    assert s == (s[..i] + [s[i]]) + s[i + 1..];
    TotalVolumeConcat(s[..i] + [s[i]], s[i + 1..], caveFilled);
    TotalVolumeConcat(s[..i], [s[i]], caveFilled);
    TotalVolumeConcat(s[..i], s[i + 1..], caveFilled);
    assert [s[i]][..0] == [];
  }

  /** Replacing the tank at index i changes the total by the new volume minus the old one. */
  lemma TotalVolumeReplace(s: seq<Tank>, i: nat, t: Tank, caveFilled: bool)
    requires i < |s|
    ensures TotalVolume(s[i := t], caveFilled)
         == TotalVolume(s, caveFilled) - EffectiveVolume(s[i], caveFilled) + EffectiveVolume(t, caveFilled)
  {
    assert s[i := t] == (s[..i] + [t]) + s[i + 1..];
    TotalVolumeConcat(s[..i] + [t], s[i + 1..], caveFilled);
    TotalVolumeConcat(s[..i], [t], caveFilled);
    assert [t][..0] == [];
    TotalVolumeRemove(s, i, caveFilled);
    TotalVolumeConcat(s[..i], s[i + 1..], caveFilled);
  }
}
