/**
 * The gas planner's tank inventory: the list of tanks, the running total of
 * the gas they supply, and whether the tanks are cave filled. Each transition
 * updates the total incrementally; the class invariant says the running total
 * always equals the sum of the effective volumes.
 */
module Inventory {
  import opened Tanks

  class GasPlanner {
    var tanks: seq<Tank>
    var totalGas: real
    var caveFilled: bool

    /** The running total agrees with the fold over the current tanks. */
    ghost predicate Valid()
      reads this
    {
      totalGas == TotalVolume(tanks, caveFilled)
    }

    /** No tanks, no gas, cave filling on. */
    constructor ()
      ensures Valid()
      ensures tanks == [] && totalGas == 0.0 && caveFilled
    {
      tanks := [];
      totalGas := 0.0;
      caveFilled := true;
    }

    /** Appends an AL80; the total grows by the table's AL80 fill. */
    method AddTank()
      requires Valid()
      modifies this
      ensures Valid()
      ensures tanks == old(tanks) + [TankType(AL80)]
      ensures totalGas == old(totalGas) + 80.0
      ensures caveFilled == old(caveFilled)
    {
      var added := TankType(AL80);
      tanks := tanks + [added];
      totalGas := totalGas + added.fill;
      assert tanks[..|tanks| - 1] == old(tanks);
    }

    /** Splices out the tank at index i and subtracts its effective volume. */
    method RemoveTank(i: nat)
      requires Valid()
      requires i < |tanks|
      modifies this
      ensures Valid()
      ensures tanks == old(tanks[..i] + tanks[i + 1..])
      ensures totalGas == old(totalGas) - EffectiveVolume(old(tanks[i]), caveFilled)
      ensures caveFilled == old(caveFilled)
    {
      var newTanks := tanks[..i] + tanks[i + 1..];
      TotalVolumeRemove(tanks, i, caveFilled);
      totalGas := totalGas - SingleVolume(tanks[i], caveFilled) * (if tanks[i].double then 2.0 else 1.0);
      tanks := newTanks;
    }

    /** Puts a table tank at index i; the total moves by the new volume minus the old. */
    method SetTankType(i: nat, newName: TankName)
      requires Valid()
      requires i < |tanks|
      modifies this
      ensures Valid()
      ensures tanks == old(tanks)[i := TankType(newName)]
      ensures totalGas == old(totalGas) - EffectiveVolume(old(tanks[i]), caveFilled)
                                         + EffectiveVolume(TankType(newName), caveFilled)
      ensures caveFilled == old(caveFilled)
    {
      var newTanks := tanks[i := TankType(newName)];
      TotalVolumeReplace(tanks, i, TankType(newName), caveFilled);
      totalGas := (totalGas - SingleVolume(tanks[i], caveFilled) * (if tanks[i].double then 2.0 else 1.0))
                  + SingleVolume(newTanks[i], caveFilled) * (if newTanks[i].double then 2.0 else 1.0);
      tanks := newTanks;
    }

    /** Flips cave filling and recomputes the total from scratch under the new flag. */
    method ChangeFillType()
      modifies this
      ensures Valid()
      ensures caveFilled == !old(caveFilled)
      ensures tanks == old(tanks)
      ensures totalGas == TotalVolume(tanks, caveFilled)
    {
      var newFillType := !caveFilled;
      caveFilled := newFillType;
      totalGas := TotalVolume(tanks, newFillType);
    }
  }

  /** Toggling cave filling twice puts the inventory back exactly as it was. */
  method ChangeFillTypeTwice(p: GasPlanner)
    requires p.Valid()
    modifies p
    ensures p.Valid()
    ensures p.tanks == old(p.tanks) && p.totalGas == old(p.totalGas) && p.caveFilled == old(p.caveFilled)
  {
    p.ChangeFillType();
    p.ChangeFillType();
  }
}
