/** The loadout builder's armour-set types, as far as the set-ranking code uses them.
    The module that declares them upstream (`loadout-builder/types.ts`) is not part of
    this model; only the shape the ranking code relies on is stated here. */
module ArmorTypes {

  /** `StatTypes`: the armour stats a generated set is scored on. The names and their
      number are assumed (the six Destiny 2 armour stats); nothing here depends on them. */
  datatype StatType = Mobility | Resilience | Recovery | Discipline | Intellect | Strength

  /** `statKeys`: every stat type once, in an assumed order; every sum over it is
      order-independent (`CalculateTotalTierAnyOrder`). */
  const StatKeys: seq<StatType> := [Mobility, Resilience, Recovery, Discipline, Intellect, Strength]

  /** `ArmorSet['stats']`: the record type `{ [k in StatTypes]: number }`, one value per stat. */
  datatype Stats = Stats(mobility: int, resilience: int, recovery: int, discipline: int, intellect: int, strength: int)
  {
    /** `stats[t]`. */
    function Get(t: StatType): int
    {
      match t
      case Mobility => mobility
      case Resilience => resilience
      case Recovery => recovery
      case Discipline => discipline
      case Intellect => intellect
      case Strength => strength
    }
  }

  /** A candidate set: the armour pieces it is built from and its stat totals.
      Only `stats` takes part in ranking; `armor` is carried along unchanged. */
  datatype ArmorSet = ArmorSet(armor: seq<nat>, stats: Stats)
}
