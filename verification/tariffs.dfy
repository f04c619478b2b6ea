/**
 The grid tariff schedule: two seasonal tables of three rates each, in DKK/kWh,
 chosen by calendar month, and a time-of-day bracket chosen by UTC hour.
 */
module Tariffs {

  datatype Season = Summer | Winter

  /** Time-of-day brackets, in the order the tables list them. */
  datatype Bracket = Low | High | Peak

  /** A seasonal table `[low, high, peak]`. */
  datatype TariffTable = TariffTable(low: real, high: real, peak: real)

  const SummerTariffs: TariffTable := TariffTable(0.1126, 0.1689, 0.4391)
  const WinterTariffs: TariffTable := TariffTable(0.1126, 0.3378, 1.0133)

  /** The months of the summer table, April through September. */
  const SummerMonths: set<int> := {4, 5, 6, 7, 8, 9}

  /** The season of a calendar month: summer from April to September inclusive. */
  function SeasonOf(month: int): (s: Season)
    ensures s == Summer <==> month in SummerMonths
  {
    if month >= 4 && month <= 9 then Summer else Winter
  }

  function TableOf(s: Season): TariffTable {
    match s
    case Summer => SummerTariffs
    case Winter => WinterTariffs
  }

  /** The table the handler selects for a month. */
  function TariffsFor(month: int): (t: TariffTable)
    ensures 4 <= month <= 9 ==> t == TariffTable(0.1126, 0.1689, 0.4391)
    ensures !(4 <= month <= 9) ==> t == TariffTable(0.1126, 0.3378, 1.0133)
  {
    TableOf(SeasonOf(month))
  }

  function Rate(t: TariffTable, b: Bracket): real {
    match b
    case Low => t.low
    case High => t.high
    case Peak => t.peak
  }

  /** The published schedule for an hour of the day, stated by its intervals. */
  function BracketOf(hour: int): (b: Bracket)
    requires 0 <= hour < 24
    ensures b == Low <==> hour in {0, 1, 2, 3, 4, 5}
    ensures b == Peak <==> hour in {17, 18, 19, 20}
    ensures b == High <==> 6 <= hour <= 16 || 21 <= hour <= 23
  {
    if hour < 6 then Low
    else if hour < 17 then High
    else if hour < 21 then Peak
    else High
  }

  // ---------------------------------------------------------------------------
  // The handler's hour test, as written: four independent `if`s, each adding
  // one rate; the last one's upper bound is `<= 24`.

  /** The four hour tests, in source order. */
  datatype Arm = Night | Day | Evening | Late

  /** Whether `arm` adds its rate at `hour`. */
  predicate ArmFires(arm: Arm, hour: int) {
    match arm
    case Night => 0 <= hour < 6
    case Day => 6 <= hour < 17
    case Evening => 17 <= hour < 21
    case Late => 21 <= hour <= 24
  }

  /** The bracket whose rate `arm` adds. */
  function ArmBracket(arm: Arm): Bracket {
    match arm
    case Night => Low
    case Day => High
    case Evening => Peak
    case Late => High
  }

  /** The rate `arm` adds at `hour`, zero when it does not fire. */
  function ArmRate(arm: Arm, hour: int, t: TariffTable): real {
    if ArmFires(arm, hour) then Rate(t, ArmBracket(arm)) else 0.0
  }

  /** The one arm that fires at an hour of the day. */
  function FiringArm(hour: int): (arm: Arm)
    requires 0 <= hour < 24
    ensures ArmFires(arm, hour)
    ensures forall other :: ArmFires(other, hour) ==> other == arm
    ensures ArmBracket(arm) == BracketOf(hour)
  {
    if hour < 6 then Night else if hour < 17 then Day else if hour < 21 then Evening else Late
  }

  /** The last arm fires for an hour of the day exactly in 21..23; its `<= 24` never matters. */
  lemma LastArmLateEvening(hour: int)
    requires 0 <= hour < 24
    ensures ArmFires(Late, hour) <==> 21 <= hour <= 23
    ensures ArmFires(Late, hour) <==> 21 <= hour < 24
  {
  }

  /** Both tables share the low rate; the winter high and peak rates are the dearer. */
  lemma WinterNotCheaperThanSummer(b: Bracket)
    ensures Rate(WinterTariffs, b) >= Rate(SummerTariffs, b)
    ensures Rate(WinterTariffs, b) == Rate(SummerTariffs, b) <==> b == Low
  {
  }
}
