/** How much a proof-of-stake block may create. */
module Rewards {
  import opened Basics
  import opened Ledger
  import opened LedgerLaws

  const HARDFORK_TIME: int := 1_451_570_400
  const HARDFORK_HEIGHTV4: int := 1_584_000

  /** Conversion of a double to an integer drops the fraction. */
  function Truncate(x: real): int {
    if x >= 0.0 then x.Floor else -(-x).Floor
  }

  /** The 64-bit fee total is passed on as a 32-bit int. */
  function ToInt32(x: int): int {
    var m := x % 0x1_0000_0000;
    if m < 0x8000_0000 then m else m - 0x1_0000_0000
  }

  function GetPoSPRewardV1(moneySupply: int): int {
    Truncate(moneySupply as real * 0.02 / 485169.0)
  }

  function GetPoSPRewardV2(moneySupply: int, fees: int): int {
    Truncate(moneySupply as real * 0.02 / 485169.0 + fees as real)
  }

  /** legacy is the reward by coin age that applied before HARDFORK_TIME. */
  function GetProofOfStakeReward(legacy: int, time: int, parentHeight: nat, moneySupply: int, fees: int): int {
    if parentHeight >= HARDFORK_HEIGHTV4 then GetPoSPRewardV2(moneySupply, ToInt32(fees))
    else if time >= HARDFORK_TIME then GetPoSPRewardV1(moneySupply)
    else legacy
  }

  lemma TruncateNotAbove(x: real)
    ensures x >= 0.0 ==> Truncate(x) as real <= x
    ensures x < 0.0 ==> Truncate(x) <= 0
  {
  }

  /** A proof-of-stake block accepted above HARDFORK_HEIGHTV4 raises the money supply by at
      most 0.02 * supply / 485169.  Fees that overflow 32 bits only lower the reward. */
  lemma InflationBound(db: TxMap, h: Hash, txs: seq<Tx>, legacy: int, time: int, parentHeight: nat, supply: int)
    requires Connect(db, h, txs).Some? && IsProofOfStake(txs)
    requires parentHeight >= HARDFORK_HEIGHTV4 && supply >= 0
    requires var t := Connect(db, h, txs).value;
      t.stakeReward <= GetProofOfStakeReward(legacy, time, parentHeight, supply, t.fees)
    ensures var t := Connect(db, h, txs).value;
      (t.valueOut - t.valueIn) as real <= supply as real * 0.02 / 485169.0
  {
    var t := Connect(db, h, txs).value;
    NetCreation(db, h, txs);
    assert txs[0].vout == Front(txs[0].vout) + [Last(txs[0].vout)];
    assert SumOut(Front(txs[0].vout)) == 0;
    assert CoinBaseOut(txs) == 0;
    assert ToInt32(t.fees) <= t.fees;
    var x := supply as real * 0.02 / 485169.0;
    TruncateNotAbove(x + ToInt32(t.fees) as real);
  }
}
