/** The reward calculator `calculate_rewards` and the position read
    `get_user_staked_amount` that feeds it. */
module Rewards {

  import opened Bytes
  import opened Runtime
  import opened Records

  /** `a as u128 * b as u128` for two u64 values never overflows 128 bits. */
  lemma ProductFitsU128(a: u64, b: u64)
    ensures a * b < U128_LIMIT
  {
    MulMonotone(a, U64_LIMIT - 1, b);
    MulMonotone(b, U64_LIMIT - 1, U64_LIMIT - 1);
    assert (U64_LIMIT - 1) * (U64_LIMIT - 1) < U128_LIMIT;
  }

  /** calculate_rewards: 0 when nothing is staked, otherwise the user's
      proportional share of the epoch reward, multiplied in 128 bits, divided
      with truncation and cast back with `as u64`. It never returns an error. */
  function CalculateRewards(m: StakingManager, userStakedAmount: u64): (r: u64)
  {
    if m.tokensStaked == 0 then 0
    else
      ProductFitsU128(userStakedAmount, m.currentEpochReward);
      var userShare: u128 := userStakedAmount * m.currentEpochReward;
      var totalStaked: u128 := m.tokensStaked;
      var userReward: u128 := userShare / totalStaked;
      AsU64(userReward)
  }

  /** get_user_staked_amount: the staked amount of an initialized position buffer. */
  function GetUserStakedAmount(position: seq<byte>): (r: Result<u64>)
  {
    match UnpackStakeInfo(position)
    case Err(e) => Err(e)
    case Ok(info) =>
      if !info.isInitialized then Err(UninitializedAccount) else Ok(info.stakedAmount)
  }

  /** The read succeeds exactly on a 41-byte buffer whose flag byte is non-zero,
      and then yields the little-endian amount at offset 33; a buffer of another
      length is InvalidAccountData, an uninitialized one UninitializedAccount. */
  lemma GetUserStakedAmountCases(position: seq<byte>)
    ensures GetUserStakedAmount(position).Ok? <==> |position| == STAKE_INFO_LEN && position[0] != 0
    ensures GetUserStakedAmount(position).Ok? ==>
      GetUserStakedAmount(position).value == FromLE(position[STAKED_AMOUNT_AT..STAKE_INFO_LEN])
    ensures |position| != STAKE_INFO_LEN ==> GetUserStakedAmount(position) == Err(InvalidAccountData)
    ensures |position| == STAKE_INFO_LEN && position[0] == 0 ==>
      GetUserStakedAmount(position) == Err(UninitializedAccount)
  {
  }

  /** A packed initialized position reads back its staked amount. */
  lemma GetUserStakedAmountOfPacked(info: UserStakeInfo)
    requires info.isInitialized
    ensures GetUserStakedAmount(StakeInfoBytes(info)) == Ok(info.stakedAmount)
  {
    StakeInfoRoundTrip(info);
  }

  // ---- arithmetic helpers ----

  lemma MulMonotone(a: nat, b: nat, c: nat)
    requires a <= b
    ensures a * c <= b * c
  {
  }

  lemma MulCancel(a: nat, b: nat, t: nat)
    requires t > 0 && a * t < b * t
    ensures a < b
  {
    if a >= b {
      MulMonotone(b, a, t);
      assert false;
    }
  }

  lemma DivMonotone(x: nat, y: nat, t: nat)
    requires x <= y && t > 0
    ensures x / t <= y / t
  {
    var qx, qy := x / t, y / t;
    assert qx * t <= x;
    assert y < (qy + 1) * t;
    MulCancel(qx, qy + 1, t);
  }

  /** Floor division is determined by the bracket q * t <= x < (q + 1) * t. */
  lemma DivUnique(x: nat, t: nat, q: nat)
    requires t > 0 && q * t <= x < q * t + t
    ensures x / t == q
  {
    var d := x / t;
    assert x == d * t + x % t;
    if d < q {
      MulMonotone(d + 1, q, t);
      assert false;
    }
    if d > q {
      MulMonotone(q + 1, d, t);
      assert false;
    }
  }

  // ---- properties of the calculator ----

  /** Nothing is paid from an empty pool. */
  lemma RewardsOfEmptyPool(m: StakingManager, u: u64)
    requires m.tokensStaked == 0
    ensures CalculateRewards(m, u) == 0
  {
  }

  /** A position holding nothing earns nothing. */
  lemma RewardsOfEmptyPosition(m: StakingManager)
    ensures CalculateRewards(m, 0) == 0
  {
  }

  /** While the position is no larger than the pool, the cast loses nothing:
      the result is the floor of user * reward / total (r * total <= user * reward
      < (r + 1) * total) and never exceeds the epoch reward. */
  lemma RewardsIsFloorShare(m: StakingManager, u: u64)
    requires 0 < m.tokensStaked && u <= m.tokensStaked
    ensures CalculateRewards(m, u) == (u * m.currentEpochReward) / m.tokensStaked
    ensures CalculateRewards(m, u) * m.tokensStaked <= u * m.currentEpochReward
      < (CalculateRewards(m, u) + 1) * m.tokensStaked
    ensures CalculateRewards(m, u) <= m.currentEpochReward
  {
    var t: nat, rw: nat := m.tokensStaked, m.currentEpochReward;
    var share: nat := u * rw;
    MulMonotone(u, t, rw);
    DivMonotone(share, rw * t, t);
    DivUnique(rw * t, t, rw);
  }

  /** Exactly when the floor of user * reward / total fits in 64 bits, the
      `as u64` cast loses nothing and the result is that floor, whether or not
      the position exceeds the pool total. */
  lemma RewardsIsFloorWhenItFits(m: StakingManager, u: u64)
    requires 0 < m.tokensStaked
    ensures (u * m.currentEpochReward) / m.tokensStaked < U64_LIMIT <==>
      CalculateRewards(m, u) == (u * m.currentEpochReward) / m.tokensStaked
  {
  }

  /** A participant owning the entire pool receives the full epoch reward. */
  lemma RewardsOfWholePool(m: StakingManager)
    requires m.tokensStaked > 0
    ensures CalculateRewards(m, m.tokensStaked) == m.currentEpochReward
  {
    var t: nat, rw: nat := m.tokensStaked, m.currentEpochReward;
    var share: nat := t * rw;
    assert share == rw * t;
    DivUnique(share, t, rw);
  }

  /** More stake never means less reward, within the pool's total. */
  lemma RewardsMonotone(m: StakingManager, u1: u64, u2: u64)
    requires u1 <= u2 <= m.tokensStaked
    ensures CalculateRewards(m, u1) <= CalculateRewards(m, u2)
  {
    if m.tokensStaked > 0 {
      RewardsIsFloorShare(m, u1);
      RewardsIsFloorShare(m, u2);
      MulMonotone(u1, u2, m.currentEpochReward);
      DivMonotone(u1 * m.currentEpochReward, u2 * m.currentEpochReward, m.tokensStaked);
    }
  }

  /** Beyond the pool's total the `as u64` cast wraps, and monotonicity fails:
      with one token staked and an epoch reward of 2^63, a position of 1 earns
      2^63 while a position of 2 earns 0. */
  lemma RewardsWrapPastPoolTotal(m: StakingManager)
    requires m.tokensStaked == 1 && m.currentEpochReward == 0x8000_0000_0000_0000
    ensures CalculateRewards(m, 1) == 0x8000_0000_0000_0000
    ensures CalculateRewards(m, 2) == 0
  {
  }

  /** Past the pool total the floor may still fit: with one token staked and a
      reward of 5, a position of 2 earns 10, twice the epoch reward. */
  lemma RewardsBeyondPoolTotal(m: StakingManager)
    requires m.tokensStaked == 1 && m.currentEpochReward == 5
    ensures CalculateRewards(m, 2) == 10
  {
  }

  /** The two worked examples: with 1000 staked and a reward of 100, positions
      of 250 and 333 earn 25 and 33. */
  lemma RewardsExamples(m: StakingManager)
    requires m.tokensStaked == 1000 && m.currentEpochReward == 100
    ensures CalculateRewards(m, 250) == 25
    ensures CalculateRewards(m, 333) == 33
  {
  }
}
