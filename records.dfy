/** The two persisted records and their fixed-layout little-endian codecs
    (`Pack::pack_into_slice` / `Pack::unpack_from_slice`), together with the
    length-checking `Pack::pack`, `Pack::unpack_unchecked` and `Pack::unpack`
    wrappers the handlers call. */
module Records {

  import opened Bytes
  import opened Runtime

  /** The pool record. */
  datatype StakingManager = StakingManager(
    isInitialized: bool,
    owner: Pubkey,
    stakeToken: Pubkey,
    rewardToken: Pubkey,
    tokensStaked: u64,
    currentEpochReward: u64,
    currentEpochStartTime: u64,
    currentEpochEndTime: u64,
    epochId: u16)

  /** A participant's position record. */
  datatype UserStakeInfo = UserStakeInfo(isInitialized: bool, user: Pubkey, stakedAmount: u64)

  /** StakingManager::LEN = 1 + 32 + 32 + 32 + 8 + 8 + 8 + 8 + 2. */
  const MANAGER_LEN: nat := 131
  /** UserStakeInfo::LEN = 1 + 32 + 8. */
  const STAKE_INFO_LEN: nat := 41

  // Field offsets of the pool record.
  const OWNER_AT: nat := 1
  const STAKE_TOKEN_AT: nat := 33
  const REWARD_TOKEN_AT: nat := 65
  const TOKENS_STAKED_AT: nat := 97
  const EPOCH_REWARD_AT: nat := 105
  const EPOCH_START_AT: nat := 113
  const EPOCH_END_AT: nat := 121
  const EPOCH_ID_AT: nat := 129

  // Field offsets of the position record.
  const USER_AT: nat := 1
  const STAKED_AMOUNT_AT: nat := 33

  /** `b as u8` */
  function BoolByte(b: bool): (r: byte)
    ensures (r != 0) == b && r <= 1
  {
    if b then 1 else 0
  }

  /** The 131 bytes `pack_into_slice` lays down for a pool record. */
  function ManagerBytes(m: StakingManager): (r: seq<byte>)
    ensures |r| == MANAGER_LEN
  {
    [BoolByte(m.isInitialized)] + m.owner + m.stakeToken + m.rewardToken
      + U64ToLE(m.tokensStaked) + U64ToLE(m.currentEpochReward)
      + U64ToLE(m.currentEpochStartTime) + U64ToLE(m.currentEpochEndTime)
      + U16ToLE(m.epochId)
  }

  /** The 41 bytes `pack_into_slice` lays down for a position record. */
  function StakeInfoBytes(info: UserStakeInfo): (r: seq<byte>)
    ensures |r| == STAKE_INFO_LEN
  {
    [BoolByte(info.isInitialized)] + info.user + U64ToLE(info.stakedAmount)
  }

  /** StakingManager::unpack_from_slice: read each field at its offset. */
  function UnpackManagerFromSlice(src: seq<byte>): (m: StakingManager)
    requires |src| >= MANAGER_LEN
  {
    StakingManager(
      src[0] != 0,
      src[OWNER_AT..STAKE_TOKEN_AT],
      src[STAKE_TOKEN_AT..REWARD_TOKEN_AT],
      src[REWARD_TOKEN_AT..TOKENS_STAKED_AT],
      U64FromLE(src[TOKENS_STAKED_AT..EPOCH_REWARD_AT]),
      U64FromLE(src[EPOCH_REWARD_AT..EPOCH_START_AT]),
      U64FromLE(src[EPOCH_START_AT..EPOCH_END_AT]),
      U64FromLE(src[EPOCH_END_AT..EPOCH_ID_AT]),
      U16FromLE(src[EPOCH_ID_AT..MANAGER_LEN]))
  }

  /** UserStakeInfo::unpack_from_slice */
  function UnpackStakeInfoFromSlice(src: seq<byte>): (info: UserStakeInfo)
    requires |src| >= STAKE_INFO_LEN
  {
    UserStakeInfo(src[0] != 0, src[USER_AT..STAKED_AMOUNT_AT], U64FromLE(src[STAKED_AMOUNT_AT..STAKE_INFO_LEN]))
  }

  /** Unpacking what was packed gives the pool record back. */
  lemma ManagerRoundTrip(m: StakingManager)
    ensures UnpackManagerFromSlice(ManagerBytes(m)) == m
  {
    var b := ManagerBytes(m);
    var keys := [BoolByte(m.isInitialized)] + m.owner + m.stakeToken + m.rewardToken;
    var numbers := U64ToLE(m.tokensStaked) + U64ToLE(m.currentEpochReward)
      + U64ToLE(m.currentEpochStartTime) + U64ToLE(m.currentEpochEndTime);
    assert b == keys + numbers + U16ToLE(m.epochId);
    assert b[OWNER_AT..STAKE_TOKEN_AT] == m.owner;
    assert b[STAKE_TOKEN_AT..REWARD_TOKEN_AT] == m.stakeToken;
    assert b[REWARD_TOKEN_AT..TOKENS_STAKED_AT] == m.rewardToken;
    assert b[TOKENS_STAKED_AT..EPOCH_REWARD_AT] == U64ToLE(m.tokensStaked);
    assert b[EPOCH_REWARD_AT..EPOCH_START_AT] == U64ToLE(m.currentEpochReward);
    assert b[EPOCH_START_AT..EPOCH_END_AT] == U64ToLE(m.currentEpochStartTime);
    assert b[EPOCH_END_AT..EPOCH_ID_AT] == U64ToLE(m.currentEpochEndTime);
    assert b[EPOCH_ID_AT..MANAGER_LEN] == U16ToLE(m.epochId);
    U64RoundTrip(m.tokensStaked);
    U64RoundTrip(m.currentEpochReward);
    U64RoundTrip(m.currentEpochStartTime);
    U64RoundTrip(m.currentEpochEndTime);
    U16RoundTrip(m.epochId);
  }

  /** Unpacking what was packed gives the position record back. */
  lemma StakeInfoRoundTrip(info: UserStakeInfo)
    ensures UnpackStakeInfoFromSlice(StakeInfoBytes(info)) == info
  {
    var b := StakeInfoBytes(info);
    assert b[USER_AT..STAKED_AMOUNT_AT] == info.user;
    assert b[STAKED_AMOUNT_AT..STAKE_INFO_LEN] == U64ToLE(info.stakedAmount);
    U64RoundTrip(info.stakedAmount);
  }

  /** A pool buffer is the concatenation of its fields. */
  lemma ManagerBytesSplit(src: seq<byte>)
    requires |src| == MANAGER_LEN
    ensures src == [src[0]] + src[OWNER_AT..STAKE_TOKEN_AT] + src[STAKE_TOKEN_AT..REWARD_TOKEN_AT]
      + src[REWARD_TOKEN_AT..TOKENS_STAKED_AT] + src[TOKENS_STAKED_AT..EPOCH_REWARD_AT]
      + src[EPOCH_REWARD_AT..EPOCH_START_AT] + src[EPOCH_START_AT..EPOCH_END_AT]
      + src[EPOCH_END_AT..EPOCH_ID_AT] + src[EPOCH_ID_AT..MANAGER_LEN]
  {
    var keys := src[..TOKENS_STAKED_AT];
    var numbers := src[TOKENS_STAKED_AT..EPOCH_ID_AT];
    assert keys == [src[0]] + src[OWNER_AT..STAKE_TOKEN_AT] + src[STAKE_TOKEN_AT..REWARD_TOKEN_AT]
      + src[REWARD_TOKEN_AT..TOKENS_STAKED_AT];
    assert numbers == src[TOKENS_STAKED_AT..EPOCH_REWARD_AT] + src[EPOCH_REWARD_AT..EPOCH_START_AT]
      + src[EPOCH_START_AT..EPOCH_END_AT] + src[EPOCH_END_AT..EPOCH_ID_AT];
    assert src == keys + numbers + src[EPOCH_ID_AT..MANAGER_LEN];
  }

  /** Packing an unpacked pool buffer reproduces it exactly when its flag byte is 0 or 1;
      any other non-zero flag byte is rewritten as 1. */
  lemma ManagerBytesCanonical(src: seq<byte>)
    requires |src| == MANAGER_LEN
    ensures ManagerBytes(UnpackManagerFromSlice(src)) == src <==> src[0] <= 1
  {
    var m := UnpackManagerFromSlice(src);
    var b := ManagerBytes(m);
    if src[0] <= 1 {
      U64BytesRoundTrip(src[TOKENS_STAKED_AT..EPOCH_REWARD_AT]);
      U64BytesRoundTrip(src[EPOCH_REWARD_AT..EPOCH_START_AT]);
      U64BytesRoundTrip(src[EPOCH_START_AT..EPOCH_END_AT]);
      U64BytesRoundTrip(src[EPOCH_END_AT..EPOCH_ID_AT]);
      U16BytesRoundTrip(src[EPOCH_ID_AT..MANAGER_LEN]);
      assert BoolByte(m.isInitialized) == src[0];
      ManagerBytesSplit(src);
    } else {
      assert b[0] != src[0];
    }
  }

  /** The same for the position record. */
  lemma StakeInfoBytesCanonical(src: seq<byte>)
    requires |src| == STAKE_INFO_LEN
    ensures StakeInfoBytes(UnpackStakeInfoFromSlice(src)) == src <==> src[0] <= 1
  {
    var b := StakeInfoBytes(UnpackStakeInfoFromSlice(src));
    if src[0] <= 1 {
      U64BytesRoundTrip(src[STAKED_AMOUNT_AT..STAKE_INFO_LEN]);
      assert src == [src[0]] + src[USER_AT..STAKED_AMOUNT_AT] + src[STAKED_AMOUNT_AT..STAKE_INFO_LEN];
    } else {
      assert b[0] != src[0];
    }
  }

  /** Copy `bytes` into `dst` at `offset` (`copy_from_slice` / `*dst = ...`). */
  method WriteAt(dst: array<byte>, offset: nat, bytes: seq<byte>)
    requires offset + |bytes| <= dst.Length
    modifies dst
    ensures dst[..offset] == old(dst[..offset])
    ensures dst[offset..offset + |bytes|] == bytes
    ensures dst[..offset + |bytes|] == old(dst[..offset]) + bytes
    ensures dst[offset + |bytes|..] == old(dst[offset + |bytes|..])
    ensures forall i :: offset + |bytes| <= i < dst.Length ==> dst[i] == old(dst[i])
  {
    forall i | 0 <= i < |bytes| {
      dst[offset + i] := bytes[i];
    }
  }

  /** StakingManager::pack_into_slice: write every field at its offset. */
  method PackManagerIntoSlice(m: StakingManager, dst: array<byte>)
    requires dst.Length >= MANAGER_LEN
    modifies dst
    ensures dst[..MANAGER_LEN] == ManagerBytes(m)
    ensures dst[MANAGER_LEN..] == old(dst[MANAGER_LEN..])
  {
    dst[0] := BoolByte(m.isInitialized);
    assert dst[..OWNER_AT] == [BoolByte(m.isInitialized)];
    WriteAt(dst, OWNER_AT, m.owner);
    WriteAt(dst, STAKE_TOKEN_AT, m.stakeToken);
    WriteAt(dst, REWARD_TOKEN_AT, m.rewardToken);
    WriteAt(dst, TOKENS_STAKED_AT, U64ToLE(m.tokensStaked));
    WriteAt(dst, EPOCH_REWARD_AT, U64ToLE(m.currentEpochReward));
    WriteAt(dst, EPOCH_START_AT, U64ToLE(m.currentEpochStartTime));
    WriteAt(dst, EPOCH_END_AT, U64ToLE(m.currentEpochEndTime));
    WriteAt(dst, EPOCH_ID_AT, U16ToLE(m.epochId));
  }

  /** UserStakeInfo::pack_into_slice */
  method PackStakeInfoIntoSlice(info: UserStakeInfo, dst: array<byte>)
    requires dst.Length >= STAKE_INFO_LEN
    modifies dst
    ensures dst[..STAKE_INFO_LEN] == StakeInfoBytes(info)
    ensures dst[STAKE_INFO_LEN..] == old(dst[STAKE_INFO_LEN..])
  {
    dst[0] := BoolByte(info.isInitialized);
    assert dst[..USER_AT] == [BoolByte(info.isInitialized)];
    WriteAt(dst, USER_AT, info.user);
    WriteAt(dst, STAKED_AMOUNT_AT, U64ToLE(info.stakedAmount));
  }

  /** Pack::unpack_unchecked for the pool record: the buffer must be exactly LEN bytes. */
  function UnpackManager(src: seq<byte>): (r: Result<StakingManager>)
    ensures r.Ok? <==> |src| == MANAGER_LEN
    ensures r.Err? ==> r.error == InvalidAccountData
    ensures r.Ok? ==> r.value == UnpackManagerFromSlice(src)
    ensures r.Ok? ==> (ManagerBytes(r.value) == src <==> src[0] <= 1)
  {
    if |src| != MANAGER_LEN then Err(InvalidAccountData)
    else
      ManagerBytesCanonical(src);
      Ok(UnpackManagerFromSlice(src))
  }

  /** Pack::unpack_unchecked for the position record. */
  function UnpackStakeInfoUnchecked(src: seq<byte>): (r: Result<UserStakeInfo>)
    ensures r.Ok? <==> |src| == STAKE_INFO_LEN
    ensures r.Err? ==> r.error == InvalidAccountData
    ensures r.Ok? ==> r.value == UnpackStakeInfoFromSlice(src)
    ensures r.Ok? ==> (StakeInfoBytes(r.value) == src <==> src[0] <= 1)
  {
    if |src| != STAKE_INFO_LEN then Err(InvalidAccountData)
    else
      StakeInfoBytesCanonical(src);
      Ok(UnpackStakeInfoFromSlice(src))
  }

  /** Pack::unpack for the position record: unpack_unchecked, then reject an
      uninitialized record. */
  function UnpackStakeInfo(src: seq<byte>): (r: Result<UserStakeInfo>)
    ensures r.Ok? <==> |src| == STAKE_INFO_LEN && src[0] != 0
    ensures r.Ok? ==> r.value.isInitialized && r.value == UnpackStakeInfoFromSlice(src)
    ensures r.Err? && |src| != STAKE_INFO_LEN ==> r.error == InvalidAccountData
    ensures r.Err? && |src| == STAKE_INFO_LEN ==> r.error == UninitializedAccount
  {
    match UnpackStakeInfoUnchecked(src)
    case Err(e) => Err(e)
    case Ok(info) => if info.isInitialized then Ok(info) else Err(UninitializedAccount)
  }

  /** Pack::pack for the pool record: a buffer of any other length is refused. */
  method PackManager(m: StakingManager, dst: array<byte>) returns (r: Result<()>)
    modifies dst
    ensures r.Ok? <==> dst.Length == MANAGER_LEN
    ensures r.Err? ==> r.error == InvalidAccountData && dst[..] == old(dst[..])
    ensures r.Ok? ==> dst[..] == ManagerBytes(m)
  {
    if dst.Length != MANAGER_LEN {
      return Err(InvalidAccountData);
    }
    PackManagerIntoSlice(m, dst);
    assert dst[..] == dst[..MANAGER_LEN];
    return Ok(());
  }

  /** Pack::pack for the position record. */
  method PackStakeInfo(info: UserStakeInfo, dst: array<byte>) returns (r: Result<()>)
    modifies dst
    ensures r.Ok? <==> dst.Length == STAKE_INFO_LEN
    ensures r.Err? ==> r.error == InvalidAccountData && dst[..] == old(dst[..])
    ensures r.Ok? ==> dst[..] == StakeInfoBytes(info)
  {
    if dst.Length != STAKE_INFO_LEN {
      return Err(InvalidAccountData);
    }
    PackStakeInfoIntoSlice(info, dst);
    assert dst[..] == dst[..STAKE_INFO_LEN];
    return Ok(());
  }
}
