/** The runtime's genesis configuration records and Substrate's `ChainSpec`, as far as the chain
    spec fills them in. Each `Option` field stands where the runtime's `GenesisConfig` holds an
    optional module configuration. */
module Runtime {
  import opened Wrappers
  import opened Primitives
  import opened Foreign

  /** `Ed25519AuthorityId`, built from an ed25519 public key with `.into()`. */
  datatype AuthorityId = AuthorityId(key: Bytes32)
  /** `AccountId`, built from the 32 bytes of an ed25519 public key with `.0.into()`. */
  datatype AccountId = AccountId(key: Bytes32)

  /** The runtime's `Balance`, an unsigned 128-bit integer. */
  type Balance = u128
  /** The runtime's `Moment`, an unsigned 64-bit integer of seconds. */
  type Moment = u64

  datatype ConsensusConfig = ConsensusConfig(code: Bytes, authorities: seq<AuthorityId>)
  /** The system module's configuration; the chain spec never sets it, so it has no contents here. */
  datatype SystemConfig = SystemConfig
  datatype TimestampConfig = TimestampConfig(period: Moment)
  datatype IndicesConfig = IndicesConfig(ids: seq<AccountId>)
  /** A vesting schedule `(who, begin, length)`; the chain spec never creates one. */
  datatype Vesting = Vesting(who: AccountId, begin: u64, length: u64)
  datatype BalancesConfig = BalancesConfig(
    existentialDeposit: Balance,
    transferFee: Balance,
    creationFee: Balance,
    balances: seq<(AccountId, Balance)>,
    vesting: seq<Vesting>)
  datatype SudoConfig = SudoConfig(key: AccountId)
  datatype FeesConfig = FeesConfig(transactionBaseFee: Balance, transactionByteFee: Balance)
  /** The confidential-transfer module's genesis: encrypted balances, the verifying key and a
      small constant. */
  datatype ConfTransferConfig = ConfTransferConfig(
    encryptedBalance: seq<(PkdAddress, Ciphertext)>,
    verifyingKey: PreparedVk,
    simpleNum: u32)

  datatype GenesisConfig = GenesisConfig(
    consensus: Option<ConsensusConfig>,
    system: Option<SystemConfig>,
    timestamp: Option<TimestampConfig>,
    indices: Option<IndicesConfig>,
    balances: Option<BalancesConfig>,
    sudo: Option<SudoConfig>,
    fees: Option<FeesConfig>,
    confTransfer: Option<ConfTransferConfig>)

  /** What `OsRng::new()` returned when the genesis was built. */
  type RngOutcome = Result<OsRng, RngError>

  /** Substrate's `ChainSpec<GenesisConfig>` as `ChainSpec::from_genesis` assembles it: the chain's
      name and id, the closure that builds its genesis (run afresh, with whatever the random number
      generator then yields, each time the genesis is needed), boot nodes, telemetry endpoints,
      protocol id, consensus engine and properties. */
  datatype ChainSpec = ChainSpec(
    name: string,
    id: string,
    genesis: RngOutcome -> GenesisConfig,
    bootNodes: seq<string>,
    telemetryEndpoints: Option<seq<(string, byte)>>,
    protocolId: Option<string>,
    consensusEngine: Option<string>,
    properties: Option<map<string, string>>)
}
