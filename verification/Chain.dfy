/** Account names, constants and table rows of the system contract. */
module Chain {
  import opened Outcomes

  /** An account name is its 64-bit encoding; 0 is the empty name. */
  type Name = nat

  const EOSIO: Name := 0x5530ea0000000000
  const B1: Name := 0x3840000000000000
  const REX: Name := 0x5530ea02eae80000
  const STAKE: Name := 0x5530ea0319341400
  const NAMES: Name := 0x5530ea026692b000
  const RAMFEE: Name := 0x5530ea02e692d4a0
  const BPAY: Name := 0x5530ea00f5378000
  const DPAY: Name := 0x5530ea0135378000
  const WPAY: Name := 0x5530ea0395378000
  const VPAY: Name := 0x5530ea0375378000
  const ORACLE: Name := 0x5530ea02973222a0
  const NETWORK: Name := 0x5530ea026ac80000
  const INFRASTRUCTURE: Name := 0x5530ea01d35dcc00
  const COMMUNITY: Name := 0x5530ea0114948000
  const MARKETING: Name := 0x5530ea0246bc1590
  const FOUNDING: Name := 0x5530ea0174d4d200

  /** The accounts that hold reward buckets. */
  predicate PayAccount(a: Name) {
    a == BPAY || a == DPAY || a == WPAY || a == VPAY || a == ORACLE
  }

  /** An account that holds no tokens on behalf of the system contract. */
  predicate User(a: Name) {
    a != REX && a != STAKE && a != NAMES && !PayAccount(a)
  }

  /** Times are microseconds since the epoch, as in `time_point`. */
  const SECOND: int := 1_000_000
  const DAY: int := 86400 * SECOND
  const LOAN_TERM: int := 30 * DAY

  /** Maturity dates are whole seconds, as in `time_point_sec`, whose largest value marks savings. */
  const DAY_SECONDS: int := 86400
  const END_OF_DAYS: int := 0xFFFF_FFFF

  const REX_RATIO: int := 10000
  const INITIAL_RENT: int := 20_000_0000

  datatype Pool = Pool(lent: int, unlent: int, rent: int, lendable: int, rex: int, namebid: int, loanNum: nat)

  datatype Bucket = Bucket(date: int, amount: int)

  datatype Balance = Balance(voteStake: int, rex: int, matured: int, buckets: seq<Bucket>)

  datatype Loan = Loan(from: Name, receiver: Name, payment: int, balance: int, staked: int, num: nat, expiration: int)

  datatype LoanKind = Cpu | Net

  datatype Order = Order(requested: int, proceeds: int, stakeChange: int, time: int, open: bool)

  datatype Stake = Stake(net: int, cpu: int)

  datatype Resources = Resources(net: int, cpu: int, ram: int)

  datatype Refund = Refund(time: int, net: int, cpu: int)

  datatype Voter = Voter(producers: seq<Name>, staked: int, unpaidVotes: int, lastClaim: int, lastWeight: int)

  /** The rows of one producer in `producers` and `producers2`; shares are in votes times microseconds. */
  datatype Producer = Producer(votes: int, active: bool, unpaidBlocks: int, lastClaim: int, share: int, lastShare: int)

  datatype Votes = Votes(
    voters: map<Name, Voter>,
    producers: map<Name, Producer>,
    totalWeight: int,
    totalShare: int,
    shareRate: int,
    shareTime: int,
    activatedStake: int,
    activationTime: int,
    unpaidVotes: int,
    unpaidBlocks: int)

  datatype Oracle = Oracle(account: Name, pending: int, successes: int, failures: int, punishment: int)

  datatype Pay = Pay(
    blockBucket: int,
    voteBucket: int,
    witnessBucket: int,
    dappTransferBucket: int,
    dappUserBucket: int,
    oracleBucket: int,
    lastFill: int,
    lastDappFill: int,
    claimPeriod: int,
    oracles: map<Name, Oracle>,
    successes: int)

  type Tokens = map<Name, int>

  /** The tables and singletons of the system contract, with the core-token balances it moves.
      The loan tables are kept in the order of their expiration index; `queue` is the part of the
      order table's time index that holds open orders. */
  datatype State = State(
    tokens: Tokens,
    supply: int,
    maxSupply: int,
    pool: Option<Pool>,
    funds: map<Name, int>,
    balances: map<Name, Balance>,
    orders: map<Name, Order>,
    queue: seq<Name>,
    cpuLoans: seq<Loan>,
    netLoans: seq<Loan>,
    delegations: map<(Name, Name), Stake>,
    resources: map<Name, Resources>,
    refunds: map<Name, Refund>,
    votes: Votes,
    pay: Pay)

  /** `time_point_sec` of a time. */
  function Seconds(now: int): int {
    now / SECOND
  }

  /** The end of the day of `now`, four days on: the maturity date of REX bought now. */
  function MaturityDate(now: int): int {
    Seconds(now) - Seconds(now) % DAY_SECONDS + 5 * DAY_SECONDS
  }

  /** `time_point_sec` holds the time and every maturity date computed at it. */
  predicate InEpoch(now: int) {
    0 < now && MaturityDate(now) < END_OF_DAYS
  }
}
