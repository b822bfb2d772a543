/** The statuses a validator has on the three systems, in the client's terms. */
module ValidatorStatus {
  import opened Wrappers

  /** On the super node contract. */
  datatype Stafi = Uninitiated | Deposited | Match | Unmatch | Staked

  /** The contract's number for a key it has never seen. */
  const UNINITIAL: nat := 0

  /** The client's status for a number of the contract; `None` for one it does not know. */
  function ClientStatus(onChain: nat): Option<Stafi> {
    match onChain
    case 1 => Some(Deposited)
    case 2 => Some(Match)
    case 3 => Some(Staked)
    case 4 => Some(Unmatch)
    case _ => None
  }

  /** What the contract's numbers stand for. */
  predicate Means(onChain: nat, status: Stafi) {
    match status
    case Uninitiated => onChain == 0
    case Deposited => onChain == 1
    case Match => onChain == 2
    case Staked => onChain == 3
    case Unmatch => onChain == 4
  }

  function NumberOf(status: Stafi): (onChain: nat)
    ensures Means(onChain, status)
  {
    match status
    case Uninitiated => 0
    case Deposited => 1
    case Match => 2
    case Staked => 3
    case Unmatch => 4
  }

  lemma ClientStatusMeans(onChain: nat)
    ensures ClientStatus(onChain).Some? <==> 1 <= onChain <= 4
    ensures ClientStatus(onChain).Some? ==> Means(onChain, ClientStatus(onChain).value)
  {
  }

  // on SSV
  const REGISTERED_VALID: nat := 1
  const REGISTERED_INVALID: nat := 2
  const REMOVED_FROM_SSV: nat := 3

  // on the beacon chain
  const ACTIVE_ON_BEACON: nat := 1
  const EXITED_ON_BEACON: nat := 2

  /** The three parts; 0 on SSV and on the beacon chain is "not known yet". */
  datatype ValStatus = ValStatus(onStafi: Stafi, onSsv: nat, onBeacon: nat)
}
