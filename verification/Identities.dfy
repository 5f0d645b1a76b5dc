/** The wallet account and chain an action, a queue or a preflight belongs to. */
module Identities {
  import opened Wrappers
  import opened Text

  datatype Identity = Identity(account: Address, chainId: int)

  /** Same chain, and the same account up to letter case. */
  predicate SameIdentity(left: Identity, right: Option<Identity>)
  {
    right.Some? && left.chainId == right.value.chainId && SameAddress(left.account, right.value.account)
  }
}
