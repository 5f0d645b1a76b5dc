/** Queued Claim All transactions, and the keys by which the queue and the planner compare them. */
module ClaimTx {
  import opened Wrappers
  import opened Sequences
  import opened Text

  datatype PoolClaim = PoolClaim(loanId: nat, claimable: int)

  datatype QueuedTx =
    | PoolClaims(lending: Address, claims: seq<PoolClaim>, asset: Address)
    | StreamClaim(streamId: nat, withdrawable: int, asset: Address)

  /**
   One claimable thing. The source writes these as `pool:<lending>:<loanId>` and
   `stream:<streamId>`; an address holds no colon, so the text determines the parts.
   */
  datatype Key = PoolKey(lending: string, loanId: nat) | StreamKey(streamId: nat)

  datatype Group = PoolGroup(lending: string) | StreamGroup(streamId: nat)

  function GroupOf(tx: QueuedTx): Group
  {
    match tx
    case PoolClaims(lending, _, _) => PoolGroup(Lower(lending))
    case StreamClaim(id, _, _) => StreamGroup(id)
  }

  function GroupOfKey(k: Key): Group
  {
    match k
    case PoolKey(lending, _) => PoolGroup(lending)
    case StreamKey(id) => StreamGroup(id)
  }

  /** Everything a transaction claims. */
  function Keys(tx: QueuedTx): set<Key>
  {
    match tx
    case PoolClaims(lending, claims, _) => set c | c in claims :: PoolKey(Lower(lending), c.loanId)
    case StreamClaim(id, _, _) => {StreamKey(id)}
  }

  lemma KeysShareGroup(tx: QueuedTx, k: Key)
    requires k in Keys(tx)
    ensures GroupOfKey(k) == GroupOf(tx)
  {
  }

  /** The transaction as its lower-cased JSON text shows it: spelling of addresses aside, everything. */
  function Stable(tx: QueuedTx): QueuedTx
  {
    match tx
    case PoolClaims(lending, claims, asset) => PoolClaims(Lower(lending), claims, Lower(asset))
    case StreamClaim(id, withdrawable, asset) => StreamClaim(id, withdrawable, Lower(asset))
  }

  predicate SameTx(a: QueuedTx, b: QueuedTx)
  {
    Stable(a) == Stable(b)
  }

  /** Spelling of addresses aside, the same in every field: no amount, claim or order of claims may differ. */
  lemma SameTxIff(a: QueuedTx, b: QueuedTx)
    ensures SameTx(a, b) <==>
      && a.PoolClaims? == b.PoolClaims? && SameAddress(a.asset, b.asset)
      && (a.PoolClaims? ==> b.PoolClaims? && SameAddress(a.lending, b.lending) && a.claims == b.claims)
      && (a.StreamClaim? ==> b.StreamClaim? && a.streamId == b.streamId && a.withdrawable == b.withdrawable)
  {
  }

  lemma SameTxSameKeys(a: QueuedTx, b: QueuedTx)
    requires SameTx(a, b)
    ensures Keys(a) == Keys(b) && GroupOf(a) == GroupOf(b)
  {
  }

  function ClaimsOutside(lending: string, claims: seq<PoolClaim>, done: set<Key>): (r: seq<PoolClaim>)
    ensures forall c :: c in r <==> c in claims && PoolKey(lending, c.loanId) !in done
  {
    if claims == [] then []
    else (if PoolKey(lending, claims[0].loanId) in done then [] else [claims[0]])
         + ClaimsOutside(lending, claims[1..], done)
  }

  /** What is left of a transaction once the completed keys are struck from it. */
  function WithoutCompleted(tx: QueuedTx, done: set<Key>): (r: Option<QueuedTx>)
    ensures r.Some? ==> Keys(r.value) == Keys(tx) - done && GroupOf(r.value) == GroupOf(tx)
    ensures r.None? ==> Keys(tx) <= done
  {
    match tx
    case StreamClaim(id, _, _) => if StreamKey(id) in done then None else Some(tx)
    case PoolClaims(lending, claims, asset) =>
      var left := ClaimsOutside(Lower(lending), claims, done);
      assert left == [] ==> forall c :: c in claims ==> PoolKey(Lower(lending), c.loanId) in done;
      if left == [] then None else Some(PoolClaims(lending, left, asset))
  }

  lemma {:induction false} NothingOutside(lending: string, claims: seq<PoolClaim>, done: set<Key>)
    requires forall c :: c in claims ==> PoolKey(lending, c.loanId) !in done
    ensures ClaimsOutside(lending, claims, done) == claims
  {
    if claims != [] {
      NothingOutside(lending, claims[1..], done);
    }
  }

  /** A transaction none of whose keys is completed is left as it is; one that claims nothing is dropped. */
  lemma NothingStruck(tx: QueuedTx, done: set<Key>)
    requires Keys(tx) !! done
    ensures WithoutCompleted(tx, done) == if Keys(tx) == {} then None else Some(tx)
  {
    if tx.PoolClaims? {
      forall c | c in tx.claims ensures PoolKey(Lower(tx.lending), c.loanId) in Keys(tx) {
      }
      NothingOutside(Lower(tx.lending), tx.claims, done);
    }
  }

  lemma {:induction false} OutsideIsFilter(lending: string, claims: seq<PoolClaim>, done: set<Key>)
    ensures ClaimsOutside(lending, claims, done)
         == Filter(claims, (c: PoolClaim) => PoolKey(lending, c.loanId) !in done)
  {
    if claims != [] {
      OutsideIsFilter(lending, claims[1..], done);
    }
  }

  /**
   What remains differs from the transaction only in the claims struck out: the same contract and
   asset, and the surviving claims for their amounts, in order. A stream claim is kept whole.
   */
  lemma StrikesOnlyClaims(tx: QueuedTx, done: set<Key>)
    ensures WithoutCompleted(tx, done).None? <==> Keys(tx) <= done
    ensures WithoutCompleted(tx, done).Some? ==>
      WithoutCompleted(tx, done).value
      == if tx.StreamClaim? then tx
         else tx.(claims := Filter(tx.claims, (c: PoolClaim) => PoolKey(Lower(tx.lending), c.loanId) !in done))
  {
    if tx.PoolClaims? {
      OutsideIsFilter(Lower(tx.lending), tx.claims, done);
      if WithoutCompleted(tx, done).Some? {
        var c := WithoutCompleted(tx, done).value.claims[0];
        assert c in tx.claims && PoolKey(Lower(tx.lending), c.loanId) in Keys(tx);
      }
    }
  }

  /** Two transactions never claim the same thing. */
  predicate Disjoint(plan: seq<QueuedTx>)
  {
    forall i, j :: 0 <= i < j < |plan| ==> Keys(plan[i]) !! Keys(plan[j])
  }

  predicate OnePerGroup(plan: seq<QueuedTx>)
  {
    forall i, j :: 0 <= i < j < |plan| ==> GroupOf(plan[i]) != GroupOf(plan[j])
  }

  lemma OnePerGroupDisjoint(plan: seq<QueuedTx>)
    requires OnePerGroup(plan)
    ensures Disjoint(plan)
  {
    forall i, j | 0 <= i < j < |plan| ensures Keys(plan[i]) !! Keys(plan[j]) {
      forall k | k in Keys(plan[i]) ensures k !in Keys(plan[j]) {
        KeysShareGroup(plan[i], k);
        if k in Keys(plan[j]) {
          KeysShareGroup(plan[j], k);
        }
      }
    }
  }
}
