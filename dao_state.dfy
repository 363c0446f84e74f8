/**
 * The quadratic-funding DAO's accounts and error codes: the DAO itself (its authority and proposal
 * counter), the proposal accounts it creates (addressed by the counter's value at creation), and
 * the vote accounts (one per proposal and voter).
 */
module DaoState {
  import opened Common

  /** Metadata is stored in a string field reserved for at most 500 bytes. */
  const METADATA_MAX_LEN: nat := 500

  /** The program's own error codes, plus the runtime failures the instructions can hit. */
  datatype DaoError =
    | InvalidVoteType          // vote type other than 0 (no) or 1 (yes)
    | NotDaoAuthority          // proposal creator is not the DAO authority
    | AccountAlreadyInUse      // an `init` account already exists at its address
    | AccountNotInitialized    // the proposal passed to a vote does not exist
    | ArithmeticOverflow       // a checked `+=` overflowed (the transaction aborts)
    | AccountDidNotSerialize   // the account data does not fit its reserved space

  datatype Proposal = Proposal(authority: Pubkey, metadata: seq<byte>, yesVotes: nat, noVotes: nat)

  datatype Vote = Vote(authority: Pubkey, voteType: nat, votingCredits: nat)

  /** A vote account's address is derived from the proposal and the voter. */
  datatype VoteKey = VoteKey(proposal: nat, voter: Pubkey)

  /** The DAO account and every proposal and vote account that belongs to it. */
  datatype DaoWorld = DaoWorld(
    authority: Pubkey,
    proposalCount: nat,
    proposals: map<nat, Proposal>,
    votes: map<VoteKey, Vote>)

  /**
   * Facts every reachable DAO satisfies: the counter is a `u64`, proposals exist exactly below
   * the counter's past values, tallies are `u64`, every vote belongs to an existing proposal and
   * records the voter its address is derived from, with a vote type of 0 or 1.
   */
  predicate Valid(w: DaoWorld)
  {
    && IsU64(w.proposalCount)
    && (forall i :: i in w.proposals ==> i < w.proposalCount)
    && (forall i :: i in w.proposals ==> IsU64(w.proposals[i].yesVotes) && IsU64(w.proposals[i].noVotes))
    && (forall k :: k in w.votes ==> k.proposal in w.proposals)
    && (forall k :: k in w.votes ==> w.votes[k].authority == k.voter && w.votes[k].voteType <= 1)
  }
}
