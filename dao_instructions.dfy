/**
 * The DAO's `init_proposal` and `cast_vote` instructions as transitions on the DAO's accounts:
 * account checks first (the authority constraint, the `init` of the new account at its derived
 * address, the proposal account's existence), then the handler's own checks and writes.
 */
module DaoInstructions {
  import opened Common
  import opened DaoState
  import opened IntegerSqrt

  /** The proposal a successful `init_proposal` by `creator` stores. */
  function FreshProposal(creator: Pubkey, metadata: seq<byte>): Proposal
  {
    Proposal(creator, metadata, 0, 0)
  }

  /**
   * `init_proposal(metadata)` signed by `creator`. It succeeds exactly when the creator is the
   * DAO's authority, the counter can still be incremented and the metadata fits its space; it
   * then stores a fresh proposal at the counter's old value, without overwriting one, increments
   * the counter by one, and changes nothing else.
   */
  function InitProposal(w: DaoWorld, creator: Pubkey, metadata: seq<byte>): (r: Result<DaoWorld, DaoError>)
    requires Valid(w)
    ensures r.Ok? <==> creator == w.authority && w.proposalCount < U64_MAX && |metadata| <= METADATA_MAX_LEN
    ensures creator != w.authority ==> r == Err(NotDaoAuthority)
    ensures r.Ok? ==> Valid(r.value)
    ensures r.Ok? ==> r.value.proposalCount == w.proposalCount + 1
    ensures r.Ok? ==> w.proposalCount !in w.proposals
    ensures r.Ok? ==> r.value.proposals == w.proposals[w.proposalCount := FreshProposal(creator, metadata)]
    ensures r.Ok? ==> r.value.authority == w.authority && r.value.votes == w.votes
  {
    if creator != w.authority then Err(NotDaoAuthority)
    else if w.proposalCount in w.proposals then Err(AccountAlreadyInUse)
    else if w.proposalCount == U64_MAX then Err(ArithmeticOverflow)
    else if |metadata| > METADATA_MAX_LEN then Err(AccountDidNotSerialize)
    else
      Ok(w.(proposalCount := w.proposalCount + 1,
            proposals := w.proposals[w.proposalCount := FreshProposal(creator, metadata)]))
  }

  /**
   * The checks of `init_proposal` run in source order, and the first one that fails picks the
   * error: the authority constraint, then the counter increment, then the serialization of the
   * metadata into the account's fixed space. The `init` of an address already in use never
   * fires, because a valid DAO has no proposal at its counter's value.
   */
  lemma InitProposalGuardOrder(w: DaoWorld, creator: Pubkey, metadata: seq<byte>)
    requires Valid(w)
    ensures creator != w.authority ==> InitProposal(w, creator, metadata) == Err(NotDaoAuthority)
    ensures creator == w.authority && w.proposalCount == U64_MAX ==>
              InitProposal(w, creator, metadata) == Err(ArithmeticOverflow)
    ensures creator == w.authority && w.proposalCount < U64_MAX && |metadata| > METADATA_MAX_LEN ==>
              InitProposal(w, creator, metadata) == Err(AccountDidNotSerialize)
    ensures InitProposal(w, creator, metadata) != Err(AccountAlreadyInUse)
  {
  }

  /**
   * `cast_vote(vote_type)` by `voter` on `proposal`, holding `tokenAmount` tokens. It succeeds
   * exactly when the proposal exists, the voter has not voted on it yet and the vote type is 0
   * or 1; it then records the vote, with the square root of the balance as credits, and adds the
   * credits (saturating) to the "no" tally for type 0 or the "yes" tally for type 1, the other
   * tally and every other account unchanged.
   */
  function CastVote(w: DaoWorld, proposal: nat, voter: Pubkey, tokenAmount: nat, voteType: nat)
    : (r: Result<DaoWorld, DaoError>)
    requires Valid(w) && IsU64(tokenAmount) && IsU8(voteType)
    ensures r.Ok? <==> proposal in w.proposals && VoteKey(proposal, voter) !in w.votes && voteType <= 1
    ensures r.Ok? ==> Valid(r.value)
    ensures r.Ok? ==> r.value.votes == w.votes[VoteKey(proposal, voter) := Vote(voter, voteType, ISqrt(tokenAmount))]
    ensures r.Ok? ==> r.value.authority == w.authority && r.value.proposalCount == w.proposalCount
    ensures r.Ok? ==> r.value.proposals.Keys == w.proposals.Keys
    ensures r.Ok? ==> forall i :: i in w.proposals && i != proposal ==> r.value.proposals[i] == w.proposals[i]
    ensures r.Ok? ==>
              var before, after := w.proposals[proposal], r.value.proposals[proposal];
              && after.authority == before.authority && after.metadata == before.metadata
              && after.noVotes == (if voteType == 0 then Min(before.noVotes + ISqrt(tokenAmount), U64_MAX) else before.noVotes)
              && after.yesVotes == (if voteType == 1 then Min(before.yesVotes + ISqrt(tokenAmount), U64_MAX) else before.yesVotes)
  {
    if proposal !in w.proposals then Err(AccountNotInitialized)
    else if VoteKey(proposal, voter) in w.votes then Err(AccountAlreadyInUse)
    else if voteType > 1 then Err(InvalidVoteType)
    else
      var credits := ISqrt(tokenAmount);
      var p := w.proposals[proposal];
      var p' := if voteType == 0 then p.(noVotes := SaturatingAdd(p.noVotes, credits))
                else p.(yesVotes := SaturatingAdd(p.yesVotes, credits));
      Ok(w.(votes := w.votes[VoteKey(proposal, voter) := Vote(voter, voteType, credits)],
            proposals := w.proposals[proposal := p']))
  }

  /** The checks run in source order, and the first one that fails picks the error. */
  lemma CastVoteGuardOrder(w: DaoWorld, proposal: nat, voter: Pubkey, tokenAmount: nat, voteType: nat)
    requires Valid(w) && IsU64(tokenAmount) && IsU8(voteType)
    ensures proposal !in w.proposals ==> CastVote(w, proposal, voter, tokenAmount, voteType) == Err(AccountNotInitialized)
    ensures proposal in w.proposals && VoteKey(proposal, voter) in w.votes ==>
              CastVote(w, proposal, voter, tokenAmount, voteType) == Err(AccountAlreadyInUse)
    ensures proposal in w.proposals && VoteKey(proposal, voter) !in w.votes && voteType > 1 ==>
              CastVote(w, proposal, voter, tokenAmount, voteType) == Err(InvalidVoteType)
  {
  }

  /** Once a voter has voted on a proposal, every further vote by them on it fails. */
  lemma SecondVoteFails(w: DaoWorld, proposal: nat, voter: Pubkey, tokenAmount: nat, voteType: nat,
                        tokenAmount2: nat, voteType2: nat)
    requires Valid(w) && IsU64(tokenAmount) && IsU8(voteType) && IsU64(tokenAmount2) && IsU8(voteType2)
    requires CastVote(w, proposal, voter, tokenAmount, voteType).Ok?
    ensures var w' := CastVote(w, proposal, voter, tokenAmount, voteType).value;
            CastVote(w', proposal, voter, tokenAmount2, voteType2) == Err(AccountAlreadyInUse)
  {
  }

  /** The smaller of two amounts. */
  function Min(a: nat, b: nat): nat
  {
    if a <= b then a else b
  }

  /**
   * The test's flow: the authority creates the DAO's first proposal, then a voter holding 100
   * tokens of a 6-decimal mint votes yes; the proposal then shows 10,000 yes and 0 no.
   */
  lemma YesVoteScenario(authority: Pubkey, voter: Pubkey, metadata: seq<byte>)
    requires |metadata| <= METADATA_MAX_LEN
    ensures var w := DaoWorld(authority, 0, map[], map[]);
            var r := InitProposal(w, authority, metadata);
            && r.Ok? && r.value.proposalCount == 1
            && r.value.proposals[0] == FreshProposal(authority, metadata)
            && var v := CastVote(r.value, 0, voter, 100_000_000, 1);
               && v.Ok?
               && v.value.proposals[0].yesVotes == 10_000
               && v.value.proposals[0].noVotes == 0
               && v.value.votes[VoteKey(0, voter)] == Vote(voter, 1, 10_000)
  {
    HundredTokensGiveTenThousandCredits();
  }
}
