/**
 * The DAO account and the proposal and vote accounts of the quadratic-funding program as one
 * mutable object: `init_proposal` increments the counter in place and fills the new proposal
 * account; `cast_vote` fills the new vote account and adds to one tally of the proposal in place.
 * Each method is proved to land on the state its transition in `DaoInstructions` describes.
 */
module DaoProgram {
  import opened Common
  import opened DaoState
  import opened IntegerSqrt
  import DaoInstructions

  class QuadraticFundingDao {
    var authority: Pubkey
    var proposalCount: nat
    var proposals: map<nat, Proposal>
    var votes: map<VoteKey, Vote>

    /** The accounts this object holds, as a value. */
    function World(): DaoWorld
      reads this
    {
      DaoWorld(authority, proposalCount, proposals, votes)
    }

    /** The DAO as `init_dao` leaves it: no proposals yet. */
    constructor (daoAuthority: Pubkey)
      ensures World() == DaoWorld(daoAuthority, 0, map[], map[])
      ensures Valid(World())
    {
      authority := daoAuthority;
      proposalCount := 0;
      proposals := map[];
      votes := map[];
    }

    /**
     * `init_proposal`. The account checks come first; a metadata string too long for its account
     * aborts the transaction when the account is written back, which undoes the handler's writes,
     * so it is checked here before them.
     */
    method InitProposal(creator: Pubkey, metadata: seq<byte>) returns (r: Outcome<DaoError>)
      requires Valid(World())
      modifies this
      ensures Valid(World())
      ensures r == OutcomeOf(DaoInstructions.InitProposal(old(World()), creator, metadata))
      ensures World() == StateAfter(DaoInstructions.InitProposal(old(World()), creator, metadata), old(World()))
      ensures r.Fail? ==> World() == old(World())
    {
      if authority != creator {
        return Fail(NotDaoAuthority);
      }
      var index := proposalCount;
      if index in proposals {
        return Fail(AccountAlreadyInUse);
      }
      if proposalCount == U64_MAX {
        return Fail(ArithmeticOverflow);
      }
      if |metadata| > METADATA_MAX_LEN {
        return Fail(AccountDidNotSerialize);
      }
      proposalCount := proposalCount + 1;
      proposals := proposals[index := Proposal(creator, metadata, 0, 0)];
      r := Pass;
    }

    /** `cast_vote`: account checks, the vote-type check, then the vote record and one tally. */
    method CastVote(proposal: nat, voter: Pubkey, voterTokenAmount: nat, voteType: nat) returns (r: Outcome<DaoError>)
      requires Valid(World()) && IsU64(voterTokenAmount) && IsU8(voteType)
      modifies this
      ensures Valid(World())
      ensures r == OutcomeOf(DaoInstructions.CastVote(old(World()), proposal, voter, voterTokenAmount, voteType))
      ensures World() == StateAfter(DaoInstructions.CastVote(old(World()), proposal, voter, voterTokenAmount, voteType),
                                    old(World()))
      ensures r.Fail? ==> World() == old(World())
    {
      if proposal !in proposals {
        return Fail(AccountNotInitialized);
      }
      var key := VoteKey(proposal, voter);
      if key in votes {
        return Fail(AccountAlreadyInUse);
      }
      if voteType > 1 {
        return Fail(InvalidVoteType);
      }
      var votingCredits := ISqrt(voterTokenAmount);
      votes := votes[key := Vote(voter, voteType, votingCredits)];
      var p := proposals[proposal];
      if voteType == 0 {
        proposals := proposals[proposal := p.(noVotes := SaturatingAdd(p.noVotes, votingCredits))];
      } else {
        proposals := proposals[proposal := p.(yesVotes := SaturatingAdd(p.yesVotes, votingCredits))];
      }
      r := Pass;
    }
  }
}
