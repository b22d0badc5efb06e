/** Consensus data types and their verification rules.

    Cryptography is symbolic: a hash is represented by the value it was computed from, and a
    signature by the pair of author and signed message, so a certificate is described by the set
    of its signers.  Which signatures can exist at all is the business of module `Network`. */
module ConsensusTypes {
  import opened Common
  import opened Quorum

  type Epoch = nat
  type Round = nat
  type HashValue = nat

  const U64_MAX: nat := 0xffff_ffff_ffff_ffff

  datatype BlockInfo = BlockInfo(
    epoch: Epoch,
    round: Round,
    id: HashValue,
    executedStateId: HashValue,
    version: nat,
    timestamp: nat,
    nextEpoch: Option<Epoch>)
  {
    /** Equality on everything execution does not change. */
    predicate MatchOrderedOnly(executed: BlockInfo)
    {
      && epoch == executed.epoch
      && round == executed.round
      && id == executed.id
      && (timestamp == executed.timestamp || (timestamp > executed.timestamp && executed.nextEpoch.Some?))
    }

    predicate IsOrderedOnly()
    {
      this != EMPTY_BLOCK_INFO && nextEpoch.None? && executedStateId == PLACEHOLDER_HASH && version == 0
    }
  }

  /** The "commits nothing" marker. */
  const EMPTY_BLOCK_INFO: BlockInfo := BlockInfo(0, 0, 0, 0, 0, 0, None)

  /** Accumulator hash used when only the order is being agreed on; differs from the zero hash. */
  const PLACEHOLDER_HASH: HashValue := 1

  datatype VoteData = VoteData(proposed: BlockInfo, parent: BlockInfo)
  {
    predicate Verify()
    {
      && parent.epoch == proposed.epoch
      && parent.round < proposed.round
      && parent.timestamp <= proposed.timestamp
      && (proposed.version == 0 || parent.version <= proposed.version)
    }
  }

  /** `consensusData` stands for the hash of the vote data, so the whole value stands for its digest. */
  datatype LedgerInfo = LedgerInfo(commitInfo: BlockInfo, consensusData: VoteData)

  datatype QuorumCert = QuorumCert(voteData: VoteData, ledgerInfo: LedgerInfo, signers: set<Author>)
  {
    function Round(): Round { voteData.proposed.round }

    ghost predicate Verify(v: ValidatorVerifier)
    {
      && ledgerInfo.consensusData == voteData
      && if voteData.proposed.round == 0 then
           && voteData.parent == voteData.proposed
           && voteData.proposed == ledgerInfo.commitInfo
           && signers == {}
         else
           signers != {} && IsQuorum(v, signers) && voteData.Verify()
    }
  }

  datatype TwoChainTimeout = TwoChainTimeout(epoch: Epoch, round: Round, quorumCert: QuorumCert)
  {
    function HqcRound(): Round { quorumCert.Round() }

    ghost predicate Verify(v: ValidatorVerifier)
    {
      HqcRound() < round && quorumCert.Verify(v)
    }
  }

  /** A quorum of timeout signatures for one round; each signer signed its own highest certified round. */
  datatype TimeoutCert = TimeoutCert(timeout: TwoChainTimeout, signedRounds: map<Author, Round>)
  {
    ghost predicate Verify(v: ValidatorVerifier)
    {
      && timeout.Verify(v)
      && IsQuorum(v, signedRounds.Keys)
      && (forall a :: a in signedRounds ==> signedRounds[a] <= timeout.HqcRound())
      && (exists a :: a in signedRounds && signedRounds[a] == timeout.HqcRound())
    }
  }

  datatype Vote = Vote(
    voteData: VoteData,
    author: Author,
    ledgerInfo: LedgerInfo,
    twoChainTimeout: Option<TwoChainTimeout>)
  {
    function Round(): Round { voteData.proposed.round }
    function Epoch(): Epoch { voteData.proposed.epoch }
    predicate IsTimeout() { twoChainTimeout.Some? }

    ghost predicate Verify(v: ValidatorVerifier)
    {
      && ledgerInfo.consensusData == voteData
      && author in v.powers
      && (twoChainTimeout.Some? ==>
            && twoChainTimeout.value.epoch == Epoch()
            && twoChainTimeout.value.round == Round()
            && twoChainTimeout.value.Verify(v))
      && voteData.Verify()
    }
  }

  datatype BlockType =
    | Genesis
    | NilBlock(failedAuthors: seq<(Round, Author)>)
    | Proposal(author: Author, failedAuthors: seq<(Round, Author)>, signed: bool)

  datatype Block = Block(
    id: HashValue,
    epoch: Epoch,
    round: Round,
    timestamp: nat,
    blockType: BlockType,
    payloadIsEmpty: bool,
    quorumCert: QuorumCert)
  {
    function ParentId(): HashValue { quorumCert.voteData.proposed.id }

    /** Signature and certificate checks; the proposal signature itself is the `signed` flag. */
    ghost predicate ValidateSignature(v: ValidatorVerifier)
    {
      match blockType
      case Genesis => false
      case NilBlock(_) => quorumCert.Verify(v)
      case Proposal(author, _, signed) => signed && author in v.powers && quorumCert.Verify(v)
    }

    /** Checks on the block alone; `now` is the local clock in microseconds. */
    predicate WellFormed(now: nat)
    {
      var parent := quorumCert.voteData.proposed;
      && !blockType.Genesis?
      && parent.round < round
      && parent.epoch == epoch
      && (parent.nextEpoch.Some? ==> payloadIsEmpty)
      && FailedAuthorsInOrder(parent)
      && (if blockType.NilBlock? || parent.nextEpoch.Some?
          then timestamp == parent.timestamp
          else timestamp > parent.timestamp && timestamp <= SaturatingAdd(now, TIMEBOUND))
      && quorumCert.ledgerInfo.commitInfo.nextEpoch.None?
    }

    predicate FailedAuthorsInOrder(parent: BlockInfo)
      requires !blockType.Genesis?
      requires parent.round < round
    {
      var failed := blockType.failedAuthors;
      var succRound := if blockType.NilBlock? then round + 1 else round;
      && |failed| <= succRound - (parent.round + 1)
      && (forall i {:trigger PrecedingRound(parent, i)} :: 0 <= i < |failed| ==>
            PrecedingRound(parent, i) < failed[i].0 < succRound)
    }

    /** The round the `i`-th failed author has to come after. */
    function PrecedingRound(parent: BlockInfo, i: nat): Round
      requires !blockType.Genesis?
      requires i <= |blockType.failedAuthors|
    {
      if i == 0 then parent.round else blockType.failedAuthors[i - 1].0
    }
  }

  /** Five minutes, in microseconds. */
  const TIMEBOUND: nat := 300_000_000

  function SaturatingAdd(a: nat, b: nat): nat
  {
    if a + b > U64_MAX then U64_MAX else a + b
  }

  datatype EpochState = EpochState(epoch: Epoch, verifier: ValidatorVerifier)
}
