/**
 HotPOKT messages, certificates and the state of one consensus module.
 Signatures are idealised: a signature names its signer and what was signed.
 */
module ConsensusTypes {
  import opened Common

  // consensus/types/proto/hotstuff.proto: a step is a protobuf enum, so any integer can arrive.
  const NEWROUND := 1
  const PREPARE := 2
  const PRECOMMIT := 3
  const COMMIT := 4
  const DECIDE := 5

  const PROPOSE := 1
  const VOTE := 2

  datatype Block = Block(height: nat, stateHash: string, proposer: Option<Address>, txs: seq<string>, cert: Option<QC>)

  datatype QC = QC(height: nat, round: uint64, step: int, block: Option<Block>, sigs: seq<PartialSig>)

  /** What a partial signature is computed over. */
  datatype Payload = Payload(height: nat, step: int, round: uint64, block: Option<Block>)

  datatype Signature = NoSignature | Signed(signer: Address, payload: Payload)

  datatype PartialSig = PartialSig(signature: Signature, address: Address)

  datatype Justification = NoJustification | Certificate(qc: QC) | Threshold(sigs: seq<PartialSig>) | Partial(sig: PartialSig)

  datatype Msg = Msg(kind: int, height: nat, step: int, round: uint64, block: Option<Block>, justification: Justification)
  {
    function Cert(): Option<QC> {
      if justification.Certificate? then Some(justification.qc) else None
    }

    function PartialSignature(): Option<PartialSig> {
      if justification.Partial? then Some(justification.sig) else None
    }

    function Signable(): Payload {
      Payload(height, step, round, block)
    }
  }

  /** A utility unit of work: the height it was opened at and the state hash computed over what it executed. */
  datatype Uow = Uow(height: nat, forLeader: bool, computed: Option<string>)

  /** What reached the store when a unit of work was committed. */
  datatype Commit = Commit(height: nat, round: uint64, block: Block, computed: Option<string>)

  /**
   The fields of the consensus module, together with everything it has sent and committed so far.
   `panicked` marks a process that died on a nil dereference, a missing handler or a fatal log line.
   */
  datatype State = State(
    height: nat,
    round: uint64,
    step: int,
    block: Option<Block>,
    prepareQC: Option<QC>,
    lockedQC: Option<QC>,
    leaderId: Option<nat>,
    uow: Option<Uow>,
    pool: map<int, seq<Msg>>,
    panicked: bool,
    sent: seq<Msg>,
    commits: seq<Commit>)

  /** What does not change while a node runs. Validators are those persisted for a height. */
  datatype Config = Config(validators: nat -> seq<Address>, self: Address, nodeId: nat, blocksFit: bool)

  /**
   The answers a handler gets from outside the module: executing a received block, reaping and
   executing a new one, and the byte limits of the message pool.
   */
  datatype Env = Env(applied: Option<string>, proposal: Option<(string, seq<string>)>, poolFull: bool, poolOverflows: bool)

  datatype Event = Deliver(msg: Msg, env: Env) | Timeout
}
