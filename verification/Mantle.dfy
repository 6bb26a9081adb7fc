/** The ledger and block values that the nodes exchange, as far as the framework looks at them. */
module Mantle {
  import opened Bytes

  type HeaderId = nat
  type PublicKey = nat
  type MsgId = nat
  type BlobId = nat
  type ChannelId = seq<Byte>
  type PeerId = nat

  /** The peers of each data-availability subnetwork. */
  type Membership = map<nat, set<PeerId>>

  datatype Note = Note(value: nat, pk: PublicKey)

  datatype Op =
    | ChannelInscribe(channel: ChannelId, id: MsgId)
    | ChannelBlob(channel: ChannelId, parent: MsgId, id: MsgId, blob: BlobId)
    | OtherOp

  datatype Transaction = Transaction(ops: seq<Op>, outputs: seq<Note>)

  datatype Block = Block(parent: HeaderId, transactions: seq<Transaction>)

  datatype BlockRecord = BlockRecord(header: HeaderId, block: Block)
}
