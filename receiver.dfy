/**
  The receiver acknowledgment of a safe transfer, reduced to the reply the
  destination gives.  The destination's code is not modelled: the reply is an
  input of the call.
 */
module Receiver {
  import opened Types

  /** What the destination of a safe transfer answers. */
  datatype Reply =
    | NoContract              // an ordinary account: nothing is called
    | Returned(magic: bv32)   // the receive function returned this 4-byte value
    | Reverted                // the receive function reverted, or the contract has none

  /** The value a dual-role receiver must return. */
  const ERCX_RECEIVED: bv32 := 0x1111_1111

  /** The value an ERC-721 receiver must return: the selector of onERC721Received. */
  const ERC721_RECEIVED: bv32 := 0x150b_7a02

  /** The reason the reply makes the transfer revert, or None when it is accepted. */
  function ReplyCheck(reply: Reply, expected: bv32): (e: Option<Error>)
    ensures e.None? <==> reply == NoContract || reply == Returned(expected)
    ensures e == Some(ReceiverReverted) <==> reply == Reverted
  {
    match reply
    case NoContract => None
    case Returned(m) => if m == expected then None else Some(TransferRejected)
    case Reverted => Some(ReceiverReverted)
  }
}
