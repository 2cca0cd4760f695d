/** Addresses, item identifiers, errors and events of the dual-role item registry. */
module Types {

  /** An account address; ZERO is the zero address, which never holds a role. */
  type Holder = nat

  /** The identifier of an item (a token id). */
  type ItemId = nat

  const ZERO: Holder := 0

  datatype Option<T> = None | Some(value: T)

  /** Why a call reverts. The registry state is left exactly as it was. */
  datatype Error =
    | NotFound          // the item does not exist
    | AlreadyExists     // minting an id that exists
    | NotAuthorized     // the caller holds no role, approval or operator status that allows the call
    | Encumbered        // the owner side is blocked by an active tenant right
    | InvalidTarget     // a zero destination, or an approval target the slot forbids
    | InvalidFrom       // the stated source does not hold the role
    | ZeroHolder        // a balance query about the zero address
    | OutOfRange        // an index at or past the end of an enumeration
    | TransferRejected  // a receiver contract answered with the wrong magic value
    | ReceiverReverted  // a receiver contract reverted or has no receive function

  datatype Result<T> = Ok(value: T) | Err(error: Error)

  /** The first of two checks that fails, checked in order. */
  function FirstError(first: Option<Error>, second: Option<Error>): (e: Option<Error>)
    ensures e.None? <==> first.None? && second.None?
    ensures first.Some? ==> e == first
  {
    if first.Some? then first else second
  }

  /** A call's result: its error when a check failed, otherwise its value. */
  function Outcome<T>(e: Option<Error>, v: T): (r: Result<T>)
    ensures r.Ok? <==> e.None?
    ensures r.Ok? ==> r.value == v
    ensures r.Err? ==> Some(r.error) == e
  {
    if e.Some? then Err(e.value) else Ok(v)
  }

  /** The log entry a successful call emits. */
  datatype Event =
    | TransferUser(from: Holder, to: Holder, item: ItemId)
    | TransferOwner(from: Holder, to: Holder, item: ItemId)
    | Transfer(from: Holder, to: Holder, item: ItemId)
    | ApprovalForUser(user: Holder, approved: Holder, item: ItemId)
    | ApprovalForOwner(owner: Holder, approved: Holder, item: ItemId)
    | ApprovalLien(owner: Holder, approved: Holder, item: ItemId)
    | ApprovalTenantRight(owner: Holder, approved: Holder, item: ItemId)
    | Approval(owner: Holder, approved: Holder, item: ItemId)
    | ApprovalForAll(owner: Holder, operator: Holder, isApproved: bool)
    | LienSet(to: Holder, item: ItemId, status: bool)
    | TenantRightSet(to: Holder, item: ItemId, status: bool)
}
