/**
  The registry replayed through the situations its test suite sets up.  Each
  predicate below names the state a group of test cases starts from; a setup
  method reaches it from a new registry, and each scenario method performs the
  calls of one case on any registry in that state and returns what the case
  observes, its postcondition stating the observations the suite expects.
 */
module Scenarios {
  import opened Types
  import opened Enumeration
  import opened Authorization
  import opened Receiver
  import opened Registry

  // The accounts of the suite, numbered in the order they are handed out.
  const CREATOR: Holder := 1
  const OWNER: Holder := 2
  const USER: Holder := 3
  const NEW_OWNER: Holder := 4
  const OTHER: Holder := 5
  const APPROVED: Holder := 6
  const APPROVED2: Holder := 7
  const OPERATOR: Holder := 8
  const OPERATOR2: Holder := 9
  const LIEN: Holder := 10
  const LIEN2: Holder := 11
  const TENANT: Holder := 12
  const TENANT2: Holder := 13

  const FIRST: ItemId := 100
  const SECOND: ItemId := 200
  const THIRD: ItemId := 300
  const FOURTH: ItemId := 400
  const MISSING: ItemId := 999

  /** The rights on `item` are exactly `owner`, `user` and `s`. */
  ghost predicate Has(reg: ItemRegistry, item: ItemId, owner: Holder, user: Holder, s: ItemSlots)
    reads reg
  {
    reg.Snapshot(item) == Some(Rights(owner, user, s))
  }

  // ---------------------------------------------------------------------------
  // Two items minted to OWNER (the state every case starts from)

  ghost predicate OneMinted(reg: ItemRegistry)
    reads reg
  {
    && reg.Valid()
    && Has(reg, FIRST, OWNER, OWNER, NoSlots)
    && SECOND !in reg.ownerOf && MISSING !in reg.ownerOf && THIRD !in reg.ownerOf && FOURTH !in reg.ownerOf
    && reg.operators == {}
    && ListOf(reg.itemsOfOwner, OWNER) == [FIRST] && ListOf(reg.itemsOfUser, OWNER) == [FIRST]
    && ListOf(reg.itemsOfOwner, OTHER) == [] && ListOf(reg.itemsOfOwner, NEW_OWNER) == []
    && ListOf(reg.itemsOfUser, USER) == [] && ListOf(reg.itemsOfUser, OTHER) == []
    && reg.allItems == [FIRST]
    && reg.itemUris == map[] && reg.baseUri == []
  }

  ghost predicate TwoMinted(reg: ItemRegistry)
    reads reg
  {
    && reg.Valid()
    && Has(reg, FIRST, OWNER, OWNER, NoSlots) && Has(reg, SECOND, OWNER, OWNER, NoSlots)
    && MISSING !in reg.ownerOf && THIRD !in reg.ownerOf && FOURTH !in reg.ownerOf
    && reg.operators == {}
    && ListOf(reg.itemsOfOwner, OWNER) == [FIRST, SECOND] && ListOf(reg.itemsOfUser, OWNER) == [FIRST, SECOND]
    && ListOf(reg.itemsOfOwner, OTHER) == [] && ListOf(reg.itemsOfOwner, NEW_OWNER) == []
    && ListOf(reg.itemsOfUser, USER) == [] && ListOf(reg.itemsOfUser, OTHER) == []
    && reg.allItems == [FIRST, SECOND]
    && reg.itemUris == map[] && reg.baseUri == []
  }

  method MintFirst() returns (reg: ItemRegistry)
    ensures fresh(reg) && OneMinted(reg)
  {
    reg := new ItemRegistry();
    var first := reg.Mint(OWNER, FIRST);
    assert first.Ok?;
  }

  method MintSecond(reg: ItemRegistry)
    requires OneMinted(reg)
    modifies reg
    ensures TwoMinted(reg)
  {
    var second := reg.Mint(OWNER, SECOND);
    assert second.Ok?;
  }

  /** A new registry in which FIRST and SECOND were minted to OWNER. */
  method MintTwo() returns (reg: ItemRegistry)
    ensures fresh(reg) && TwoMinted(reg)
  {
    reg := MintFirst();
    MintSecond(reg);
  }

  /** Balances and holders right after the two mints. */
  method MintedQueries(reg: ItemRegistry)
    returns (ownerBalance: Result<nat>, userBalance: Result<nat>, otherBalance: Result<nat>, zeroBalance: Result<nat>,
             userOfFirst: Result<Holder>, ownerOfFirst: Result<Holder>, ownerOfMissing: Result<Holder>)
    requires TwoMinted(reg)
    ensures ownerBalance == Ok(2) && userBalance == Ok(2) && otherBalance == Ok(0) && zeroBalance == Err(ZeroHolder)
    ensures userOfFirst == Ok(OWNER) && ownerOfFirst == Ok(OWNER) && ownerOfMissing == Err(NotFound)
  {
    assert |ListOf(reg.itemsOfOwner, OWNER)| == 2;
    ownerBalance := reg.BalanceOf(OwnerRole, OWNER);
    assert |ListOf(reg.itemsOfUser, OWNER)| == 2;
    userBalance := reg.BalanceOf(UserRole, OWNER);
    assert |ListOf(reg.itemsOfOwner, OTHER)| == 0;
    otherBalance := reg.BalanceOf(OwnerRole, OTHER);
    zeroBalance := reg.BalanceOf(UserRole, ZERO);
    userOfFirst := reg.HolderOf(UserRole, FIRST);
    ownerOfFirst := reg.HolderOf(OwnerRole, FIRST);
    ownerOfMissing := reg.HolderOf(OwnerRole, MISSING);
  }

  /** The count, the per-owner index and the global index right after the two mints. */
  method EnumerationQueries(reg: ItemRegistry)
    returns (total: nat, firstOwned: Result<ItemId>, pastEnd: Result<ItemId>, noneOwned: Result<ItemId>,
             at0: Result<ItemId>, at1: Result<ItemId>, globalPastEnd: Result<ItemId>)
    requires TwoMinted(reg)
    ensures total == 2
    ensures firstOwned == Ok(FIRST) && pastEnd == Err(OutOfRange) && noneOwned == Err(OutOfRange)
    ensures at0.Ok? && at1.Ok? && {at0.value, at1.value} == {FIRST, SECOND}
    ensures globalPastEnd == Err(OutOfRange)
  {
    total := reg.TotalNumberOfItems();
    firstOwned := reg.ItemOfHolderByIndex(OwnerRole, OWNER, 0);
    pastEnd := reg.ItemOfHolderByIndex(OwnerRole, OWNER, 10);
    noneOwned := reg.ItemOfHolderByIndex(OwnerRole, OTHER, 0);
    at0 := reg.ItemByIndex(0);
    at1 := reg.ItemByIndex(1);
    globalPastEnd := reg.ItemByIndex(2);
  }

  /** mint: a third item to NEW_OWNER; minting to zero or an existing id fails. */
  method MintCases(reg: ItemRegistry)
    returns (minted: Result<Event>, ownerOfThird: Result<Holder>, balance: Result<nat>,
             toZero: Result<Event>, again: Result<Event>)
    requires TwoMinted(reg)
    modifies reg
    ensures minted == Ok(TransferOwner(ZERO, NEW_OWNER, THIRD))
    ensures ownerOfThird == Ok(NEW_OWNER) && balance == Ok(1)
    ensures toZero == Err(InvalidTarget) && again == Err(AlreadyExists)
  {
    minted := reg.Mint(NEW_OWNER, THIRD);
    ownerOfThird := reg.HolderOf(OwnerRole, THIRD);
    assert |ListOf(reg.itemsOfOwner, NEW_OWNER)| == 1;
    balance := reg.BalanceOf(OwnerRole, NEW_OWNER);
    toZero := reg.Mint(ZERO, FOURTH);
    again := reg.Mint(OWNER, FIRST);
  }

  // ---------------------------------------------------------------------------
  // User-role transfers

  ghost predicate FirstHandedToUser(reg: ItemRegistry)
    reads reg
  {
    && reg.Valid()
    && Has(reg, FIRST, OWNER, USER, NoSlots) && Has(reg, SECOND, OWNER, OWNER, NoSlots)
    && MISSING !in reg.ownerOf
    && reg.operators == {}
    && ListOf(reg.itemsOfUser, USER) == [FIRST] && ListOf(reg.itemsOfUser, OTHER) == []
  }

  /** Both items held by OWNER as owner and by USER as user. */
  ghost predicate HandedToUser(reg: ItemRegistry)
    reads reg
  {
    && reg.Valid()
    && Has(reg, FIRST, OWNER, USER, NoSlots) && Has(reg, SECOND, OWNER, USER, NoSlots)
    && MISSING !in reg.ownerOf
    && reg.operators == {}
    && ListOf(reg.itemsOfUser, USER) == [FIRST, SECOND] && ListOf(reg.itemsOfUser, OTHER) == []
  }

  method HandFirstToUser(reg: ItemRegistry)
    requires TwoMinted(reg)
    modifies reg
    ensures FirstHandedToUser(reg)
  {
    assert TransferUserCheck(reg.Snapshot(FIRST), reg.operators, OWNER, OWNER, USER) == None;
    var first := reg.SafeTransferUser(OWNER, OWNER, USER, FIRST, NoContract);
  }

  method HandSecondToUser(reg: ItemRegistry)
    requires FirstHandedToUser(reg)
    modifies reg
    ensures HandedToUser(reg)
  {
    assert TransferUserCheck(reg.Snapshot(SECOND), reg.operators, OWNER, OWNER, USER) == None;
    var second := reg.SafeTransferUser(OWNER, OWNER, USER, SECOND, NoContract);
  }

  /** HandedToUser, with operators for USER and OWNER and APPROVED approved to move
      the user role of FIRST. */
  ghost predicate UserBlock(reg: ItemRegistry)
    reads reg
  {
    && reg.Valid()
    && Has(reg, FIRST, OWNER, USER, NoSlots.(approvedForUser := APPROVED)) && Has(reg, SECOND, OWNER, USER, NoSlots)
    && MISSING !in reg.ownerOf
    && reg.operators == {(USER, OPERATOR), (OWNER, OPERATOR2)}
    && ListOf(reg.itemsOfUser, USER) == [FIRST, SECOND] && ListOf(reg.itemsOfUser, OTHER) == []
  }

  method GrantUserBlock(reg: ItemRegistry)
    requires HandedToUser(reg)
    modifies reg
    ensures UserBlock(reg)
  {
    assert ApproveCheck(ForUser, reg.Snapshot(FIRST), reg.operators, OWNER, APPROVED) == None;
    var approval := reg.Approve(ForUser, OWNER, APPROVED, FIRST);
    var byUser := reg.SetApprovalForAll(USER, OPERATOR, true);
    var byOwner := reg.SetApprovalForAll(OWNER, OPERATOR2, true);
  }

  /** The state of the user-transfer cases, reached from a new registry. */
  method UserBlockSetup() returns (reg: ItemRegistry)
    ensures fresh(reg) && UserBlock(reg)
  {
    reg := MintTwo();
    HandFirstToUser(reg);
    HandSecondToUser(reg);
    GrantUserBlock(reg);
  }

  /** What a successful user-role transfer of FIRST from USER to OTHER leaves behind. */
  method ObserveUserTransfer(reg: ItemRegistry)
    returns (userOfFirst: Result<Holder>, approved: Result<Holder>, balance: Result<nat>,
             firstOfOther: Result<ItemId>, firstOfUser: Result<ItemId>)
    requires reg.Valid()
    requires FIRST in reg.userOf && reg.userOf[FIRST] == OTHER && reg.slots[FIRST].approvedForUser == ZERO
    requires |ListOf(reg.itemsOfUser, USER)| == 1 && ListOf(reg.itemsOfUser, OTHER) == [FIRST]
    ensures userOfFirst == Ok(OTHER) && approved == Ok(ZERO) && balance == Ok(1)
    ensures firstOfOther == Ok(FIRST)
    ensures firstOfUser.Ok? && firstOfUser.value != FIRST
  {
    userOfFirst := reg.HolderOf(UserRole, FIRST);
    approved := reg.Approved(ForUser, FIRST);
    assert |ListOf(reg.itemsOfUser, USER)| == 1;
    balance := reg.BalanceOf(UserRole, USER);
    firstOfOther := reg.ItemOfHolderByIndex(UserRole, OTHER, 0);
    firstOfUser := reg.ItemOfHolderByIndex(UserRole, USER, 0);
  }

  /** The user, the owner, the approvee and either operator may move the user role. */
  method UserTransferBy(reg: ItemRegistry, caller: Holder)
    returns (r: Result<Event>, userOfFirst: Result<Holder>, approved: Result<Holder>, balance: Result<nat>,
             firstOfOther: Result<ItemId>, firstOfUser: Result<ItemId>)
    requires UserBlock(reg)
    requires caller == USER || caller == OWNER || caller == APPROVED || caller == OPERATOR || caller == OPERATOR2
    modifies reg
    ensures r == Ok(TransferUser(USER, OTHER, FIRST))
    ensures userOfFirst == Ok(OTHER) && approved == Ok(ZERO) && balance == Ok(1)
    ensures firstOfOther == Ok(FIRST)
    ensures firstOfUser.Ok? && firstOfUser.value != FIRST
  {
    assert TransferUserCheck(reg.Snapshot(FIRST), reg.operators, caller, USER, OTHER) == None;
    r := reg.SafeTransferUser(caller, USER, OTHER, FIRST, NoContract);
    userOfFirst, approved, balance, firstOfOther, firstOfUser := ObserveUserTransfer(reg);
  }

  /** The holder of an active lien may move the user role. */
  method UserTransferByLien(reg: ItemRegistry)
    returns (r: Result<Event>, userOfFirst: Result<Holder>, approved: Result<Holder>, balance: Result<nat>,
             firstOfOther: Result<ItemId>, firstOfUser: Result<ItemId>)
    requires UserBlock(reg)
    modifies reg
    ensures r == Ok(TransferUser(USER, OTHER, FIRST))
    ensures userOfFirst == Ok(OTHER) && approved == Ok(ZERO) && balance == Ok(1)
    ensures firstOfOther == Ok(FIRST)
    ensures firstOfUser.Ok? && firstOfUser.value != FIRST
  {
    assert ApproveCheck(ForLien, reg.Snapshot(FIRST), reg.operators, OWNER, LIEN) == None;
    var approval := reg.Approve(ForLien, OWNER, LIEN, FIRST);
    assert ClaimCheck(Lien, reg.Snapshot(FIRST), LIEN) == None;
    var claim := reg.Claim(Lien, LIEN, FIRST);
    assert TransferUserCheck(reg.Snapshot(FIRST), reg.operators, LIEN, USER, OTHER) == None;
    r := reg.SafeTransferUser(LIEN, USER, OTHER, FIRST, NoContract);
    userOfFirst, approved, balance, firstOfOther, firstOfUser := ObserveUserTransfer(reg);
  }

  /** The owner may still move the user role after clearing the user-transfer approval. */
  method UserTransferAfterClearing(reg: ItemRegistry)
    returns (cleared: Result<Event>, r: Result<Event>, userOfFirst: Result<Holder>, approved: Result<Holder>,
             balance: Result<nat>)
    requires UserBlock(reg)
    modifies reg
    ensures cleared == Ok(ApprovalForUser(USER, ZERO, FIRST))
    ensures r == Ok(TransferUser(USER, OTHER, FIRST))
    ensures userOfFirst == Ok(OTHER) && approved == Ok(ZERO) && balance == Ok(1)
  {
    assert ApproveCheck(ForUser, reg.Snapshot(FIRST), reg.operators, OWNER, ZERO) == None;
    cleared := reg.Approve(ForUser, OWNER, ZERO, FIRST);
    assert TransferUserCheck(reg.Snapshot(FIRST), reg.operators, OWNER, USER, OTHER) == None;
    r := reg.SafeTransferUser(OWNER, USER, OTHER, FIRST, NoContract);
    userOfFirst := reg.HolderOf(UserRole, FIRST);
    approved := reg.Approved(ForUser, FIRST);
    assert |ListOf(reg.itemsOfUser, USER)| == 1;
    balance := reg.BalanceOf(UserRole, USER);
  }

  /** A transfer to the current user keeps the holder, clears the approval and keeps the list. */
  method UserSelfTransfer(reg: ItemRegistry)
    returns (r: Result<Event>, userOfFirst: Result<Holder>, approved: Result<Holder>, balance: Result<nat>,
             at0: Result<ItemId>, at1: Result<ItemId>)
    requires UserBlock(reg)
    modifies reg
    ensures r == Ok(TransferUser(USER, USER, FIRST))
    ensures userOfFirst == Ok(USER) && approved == Ok(ZERO) && balance == Ok(2)
    ensures at0 == Ok(FIRST) && at1 == Ok(SECOND)
  {
    assert TransferUserCheck(reg.Snapshot(FIRST), reg.operators, USER, USER, USER) == None;
    r := reg.SafeTransferUser(USER, USER, USER, FIRST, NoContract);
    userOfFirst := reg.HolderOf(UserRole, FIRST);
    approved := reg.Approved(ForUser, FIRST);
    assert |ListOf(reg.itemsOfUser, USER)| == 2;
    balance := reg.BalanceOf(UserRole, USER);
    at0 := reg.ItemOfHolderByIndex(UserRole, USER, 0);
    at1 := reg.ItemOfHolderByIndex(UserRole, USER, 1);
  }

  /** UserBlock after TENANT was approved for, and claimed, the tenant right on FIRST. */
  ghost predicate UserBlockTenant(reg: ItemRegistry)
    reads reg
  {
    && reg.Valid()
    && Has(reg, FIRST, OWNER, USER, NoSlots.(currentTenantRight := TENANT))
    && reg.operators == {(USER, OPERATOR), (OWNER, OPERATOR2)}
  }

  /** setTenantRight: the approvee becomes the current tenant right holder; both the
      tenant-right approval and the user-transfer approval are cleared. */
  method ClaimTenantRight(reg: ItemRegistry)
    returns (approval: Result<Event>, claim: Result<Event>)
    requires UserBlock(reg)
    modifies reg
    ensures approval == Ok(ApprovalTenantRight(OWNER, TENANT, FIRST))
    ensures claim == Ok(TenantRightSet(TENANT, FIRST, true))
    ensures UserBlockTenant(reg)
  {
    assert ApproveCheck(ForTenantRight, reg.Snapshot(FIRST), reg.operators, OWNER, TENANT) == None;
    approval := reg.Approve(ForTenantRight, OWNER, TENANT, FIRST);
    assert ClaimCheck(TenantRight, reg.Snapshot(FIRST), TENANT) == None;
    claim := reg.Claim(TenantRight, TENANT, FIRST);
  }

  /** An active tenant right takes the user role out of the hands of the owner side;
      the reverted calls leave the user in place. */
  method UserTransferUnderTenantRight(reg: ItemRegistry)
    returns (byOwner: Result<Event>, byOwnersOperator: Result<Event>, userOfFirst: Result<Holder>)
    requires UserBlockTenant(reg)
    modifies reg
    ensures byOwner == Err(Encumbered) && byOwnersOperator == Err(Encumbered)
    ensures userOfFirst == Ok(USER)
  {
    assert TransferUserCheck(reg.Snapshot(FIRST), reg.operators, OWNER, USER, OTHER) == Some(Encumbered);
    byOwner := reg.SafeTransferUser(OWNER, USER, OTHER, FIRST, NoContract);
    assert TransferUserCheck(reg.Snapshot(FIRST), reg.operators, OPERATOR2, USER, OTHER) == Some(Encumbered);
    byOwnersOperator := reg.SafeTransferUser(OPERATOR2, USER, OTHER, FIRST, NoContract);
    userOfFirst := reg.HolderOf(UserRole, FIRST);
  }

  /** A wrong source, an unrelated caller, a missing item and the zero destination all revert
      (the zero-destination case names OWNER as the source, which is not the user). */
  method UserTransferFailures(reg: ItemRegistry)
    returns (wrongFrom: Result<Event>, unrelated: Result<Event>, missing: Result<Event>, toZero: Result<Event>)
    requires UserBlock(reg)
    modifies reg
    ensures wrongFrom == Err(InvalidFrom) && unrelated == Err(NotAuthorized)
    ensures missing == Err(NotFound) && toZero == Err(InvalidFrom)
  {
    wrongFrom := reg.SafeTransferUser(OWNER, OTHER, OTHER, FIRST, NoContract);
    assert TransferUserCheck(reg.Snapshot(FIRST), reg.operators, OTHER, USER, OTHER) == Some(NotAuthorized);
    unrelated := reg.SafeTransferUser(OTHER, USER, OTHER, FIRST, NoContract);
    missing := reg.SafeTransferUser(OWNER, OWNER, OTHER, MISSING, NoContract);
    toZero := reg.SafeTransferUser(OWNER, OWNER, ZERO, FIRST, NoContract);
  }

  /** A destination contract that answers with the wrong value, or reverts, makes the transfer revert. */
  method UserTransferToReceivers(reg: ItemRegistry)
    returns (wrongMagic: Result<Event>, reverted: Result<Event>, accepted: Result<Event>)
    requires UserBlock(reg)
    modifies reg
    ensures wrongMagic == Err(TransferRejected) && reverted == Err(ReceiverReverted)
    ensures accepted == Ok(TransferUser(USER, OTHER, FIRST))
  {
    assert TransferUserCheck(reg.Snapshot(FIRST), reg.operators, USER, USER, OTHER) == None;
    wrongMagic := reg.SafeTransferUser(USER, USER, OTHER, FIRST, Returned(ERC721_RECEIVED));
    reverted := reg.SafeTransferUser(USER, USER, OTHER, FIRST, Reverted);
    accepted := reg.SafeTransferUser(USER, USER, OTHER, FIRST, Returned(ERCX_RECEIVED));
  }

  // ---------------------------------------------------------------------------
  // Owner-role transfers

  /** Both items held by OWNER in both roles, with operators for USER and OWNER and
      APPROVED approved to move the owner role of FIRST. */
  ghost predicate OwnerBlock(reg: ItemRegistry)
    reads reg
  {
    && reg.Valid()
    && Has(reg, FIRST, OWNER, OWNER, NoSlots.(approvedForOwner := APPROVED)) && Has(reg, SECOND, OWNER, OWNER, NoSlots)
    && MISSING !in reg.ownerOf
    && reg.operators == {(USER, OPERATOR), (OWNER, OPERATOR2)}
    && ListOf(reg.itemsOfOwner, OWNER) == [FIRST, SECOND] && ListOf(reg.itemsOfOwner, OTHER) == []
  }

  method GrantOwnerBlock(reg: ItemRegistry)
    requires TwoMinted(reg)
    modifies reg
    ensures OwnerBlock(reg)
  {
    assert ApproveCheck(ForOwner, reg.Snapshot(FIRST), reg.operators, OWNER, APPROVED) == None;
    var approval := reg.Approve(ForOwner, OWNER, APPROVED, FIRST);
    var byUser := reg.SetApprovalForAll(USER, OPERATOR, true);
    var byOwner := reg.SetApprovalForAll(OWNER, OPERATOR2, true);
  }

  /** The state of the owner-transfer cases, reached from a new registry. */
  method OwnerBlockSetup() returns (reg: ItemRegistry)
    ensures fresh(reg) && OwnerBlock(reg)
  {
    reg := MintTwo();
    GrantOwnerBlock(reg);
  }

  /** What a successful owner-role transfer of FIRST from OWNER to OTHER leaves behind. */
  method ObserveOwnerTransfer(reg: ItemRegistry)
    returns (ownerOfFirst: Result<Holder>, forOwner: Result<Holder>, forLien: Result<Holder>,
             forTenantRight: Result<Holder>, balance: Result<nat>, firstOfOther: Result<ItemId>,
             firstOfOwner: Result<ItemId>)
    requires reg.Valid()
    requires FIRST in reg.ownerOf && reg.ownerOf[FIRST] == OTHER
    requires reg.slots[FIRST].approvedForOwner == ZERO && reg.slots[FIRST].approvedLien == ZERO
    requires reg.slots[FIRST].approvedTenantRight == ZERO
    requires |ListOf(reg.itemsOfOwner, OWNER)| == 1 && ListOf(reg.itemsOfOwner, OTHER) == [FIRST]
    ensures ownerOfFirst == Ok(OTHER) && balance == Ok(1)
    ensures forOwner == Ok(ZERO) && forLien == Ok(ZERO) && forTenantRight == Ok(ZERO)
    ensures firstOfOther == Ok(FIRST)
    ensures firstOfOwner.Ok? && firstOfOwner.value != FIRST
  {
    ownerOfFirst := reg.HolderOf(OwnerRole, FIRST);
    forOwner := reg.Approved(ForOwner, FIRST);
    forLien := reg.Approved(ForLien, FIRST);
    forTenantRight := reg.Approved(ForTenantRight, FIRST);
    assert |ListOf(reg.itemsOfOwner, OWNER)| == 1;
    balance := reg.BalanceOf(OwnerRole, OWNER);
    firstOfOther := reg.ItemOfHolderByIndex(OwnerRole, OTHER, 0);
    firstOfOwner := reg.ItemOfHolderByIndex(OwnerRole, OWNER, 0);
  }

  /** The owner, the approvee and the owner's operator may move the owner role. */
  method OwnerTransferBy(reg: ItemRegistry, caller: Holder)
    returns (r: Result<Event>, ownerOfFirst: Result<Holder>, forOwner: Result<Holder>, forLien: Result<Holder>,
             forTenantRight: Result<Holder>, balance: Result<nat>, firstOfOther: Result<ItemId>,
             firstOfOwner: Result<ItemId>)
    requires OwnerBlock(reg)
    requires caller == OWNER || caller == APPROVED || caller == OPERATOR2
    modifies reg
    ensures r == Ok(TransferOwner(OWNER, OTHER, FIRST))
    ensures ownerOfFirst == Ok(OTHER) && balance == Ok(1)
    ensures forOwner == Ok(ZERO) && forLien == Ok(ZERO) && forTenantRight == Ok(ZERO)
    ensures firstOfOther == Ok(FIRST)
    ensures firstOfOwner.Ok? && firstOfOwner.value != FIRST
  {
    assert TransferOwnerCheck(reg.Snapshot(FIRST), reg.operators, caller, OWNER, OTHER) == None;
    r := reg.SafeTransferOwner(caller, OWNER, OTHER, FIRST, NoContract);
    ownerOfFirst, forOwner, forLien, forTenantRight, balance, firstOfOther, firstOfOwner := ObserveOwnerTransfer(reg);
  }

  /** The holder of an active lien may move the owner role. */
  method OwnerTransferByLien(reg: ItemRegistry)
    returns (r: Result<Event>, ownerOfFirst: Result<Holder>, forOwner: Result<Holder>, forLien: Result<Holder>,
             forTenantRight: Result<Holder>, balance: Result<nat>, firstOfOther: Result<ItemId>,
             firstOfOwner: Result<ItemId>)
    requires OwnerBlock(reg)
    modifies reg
    ensures r == Ok(TransferOwner(OWNER, OTHER, FIRST))
    ensures ownerOfFirst == Ok(OTHER) && balance == Ok(1)
    ensures forOwner == Ok(ZERO) && forLien == Ok(ZERO) && forTenantRight == Ok(ZERO)
    ensures firstOfOther == Ok(FIRST)
    ensures firstOfOwner.Ok? && firstOfOwner.value != FIRST
  {
    assert ApproveCheck(ForLien, reg.Snapshot(FIRST), reg.operators, OWNER, LIEN) == None;
    var approval := reg.Approve(ForLien, OWNER, LIEN, FIRST);
    assert ClaimCheck(Lien, reg.Snapshot(FIRST), LIEN) == None;
    var claim := reg.Claim(Lien, LIEN, FIRST);
    assert TransferOwnerCheck(reg.Snapshot(FIRST), reg.operators, LIEN, OWNER, OTHER) == None;
    r := reg.SafeTransferOwner(LIEN, OWNER, OTHER, FIRST, NoContract);
    ownerOfFirst, forOwner, forLien, forTenantRight, balance, firstOfOther, firstOfOwner := ObserveOwnerTransfer(reg);
  }

  /** The owner may still move the owner role after clearing the owner-transfer approval. */
  method OwnerTransferAfterClearing(reg: ItemRegistry)
    returns (cleared: Result<Event>, r: Result<Event>, ownerOfFirst: Result<Holder>, forOwner: Result<Holder>,
             balance: Result<nat>)
    requires OwnerBlock(reg)
    modifies reg
    ensures cleared == Ok(ApprovalForOwner(OWNER, ZERO, FIRST))
    ensures r == Ok(TransferOwner(OWNER, OTHER, FIRST))
    ensures ownerOfFirst == Ok(OTHER) && forOwner == Ok(ZERO) && balance == Ok(1)
  {
    assert ApproveCheck(ForOwner, reg.Snapshot(FIRST), reg.operators, OWNER, ZERO) == None;
    cleared := reg.Approve(ForOwner, OWNER, ZERO, FIRST);
    assert TransferOwnerCheck(reg.Snapshot(FIRST), reg.operators, OWNER, OWNER, OTHER) == None;
    r := reg.SafeTransferOwner(OWNER, OWNER, OTHER, FIRST, NoContract);
    ownerOfFirst := reg.HolderOf(OwnerRole, FIRST);
    forOwner := reg.Approved(ForOwner, FIRST);
    assert |ListOf(reg.itemsOfOwner, OWNER)| == 1;
    balance := reg.BalanceOf(OwnerRole, OWNER);
  }

  /** A transfer to the current owner keeps the owner, clears the approval and keeps the list. */
  method OwnerSelfTransfer(reg: ItemRegistry)
    returns (r: Result<Event>, ownerOfFirst: Result<Holder>, forOwner: Result<Holder>, balance: Result<nat>,
             at0: Result<ItemId>, at1: Result<ItemId>)
    requires OwnerBlock(reg)
    modifies reg
    ensures r == Ok(TransferOwner(OWNER, OWNER, FIRST))
    ensures ownerOfFirst == Ok(OWNER) && forOwner == Ok(ZERO) && balance == Ok(2)
    ensures at0 == Ok(FIRST) && at1 == Ok(SECOND)
  {
    assert TransferOwnerCheck(reg.Snapshot(FIRST), reg.operators, OWNER, OWNER, OWNER) == None;
    r := reg.SafeTransferOwner(OWNER, OWNER, OWNER, FIRST, NoContract);
    ownerOfFirst := reg.HolderOf(OwnerRole, FIRST);
    forOwner := reg.Approved(ForOwner, FIRST);
    assert |ListOf(reg.itemsOfOwner, OWNER)| == 2;
    balance := reg.BalanceOf(OwnerRole, OWNER);
    at0 := reg.ItemOfHolderByIndex(OwnerRole, OWNER, 0);
    at1 := reg.ItemOfHolderByIndex(OwnerRole, OWNER, 1);
  }

  /** USER holds no role here, so neither USER nor USER's operator may move the owner role,
      and neither may an unrelated account. */
  method OwnerTransferUnauthorized(reg: ItemRegistry)
    returns (byUser: Result<Event>, byUsersOperator: Result<Event>, unrelated: Result<Event>)
    requires OwnerBlock(reg)
    modifies reg
    ensures byUser == Err(NotAuthorized) && byUsersOperator == Err(NotAuthorized) && unrelated == Err(NotAuthorized)
  {
    assert TransferOwnerCheck(reg.Snapshot(FIRST), reg.operators, USER, OWNER, OTHER) == Some(NotAuthorized);
    byUser := reg.SafeTransferOwner(USER, OWNER, OTHER, FIRST, NoContract);
    assert TransferOwnerCheck(reg.Snapshot(FIRST), reg.operators, OPERATOR, OWNER, OTHER) == Some(NotAuthorized);
    byUsersOperator := reg.SafeTransferOwner(OPERATOR, OWNER, OTHER, FIRST, NoContract);
    assert TransferOwnerCheck(reg.Snapshot(FIRST), reg.operators, OTHER, OWNER, OTHER) == Some(NotAuthorized);
    unrelated := reg.SafeTransferOwner(OTHER, OWNER, OTHER, FIRST, NoContract);
  }

  /** A wrong source, a missing item and the zero destination all revert. */
  method OwnerTransferFailures(reg: ItemRegistry)
    returns (wrongFrom: Result<Event>, missing: Result<Event>, toZero: Result<Event>)
    requires OwnerBlock(reg)
    modifies reg
    ensures wrongFrom == Err(InvalidFrom) && missing == Err(NotFound) && toZero == Err(InvalidTarget)
  {
    wrongFrom := reg.SafeTransferOwner(OWNER, OTHER, OTHER, FIRST, NoContract);
    missing := reg.SafeTransferOwner(OWNER, OWNER, OTHER, MISSING, NoContract);
    toZero := reg.SafeTransferOwner(OWNER, OWNER, ZERO, FIRST, NoContract);
  }

  // ---------------------------------------------------------------------------
  // The user-transfer approval slot (both items held by USER as user)

  /** Approving sets the slot, re-approving the same or another target is allowed, and
      approving zero clears it; each call reports the user as the approver. */
  method ApproveForUserCases(reg: ItemRegistry)
    returns (first: Result<Event>, same: Result<Event>, other: Result<Event>, afterOther: Result<Holder>,
             cleared: Result<Event>, afterClear: Result<Holder>)
    requires HandedToUser(reg)
    modifies reg
    ensures first == Ok(ApprovalForUser(USER, APPROVED, FIRST)) && same == first
    ensures other == Ok(ApprovalForUser(USER, APPROVED2, FIRST)) && afterOther == Ok(APPROVED2)
    ensures cleared == Ok(ApprovalForUser(USER, ZERO, FIRST)) && afterClear == Ok(ZERO)
  {
    assert ApproveCheck(ForUser, reg.Snapshot(FIRST), reg.operators, USER, APPROVED) == None;
    first := reg.Approve(ForUser, USER, APPROVED, FIRST);
    assert ApproveCheck(ForUser, reg.Snapshot(FIRST), reg.operators, USER, APPROVED) == None;
    same := reg.Approve(ForUser, USER, APPROVED, FIRST);
    assert ApproveCheck(ForUser, reg.Snapshot(FIRST), reg.operators, USER, APPROVED2) == None;
    other := reg.Approve(ForUser, USER, APPROVED2, FIRST);
    afterOther := reg.Approved(ForUser, FIRST);
    assert ApproveCheck(ForUser, reg.Snapshot(FIRST), reg.operators, USER, ZERO) == None;
    cleared := reg.Approve(ForUser, USER, ZERO, FIRST);
    afterClear := reg.Approved(ForUser, FIRST);
  }

  /** The owner and the user are refused as targets, and a missing item is refused. */
  method ApproveForUserBadTargets(reg: ItemRegistry)
    returns (toOwner: Result<Event>, toUser: Result<Event>, missing: Result<Event>)
    requires HandedToUser(reg)
    modifies reg
    ensures toOwner == Err(InvalidTarget) && toUser == Err(InvalidTarget) && missing == Err(NotFound)
  {
    assert ApproveCheck(ForUser, reg.Snapshot(FIRST), reg.operators, USER, OWNER) == Some(InvalidTarget);
    toOwner := reg.Approve(ForUser, USER, OWNER, FIRST);
    assert ApproveCheck(ForUser, reg.Snapshot(FIRST), reg.operators, USER, USER) == Some(InvalidTarget);
    toUser := reg.Approve(ForUser, USER, USER, FIRST);
    missing := reg.Approve(ForUser, OPERATOR, APPROVED, MISSING);
  }

  /** Neither an unrelated account nor the approvee itself may fill the slot. */
  method ApproveForUserBadCallers(reg: ItemRegistry)
    returns (unrelated: Result<Event>, byApprovee: Result<Event>)
    requires HandedToUser(reg)
    modifies reg
    ensures unrelated == Err(NotAuthorized) && byApprovee == Err(NotAuthorized)
  {
    assert ApproveCheck(ForUser, reg.Snapshot(FIRST), reg.operators, OTHER, APPROVED) == Some(NotAuthorized);
    unrelated := reg.Approve(ForUser, OTHER, APPROVED, FIRST);
    assert ApproveCheck(ForUser, reg.Snapshot(FIRST), reg.operators, USER, APPROVED) == None;
    var granted := reg.Approve(ForUser, USER, APPROVED, FIRST);
    assert ApproveCheck(ForUser, reg.Snapshot(FIRST), reg.operators, APPROVED, APPROVED2) == Some(NotAuthorized);
    byApprovee := reg.Approve(ForUser, APPROVED, APPROVED2, FIRST);
  }

  /** An operator of the user and an operator of the owner may both fill the slot. */
  method ApproveForUserByOperators(reg: ItemRegistry)
    returns (byUsersOperator: Result<Event>, byOwnersOperator: Result<Event>, approved: Result<Holder>)
    requires HandedToUser(reg)
    modifies reg
    ensures byUsersOperator == Ok(ApprovalForUser(USER, APPROVED, FIRST))
    ensures byOwnersOperator == Ok(ApprovalForUser(USER, APPROVED2, FIRST))
    ensures approved == Ok(APPROVED2)
  {
    var userGrant := reg.SetApprovalForAll(USER, OPERATOR, true);
    assert ApproveCheck(ForUser, reg.Snapshot(FIRST), reg.operators, OPERATOR, APPROVED) == None;
    byUsersOperator := reg.Approve(ForUser, OPERATOR, APPROVED, FIRST);
    var ownerGrant := reg.SetApprovalForAll(OWNER, OPERATOR2, true);
    assert ApproveCheck(ForUser, reg.Snapshot(FIRST), reg.operators, OPERATOR2, APPROVED2) == None;
    byOwnersOperator := reg.Approve(ForUser, OPERATOR2, APPROVED2, FIRST);
    approved := reg.Approved(ForUser, FIRST);
  }

  /** Once a tenant right is active neither the owner nor the owner's operator can fill
      the user-transfer slot. */
  method ApproveForUserUnderTenantRight(reg: ItemRegistry)
    returns (byOwner: Result<Event>, byOwnersOperator: Result<Event>, approved: Result<Holder>)
    requires UserBlockTenant(reg)
    modifies reg
    ensures byOwner == Err(Encumbered) && byOwnersOperator == Err(Encumbered) && approved == Ok(ZERO)
  {
    assert ApproveCheck(ForUser, reg.Snapshot(FIRST), reg.operators, OWNER, OTHER) == Some(Encumbered);
    byOwner := reg.Approve(ForUser, OWNER, OTHER, FIRST);
    assert ApproveCheck(ForUser, reg.Snapshot(FIRST), reg.operators, OPERATOR2, OTHER) == Some(Encumbered);
    byOwnersOperator := reg.Approve(ForUser, OPERATOR2, OTHER, FIRST);
    approved := reg.Approved(ForUser, FIRST);
  }

  // ---------------------------------------------------------------------------
  // The owner-transfer approval slot and the legacy getter (both items held by OWNER)

  /** Approving sets the slot, re-approving is allowed, approving zero clears it, and the
      user (who holds no role here) is an acceptable target. */
  method ApproveForOwnerCases(reg: ItemRegistry)
    returns (first: Result<Event>, same: Result<Event>, other: Result<Event>, cleared: Result<Event>,
             afterClear: Result<Holder>, toUser: Result<Event>, afterUser: Result<Holder>)
    requires TwoMinted(reg)
    modifies reg
    ensures first == Ok(ApprovalForOwner(OWNER, APPROVED, FIRST)) && same == first
    ensures other == Ok(ApprovalForOwner(OWNER, APPROVED2, FIRST))
    ensures cleared == Ok(ApprovalForOwner(OWNER, ZERO, FIRST)) && afterClear == Ok(ZERO)
    ensures toUser == Ok(ApprovalForOwner(OWNER, USER, FIRST)) && afterUser == Ok(USER)
  {
    assert ApproveCheck(ForOwner, reg.Snapshot(FIRST), reg.operators, OWNER, APPROVED) == None;
    first := reg.Approve(ForOwner, OWNER, APPROVED, FIRST);
    assert ApproveCheck(ForOwner, reg.Snapshot(FIRST), reg.operators, OWNER, APPROVED) == None;
    same := reg.Approve(ForOwner, OWNER, APPROVED, FIRST);
    assert ApproveCheck(ForOwner, reg.Snapshot(FIRST), reg.operators, OWNER, APPROVED2) == None;
    other := reg.Approve(ForOwner, OWNER, APPROVED2, FIRST);
    assert ApproveCheck(ForOwner, reg.Snapshot(FIRST), reg.operators, OWNER, ZERO) == None;
    cleared := reg.Approve(ForOwner, OWNER, ZERO, FIRST);
    afterClear := reg.Approved(ForOwner, FIRST);
    assert ApproveCheck(ForOwner, reg.Snapshot(FIRST), reg.operators, OWNER, USER) == None;
    toUser := reg.Approve(ForOwner, OWNER, USER, FIRST);
    afterUser := reg.Approved(ForOwner, FIRST);
  }

  /** The owner is refused as a target; an unrelated caller, the approvee, an operator of
      someone else and a missing item are refused. */
  method ApproveForOwnerRejections(reg: ItemRegistry)
    returns (toOwner: Result<Event>, unrelated: Result<Event>, byApprovee: Result<Event>,
             byStranger: Result<Event>, missing: Result<Event>)
    requires TwoMinted(reg)
    modifies reg
    ensures toOwner == Err(InvalidTarget) && missing == Err(NotFound)
    ensures unrelated == Err(NotAuthorized) && byApprovee == Err(NotAuthorized) && byStranger == Err(NotAuthorized)
  {
    toOwner := reg.Approve(ForOwner, OWNER, OWNER, FIRST);
    assert ApproveCheck(ForOwner, reg.Snapshot(FIRST), reg.operators, OTHER, APPROVED) == Some(NotAuthorized);
    unrelated := reg.Approve(ForOwner, OTHER, APPROVED, FIRST);
    assert ApproveCheck(ForOwner, reg.Snapshot(FIRST), reg.operators, OWNER, APPROVED) == None;
    var granted := reg.Approve(ForOwner, OWNER, APPROVED, FIRST);
    assert ApproveCheck(ForOwner, reg.Snapshot(FIRST), reg.operators, APPROVED, APPROVED2) == Some(NotAuthorized);
    byApprovee := reg.Approve(ForOwner, APPROVED, APPROVED2, FIRST);
    assert ApproveCheck(ForOwner, reg.Snapshot(FIRST), reg.operators, OPERATOR, APPROVED) == Some(NotAuthorized);
    byStranger := reg.Approve(ForOwner, OPERATOR, APPROVED, FIRST);
    missing := reg.Approve(ForOwner, OPERATOR, APPROVED, MISSING);
  }

  /** An operator of the owner may fill the owner-transfer slot. */
  method ApproveForOwnerByOperator(reg: ItemRegistry) returns (r: Result<Event>, approved: Result<Holder>)
    requires TwoMinted(reg)
    modifies reg
    ensures r == Ok(ApprovalForOwner(OWNER, APPROVED, FIRST)) && approved == Ok(APPROVED)
  {
    var grant := reg.SetApprovalForAll(OWNER, OPERATOR2, true);
    assert ApproveCheck(ForOwner, reg.Snapshot(FIRST), reg.operators, OPERATOR2, APPROVED) == None;
    r := reg.Approve(ForOwner, OPERATOR2, APPROVED, FIRST);
    approved := reg.Approved(ForOwner, FIRST);
  }

  /** getApproved fails for a missing item, reads zero at first, and reads the target of
      the legacy approve afterwards. */
  method LegacyGetApproved(reg: ItemRegistry)
    returns (missing: Result<Holder>, before: Result<Holder>, r: Result<Event>, after: Result<Holder>)
    requires TwoMinted(reg)
    modifies reg
    ensures missing == Err(NotFound) && before == Ok(ZERO)
    ensures r == Ok(Approval(OWNER, APPROVED, FIRST)) && after == Ok(APPROVED)
  {
    missing := reg.Approved(ForOwner, MISSING);
    before := reg.Approved(ForOwner, FIRST);
    assert ApproveCheck(ForOwner, reg.Snapshot(FIRST), reg.operators, OWNER, APPROVED) == None;
    r := reg.ApproveLegacy(OWNER, APPROVED, FIRST);
    after := reg.Approved(ForOwner, FIRST);
  }

  /** approve: approving zero with no prior approval, approving a target, approving it
      again and clearing a prior approval all go through and report the owner. */
  method LegacyApproveCases(reg: ItemRegistry)
    returns (clearNone: Result<Event>, granted: Result<Event>, again: Result<Event>, afterGrant: Result<Holder>,
             cleared: Result<Event>, afterClear: Result<Holder>)
    requires TwoMinted(reg)
    modifies reg
    ensures clearNone == Ok(Approval(OWNER, ZERO, FIRST))
    ensures granted == Ok(Approval(OWNER, APPROVED, FIRST)) && again == granted && afterGrant == Ok(APPROVED)
    ensures cleared == Ok(Approval(OWNER, ZERO, FIRST)) && afterClear == Ok(ZERO)
  {
    assert ApproveCheck(ForOwner, reg.Snapshot(FIRST), reg.operators, OWNER, ZERO) == None;
    clearNone := reg.ApproveLegacy(OWNER, ZERO, FIRST);
    assert ApproveCheck(ForOwner, reg.Snapshot(FIRST), reg.operators, OWNER, APPROVED) == None;
    granted := reg.ApproveLegacy(OWNER, APPROVED, FIRST);
    assert ApproveCheck(ForOwner, reg.Snapshot(FIRST), reg.operators, OWNER, APPROVED) == None;
    again := reg.ApproveLegacy(OWNER, APPROVED, FIRST);
    afterGrant := reg.Approved(ForOwner, FIRST);
    assert ApproveCheck(ForOwner, reg.Snapshot(FIRST), reg.operators, OWNER, ZERO) == None;
    cleared := reg.ApproveLegacy(OWNER, ZERO, FIRST);
    afterClear := reg.Approved(ForOwner, FIRST);
  }

  /** approve refuses the owner as a target, an unrelated caller, the approvee and a
      missing item, and lets an operator of the owner approve. */
  method LegacyApproveRejections(reg: ItemRegistry)
    returns (toOwner: Result<Event>, unrelated: Result<Event>, byApprovee: Result<Event>, byOperator: Result<Event>,
             missing: Result<Event>)
    requires TwoMinted(reg)
    modifies reg
    ensures toOwner == Err(InvalidTarget) && unrelated == Err(NotAuthorized) && byApprovee == Err(NotAuthorized)
    ensures byOperator == Ok(Approval(OWNER, APPROVED, FIRST)) && missing == Err(NotFound)
  {
    assert ApproveCheck(ForOwner, reg.Snapshot(FIRST), reg.operators, OWNER, OWNER) == Some(InvalidTarget);
    toOwner := reg.ApproveLegacy(OWNER, OWNER, FIRST);
    assert ApproveCheck(ForOwner, reg.Snapshot(FIRST), reg.operators, OTHER, APPROVED) == Some(NotAuthorized);
    unrelated := reg.ApproveLegacy(OTHER, APPROVED, FIRST);
    assert ApproveCheck(ForOwner, reg.Snapshot(FIRST), reg.operators, OWNER, APPROVED) == None;
    var granted := reg.ApproveLegacy(OWNER, APPROVED, FIRST);
    assert ApproveCheck(ForOwner, reg.Snapshot(FIRST), reg.operators, APPROVED, APPROVED2) == Some(NotAuthorized);
    byApprovee := reg.ApproveLegacy(APPROVED, APPROVED2, FIRST);
    var grant := reg.SetApprovalForAll(OWNER, OPERATOR, true);
    assert ApproveCheck(ForOwner, reg.Snapshot(FIRST), reg.operators, OPERATOR, APPROVED) == None;
    byOperator := reg.ApproveLegacy(OPERATOR, APPROVED, FIRST);
    missing := reg.ApproveLegacy(OPERATOR, APPROVED, MISSING);
  }

  // ---------------------------------------------------------------------------
  // Operators

  /** Setting, unsetting and setting again; setting twice keeps the approval; a holder
      cannot be its own operator. */
  method OperatorCases(reg: ItemRegistry)
    returns (granted: Result<Event>, afterGrant: bool, unset: Result<Event>, afterUnset: bool, again: Result<Event>,
             twice: Result<Event>, afterTwice: bool, toSelf: Result<Event>)
    requires reg.Valid() && reg.operators == {}
    modifies reg
    ensures granted == Ok(ApprovalForAll(OWNER, OPERATOR, true)) && afterGrant
    ensures unset == Ok(ApprovalForAll(OWNER, OPERATOR, false)) && !afterUnset
    ensures again == granted && twice == granted && afterTwice
    ensures toSelf == Err(InvalidTarget)
  {
    granted := reg.SetApprovalForAll(OWNER, OPERATOR, true);
    afterGrant := reg.IsApprovedForAll(OWNER, OPERATOR);
    unset := reg.SetApprovalForAll(OWNER, OPERATOR, false);
    afterUnset := reg.IsApprovedForAll(OWNER, OPERATOR);
    again := reg.SetApprovalForAll(OWNER, OPERATOR, true);
    twice := reg.SetApprovalForAll(OWNER, OPERATOR, true);
    afterTwice := reg.IsApprovedForAll(OWNER, OPERATOR);
    toSelf := reg.SetApprovalForAll(OWNER, OWNER, true);
  }

  // ---------------------------------------------------------------------------
  // Liens and tenant rights (both items held by OWNER)

  /** The account each encumbrance is granted to in the suite, and a second candidate. */
  function Claimant(enc: Encumbrance): Holder {
    match enc
    case Lien => LIEN
    case TenantRight => TENANT
  }

  function Rival(enc: Encumbrance): Holder {
    match enc
    case Lien => LIEN2
    case TenantRight => TENANT2
  }

  /** approveLien / approveTenantRight: approving sets the slot and reports the owner. */
  method EncumbranceApprovalCases(reg: ItemRegistry, enc: Encumbrance) returns (first: Result<Event>, afterFirst: Result<Holder>)
    requires TwoMinted(reg)
    modifies reg
    ensures enc == Lien ==> first == Ok(ApprovalLien(OWNER, LIEN, FIRST))
    ensures enc == TenantRight ==> first == Ok(ApprovalTenantRight(OWNER, TENANT, FIRST))
    ensures afterFirst == Ok(Claimant(enc))
  {
    assert ApproveCheck(GrantSlot(enc), reg.Snapshot(FIRST), reg.operators, OWNER, Claimant(enc)) == None;
    first := reg.Approve(GrantSlot(enc), OWNER, Claimant(enc), FIRST);
    afterFirst := reg.Approved(GrantSlot(enc), FIRST);
  }

  /** Approving the pending approvee again is allowed and reports the same approval. */
  method EncumbranceApproveSame(reg: ItemRegistry, enc: Encumbrance) returns (first: Result<Event>, same: Result<Event>)
    requires TwoMinted(reg)
    modifies reg
    ensures first.Ok? && same == first
  {
    assert ApproveCheck(GrantSlot(enc), reg.Snapshot(FIRST), reg.operators, OWNER, Claimant(enc)) == None;
    first := reg.Approve(GrantSlot(enc), OWNER, Claimant(enc), FIRST);
    assert ApproveCheck(GrantSlot(enc), reg.Snapshot(FIRST), reg.operators, OWNER, Claimant(enc)) == None;
    same := reg.Approve(GrantSlot(enc), OWNER, Claimant(enc), FIRST);
  }

  /** A pending approval can be replaced by another target, and approving zero clears it. */
  method EncumbranceReapproval(reg: ItemRegistry, enc: Encumbrance)
    returns (other: Result<Event>, afterOther: Result<Holder>, cleared: Result<Event>, afterClear: Result<Holder>)
    requires TwoMinted(reg)
    modifies reg
    ensures other.Ok? && afterOther == Ok(Rival(enc))
    ensures cleared.Ok? && afterClear == Ok(ZERO)
  {
    var slot := GrantSlot(enc);
    assert ApproveCheck(slot, reg.Snapshot(FIRST), reg.operators, OWNER, Claimant(enc)) == None;
    var first := reg.Approve(slot, OWNER, Claimant(enc), FIRST);
    assert ApproveCheck(slot, reg.Snapshot(FIRST), reg.operators, OWNER, Rival(enc)) == None;
    other := reg.Approve(slot, OWNER, Rival(enc), FIRST);
    afterOther := reg.Approved(slot, FIRST);
    assert ApproveCheck(slot, reg.Snapshot(FIRST), reg.operators, OWNER, ZERO) == None;
    cleared := reg.Approve(slot, OWNER, ZERO, FIRST);
    afterClear := reg.Approved(slot, FIRST);
  }

  /** The owner is refused as a target, an unrelated caller and a missing item are
      refused, and the owner's operator may approve. */
  method EncumbranceApprovalRejections(reg: ItemRegistry, enc: Encumbrance)
    returns (toOwner: Result<Event>, unrelated: Result<Event>, missing: Result<Event>, getMissing: Result<Holder>,
             byOperator: Result<Event>)
    requires TwoMinted(reg)
    modifies reg
    ensures toOwner == Err(InvalidTarget) && unrelated == Err(NotAuthorized)
    ensures missing == Err(NotFound) && getMissing == Err(NotFound)
    ensures byOperator.Ok?
  {
    var slot := GrantSlot(enc);
    assert ApproveCheck(slot, reg.Snapshot(FIRST), reg.operators, OWNER, OWNER) == Some(InvalidTarget);
    toOwner := reg.Approve(slot, OWNER, OWNER, FIRST);
    assert ApproveCheck(slot, reg.Snapshot(FIRST), reg.operators, OTHER, Claimant(enc)) == Some(NotAuthorized);
    unrelated := reg.Approve(slot, OTHER, Claimant(enc), FIRST);
    missing := reg.Approve(slot, OWNER, Claimant(enc), MISSING);
    getMissing := reg.Approved(slot, MISSING);
    var grant := reg.SetApprovalForAll(OWNER, OPERATOR2, true);
    assert ApproveCheck(slot, reg.Snapshot(FIRST), reg.operators, OPERATOR2, Claimant(enc)) == None;
    byOperator := reg.Approve(slot, OPERATOR2, Claimant(enc), FIRST);
  }

  /** approve, set, revoke: the approvee becomes current and its approval is cleared;
      the current holder revokes and the item is unencumbered again. */
  method EncumbranceProtocol(reg: ItemRegistry, enc: Encumbrance)
    returns (before: Result<Holder>, claim: Result<Event>, current: Result<Holder>, approved: Result<Holder>,
             revoke: Result<Event>, after: Result<Holder>)
    requires TwoMinted(reg)
    modifies reg
    ensures before == Ok(ZERO)
    ensures enc == Lien ==> claim == Ok(LienSet(LIEN, FIRST, true)) && revoke == Ok(LienSet(ZERO, FIRST, false))
    ensures enc == TenantRight ==>
              claim == Ok(TenantRightSet(TENANT, FIRST, true)) && revoke == Ok(TenantRightSet(ZERO, FIRST, false))
    ensures current == Ok(Claimant(enc)) && approved == Ok(ZERO)
    ensures after == Ok(ZERO)
  {
    before := reg.CurrentHolder(enc, FIRST);
    assert ApproveCheck(GrantSlot(enc), reg.Snapshot(FIRST), reg.operators, OWNER, Claimant(enc)) == None;
    var approval := reg.Approve(GrantSlot(enc), OWNER, Claimant(enc), FIRST);
    assert ClaimCheck(enc, reg.Snapshot(FIRST), Claimant(enc)) == None;
    claim := reg.Claim(enc, Claimant(enc), FIRST);
    current := reg.CurrentHolder(enc, FIRST);
    approved := reg.Approved(GrantSlot(enc), FIRST);
    assert RevokeCheck(enc, reg.Snapshot(FIRST), Claimant(enc)) == None;
    revoke := reg.Revoke(enc, Claimant(enc), FIRST);
    after := reg.CurrentHolder(enc, FIRST);
  }

  /** Claiming or revoking without being the approvee or the current holder fails, and so
      does naming an account's address as the item id (no item has that id). */
  method EncumbranceUnauthorized(reg: ItemRegistry, enc: Encumbrance)
    returns (claimByOther: Result<Event>, claimAddressId: Result<Event>, revokeByOther: Result<Event>,
             revokeAddressId: Result<Event>)
    requires TwoMinted(reg)
    modifies reg
    ensures claimByOther == Err(NotAuthorized) && revokeByOther == Err(NotAuthorized)
    ensures claimAddressId == Err(NotFound) && revokeAddressId == Err(NotFound)
  {
    assert ClaimCheck(enc, reg.Snapshot(FIRST), OTHER) == Some(NotAuthorized);
    claimByOther := reg.Claim(enc, OTHER, FIRST);
    assert !reg.Exists(Claimant(enc));
    claimAddressId := reg.Claim(enc, OTHER, Claimant(enc));
    assert RevokeCheck(enc, reg.Snapshot(FIRST), OTHER) == Some(NotAuthorized);
    revokeByOther := reg.Revoke(enc, OTHER, FIRST);
    revokeAddressId := reg.Revoke(enc, OTHER, Claimant(enc));
  }

  /** Claiming, revoking and reading an encumbrance of a missing item all fail. */
  method EncumbranceMissing(reg: ItemRegistry, enc: Encumbrance)
    returns (claim: Result<Event>, revoke: Result<Event>, current: Result<Holder>)
    requires TwoMinted(reg)
    modifies reg
    ensures claim == Err(NotFound) && revoke == Err(NotFound) && current == Err(NotFound)
  {
    claim := reg.Claim(enc, Claimant(enc), MISSING);
    revoke := reg.Revoke(enc, Claimant(enc), MISSING);
    current := reg.CurrentHolder(enc, MISSING);
  }

  // ---------------------------------------------------------------------------
  // The legacy single-role view

  /** Both items held by OWNER in both roles; APPROVED holds the legacy approval of FIRST
      and OPERATOR is an operator of OWNER. */
  ghost predicate LegacyBlock(reg: ItemRegistry)
    reads reg
  {
    && reg.Valid()
    && Has(reg, FIRST, OWNER, OWNER, NoSlots.(approvedForOwner := APPROVED)) && Has(reg, SECOND, OWNER, OWNER, NoSlots)
    && MISSING !in reg.ownerOf
    && reg.operators == {(OWNER, OPERATOR)}
    && ListOf(reg.itemsOfOwner, OWNER) == [FIRST, SECOND] && ListOf(reg.itemsOfOwner, OTHER) == []
    && ListOf(reg.itemsOfUser, OWNER) == [FIRST, SECOND] && ListOf(reg.itemsOfUser, OTHER) == []
  }

  method GrantLegacyBlock(reg: ItemRegistry)
    requires TwoMinted(reg)
    modifies reg
    ensures LegacyBlock(reg)
  {
    assert ApproveCheck(ForOwner, reg.Snapshot(FIRST), reg.operators, OWNER, APPROVED) == None;
    var approval := reg.ApproveLegacy(OWNER, APPROVED, FIRST);
    var grant := reg.SetApprovalForAll(OWNER, OPERATOR, true);
  }

  /** The state of the legacy transfer cases, reached from a new registry. */
  method LegacyBlockSetup() returns (reg: ItemRegistry)
    ensures fresh(reg) && LegacyBlock(reg)
  {
    reg := MintTwo();
    GrantLegacyBlock(reg);
  }

  /** transferFrom by the owner, the approvee or the operator moves the title to the
      destination and clears the legacy approval. */
  method LegacyTransferBy(reg: ItemRegistry, caller: Holder)
    returns (r: Result<Event>, ownerOfFirst: Result<Holder>, approved: Result<Holder>)
    requires LegacyBlock(reg)
    requires caller == OWNER || caller == APPROVED || caller == OPERATOR
    modifies reg
    ensures r == Ok(Transfer(OWNER, OTHER, FIRST))
    ensures ownerOfFirst == Ok(OTHER) && approved == Ok(ZERO)
  {
    assert TransferOwnerCheck(reg.Snapshot(FIRST), reg.operators, caller, OWNER, OTHER) == None;
    r := reg.TransferFrom(caller, OWNER, OTHER, FIRST);
    ownerOfFirst := reg.HolderOf(OwnerRole, FIRST);
    approved := reg.Approved(ForOwner, FIRST);
  }

  /** With no tenant right, a legacy transfer moves the user role along with the title. */
  method LegacyTransferMovesUser(reg: ItemRegistry, caller: Holder)
    returns (userOfFirst: Result<Holder>, firstOfOther: Result<ItemId>, firstOfOwner: Result<ItemId>)
    requires LegacyBlock(reg)
    requires caller == OWNER || caller == APPROVED || caller == OPERATOR
    modifies reg
    ensures userOfFirst == Ok(OTHER)
    ensures firstOfOther == Ok(FIRST)
    ensures firstOfOwner.Ok? && firstOfOwner.value != FIRST
  {
    assert TransferOwnerCheck(reg.Snapshot(FIRST), reg.operators, caller, OWNER, OTHER) == None;
    var r := reg.TransferFrom(caller, OWNER, OTHER, FIRST);
    userOfFirst := reg.HolderOf(UserRole, FIRST);
    firstOfOther := reg.ItemOfHolderByIndex(OwnerRole, OTHER, 0);
    firstOfOwner := reg.ItemOfHolderByIndex(OwnerRole, OWNER, 0);
  }

  /** After a legacy transfer the former owner holds one item in each role. */
  method LegacyTransferBalances(reg: ItemRegistry, caller: Holder) returns (balance: Result<nat>, userBalance: Result<nat>)
    requires LegacyBlock(reg)
    requires caller == OWNER || caller == APPROVED || caller == OPERATOR
    modifies reg
    ensures balance == Ok(1) && userBalance == Ok(1)
  {
    assert TransferOwnerCheck(reg.Snapshot(FIRST), reg.operators, caller, OWNER, OTHER) == None;
    var r := reg.TransferFrom(caller, OWNER, OTHER, FIRST);
    assert |ListOf(reg.itemsOfOwner, OWNER)| == 1 && |ListOf(reg.itemsOfUser, OWNER)| == 1;
    balance := reg.BalanceOf(OwnerRole, OWNER);
    userBalance := reg.BalanceOf(UserRole, OWNER);
  }

  /** LegacyBlock, with TENANT holding the tenant right of FIRST. */
  ghost predicate LegacyTenantBlock(reg: ItemRegistry)
    reads reg
  {
    && reg.Valid()
    && Has(reg, FIRST, OWNER, OWNER, NoSlots.(approvedForOwner := APPROVED, currentTenantRight := TENANT))
    && reg.operators == {(OWNER, OPERATOR)}
    && ListOf(reg.itemsOfOwner, OWNER) == [FIRST, SECOND] && ListOf(reg.itemsOfOwner, OTHER) == []
    && ListOf(reg.itemsOfUser, OWNER) == [FIRST, SECOND]
  }

  /** The owner approves TENANT for the tenant right of FIRST and TENANT claims it. */
  method GrantLegacyTenantRight(reg: ItemRegistry)
    requires LegacyBlock(reg)
    modifies reg
    ensures LegacyTenantBlock(reg)
  {
    assert ApproveCheck(ForTenantRight, reg.Snapshot(FIRST), reg.operators, OWNER, TENANT) == None;
    var approval := reg.Approve(ForTenantRight, OWNER, TENANT, FIRST);
    assert ClaimCheck(TenantRight, reg.Snapshot(FIRST), TENANT) == None;
    var claim := reg.Claim(TenantRight, TENANT, FIRST);
  }

  /** With an active tenant right, transferFrom still moves the title but leaves the user
      role, and the former owner's user balance, where they were. */
  method LegacyTransferUnderTenantRight(reg: ItemRegistry)
    returns (r: Result<Event>, ownerOfFirst: Result<Holder>, balance: Result<nat>, userOfFirst: Result<Holder>,
             userBalance: Result<nat>)
    requires LegacyTenantBlock(reg)
    modifies reg
    ensures r == Ok(Transfer(OWNER, OTHER, FIRST))
    ensures ownerOfFirst == Ok(OTHER) && balance == Ok(1)
    ensures userOfFirst == Ok(OWNER) && userBalance == Ok(2)
  {
    assert TransferOwnerCheck(reg.Snapshot(FIRST), reg.operators, OWNER, OWNER, OTHER) == None;
    r := reg.TransferFrom(OWNER, OWNER, OTHER, FIRST);
    ownerOfFirst := reg.HolderOf(OwnerRole, FIRST);
    assert |ListOf(reg.itemsOfOwner, OWNER)| == 1;
    balance := reg.BalanceOf(OwnerRole, OWNER);
    userOfFirst := reg.HolderOf(UserRole, FIRST);
    assert |ListOf(reg.itemsOfUser, OWNER)| == 2;
    userBalance := reg.BalanceOf(UserRole, OWNER);
  }

  /** A legacy transfer to the current owner keeps the owner and the balance and clears
      the approval. */
  method LegacySelfTransfer(reg: ItemRegistry)
    returns (r: Result<Event>, ownerOfFirst: Result<Holder>, approved: Result<Holder>, balance: Result<nat>,
             at0: Result<ItemId>, at1: Result<ItemId>)
    requires LegacyBlock(reg)
    modifies reg
    ensures r == Ok(Transfer(OWNER, OWNER, FIRST))
    ensures ownerOfFirst == Ok(OWNER) && approved == Ok(ZERO) && balance == Ok(2)
    ensures at0 == Ok(FIRST) && at1 == Ok(SECOND)
  {
    assert TransferOwnerCheck(reg.Snapshot(FIRST), reg.operators, OWNER, OWNER, OWNER) == None;
    r := reg.TransferFrom(OWNER, OWNER, OWNER, FIRST);
    ownerOfFirst := reg.HolderOf(OwnerRole, FIRST);
    approved := reg.Approved(ForOwner, FIRST);
    assert |ListOf(reg.itemsOfOwner, OWNER)| == 2;
    balance := reg.BalanceOf(OwnerRole, OWNER);
    at0 := reg.ItemOfHolderByIndex(OwnerRole, OWNER, 0);
    at1 := reg.ItemOfHolderByIndex(OwnerRole, OWNER, 1);
  }

  /** A wrong source, an unrelated caller, a missing item and the zero destination all revert. */
  method LegacyTransferFailures(reg: ItemRegistry)
    returns (wrongFrom: Result<Event>, unrelated: Result<Event>, missing: Result<Event>, toZero: Result<Event>)
    requires LegacyBlock(reg)
    modifies reg
    ensures wrongFrom == Err(InvalidFrom) && unrelated == Err(NotAuthorized)
    ensures missing == Err(NotFound) && toZero == Err(InvalidTarget)
  {
    wrongFrom := reg.TransferFrom(OWNER, OTHER, OTHER, FIRST);
    assert TransferOwnerCheck(reg.Snapshot(FIRST), reg.operators, OTHER, OWNER, OTHER) == Some(NotAuthorized);
    unrelated := reg.TransferFrom(OTHER, OWNER, OTHER, FIRST);
    missing := reg.TransferFrom(OWNER, OWNER, OTHER, MISSING);
    toZero := reg.TransferFrom(OWNER, OWNER, ZERO, FIRST);
  }

  /** safeTransferFrom wants the ERC-721 acknowledgment: the dual-role one is rejected. */
  method LegacySafeTransfer(reg: ItemRegistry)
    returns (wrongMagic: Result<Event>, accepted: Result<Event>, ownerOfFirst: Result<Holder>)
    requires LegacyBlock(reg)
    modifies reg
    ensures wrongMagic == Err(TransferRejected)
    ensures accepted == Ok(Transfer(OWNER, OTHER, FIRST)) && ownerOfFirst == Ok(OTHER)
  {
    assert TransferOwnerCheck(reg.Snapshot(FIRST), reg.operators, OWNER, OWNER, OTHER) == None;
    wrongMagic := reg.SafeTransferFrom(OWNER, OWNER, OTHER, FIRST, Returned(ERCX_RECEIVED));
    accepted := reg.SafeTransferFrom(OWNER, OWNER, OTHER, FIRST, Returned(ERC721_RECEIVED));
    ownerOfFirst := reg.HolderOf(OwnerRole, FIRST);
  }

  // ---------------------------------------------------------------------------
  // Burning and the global enumeration (both items held by OWNER)

  /** burn removes the item: its owner lookup fails, the owner's balance drops and the
      item no longer exists; burning a missing item fails. */
  method BurnCases(reg: ItemRegistry)
    returns (missing: Result<Event>, r: Result<Event>, ownerOfFirst: Result<Holder>, balance: Result<nat>,
             present: bool, total: nat)
    requires TwoMinted(reg)
    modifies reg
    ensures missing == Err(NotFound)
    ensures r == Ok(TransferOwner(OWNER, ZERO, FIRST))
    ensures ownerOfFirst == Err(NotFound) && balance == Ok(1) && !present && total == 1
  {
    missing := reg.Burn(CREATOR, MISSING);
    assert BurnCheck(reg.Snapshot(FIRST), reg.operators, OWNER) == None;
    r := reg.Burn(OWNER, FIRST);
    ownerOfFirst := reg.HolderOf(OwnerRole, FIRST);
    assert |ListOf(reg.itemsOfOwner, OWNER)| == 1;
    balance := reg.BalanceOf(OwnerRole, OWNER);
    present := reg.Exists(FIRST);
    total := reg.TotalNumberOfItems();
  }

  /** Only `survivor` remains, and neither THIRD nor FOURTH exists. */
  ghost predicate OneSurvives(reg: ItemRegistry, survivor: ItemId)
    reads reg
  {
    && reg.Valid()
    && reg.allItems == [survivor]
    && THIRD !in reg.ownerOf && FOURTH !in reg.ownerOf
  }

  /** Burning one of two items leaves the other as the only entry of the global enumeration. */
  method BurnOne(reg: ItemRegistry, burnt: ItemId, survivor: ItemId)
    requires TwoMinted(reg) && {burnt, survivor} == {FIRST, SECOND}
    modifies reg
    ensures OneSurvives(reg, survivor)
  {
    assert BurnCheck(reg.Snapshot(burnt), reg.operators, OWNER) == None;
    var r := reg.Burn(OWNER, burnt);
    assert reg.allItems[0] in Members(reg.allItems);
  }

  /** The survivor and THIRD, in that order, are the only items, and FOURTH does not exist. */
  ghost predicate SurvivorAndThird(reg: ItemRegistry, survivor: ItemId)
    reads reg
  {
    && reg.Valid()
    && reg.allItems == [survivor, THIRD]
    && FOURTH !in reg.ownerOf
  }

  method MintThird(reg: ItemRegistry, survivor: ItemId)
    requires OneSurvives(reg, survivor)
    modifies reg
    ensures SurvivorAndThird(reg, survivor)
  {
    var third := reg.Mint(NEW_OWNER, THIRD);
    assert third.Ok?;
  }

  /** After burning one item and minting THIRD and FOURTH to NEW_OWNER there are three
      items: the survivor followed by the new ones. */
  method MintAfterBurn(reg: ItemRegistry, survivor: ItemId)
    returns (total: nat, at0: Result<ItemId>, at1: Result<ItemId>, at2: Result<ItemId>, pastEnd: Result<ItemId>)
    requires SurvivorAndThird(reg, survivor)
    modifies reg
    ensures total == 3
    ensures at0 == Ok(survivor) && at1 == Ok(THIRD) && at2 == Ok(FOURTH)
    ensures pastEnd == Err(OutOfRange)
  {
    var fourth := reg.Mint(NEW_OWNER, FOURTH);
    assert fourth.Ok?;
    total := reg.TotalNumberOfItems();
    at0 := reg.ItemByIndex(0);
    at1 := reg.ItemByIndex(1);
    at2 := reg.ItemByIndex(2);
    pastEnd := reg.ItemByIndex(3);
  }

  // ---------------------------------------------------------------------------
  // Item URIs (both items held by OWNER)

  /** The URI is empty by default, fails for a missing item, and reads back what was set;
      a missing item takes no URI. */
  method ItemUriCases(reg: ItemRegistry)
    returns (empty: Result<string>, missing: Result<string>, setFirst: Result<()>, afterSet: Result<string>,
             setMissing: Result<()>)
    requires TwoMinted(reg)
    modifies reg
    ensures empty == Ok([]) && missing == Err(NotFound)
    ensures setFirst == Ok(()) && afterSet == Ok(ITEM_URI)
    ensures setMissing == Err(NotFound)
  {
    empty := reg.ItemUri(FIRST);
    missing := reg.ItemUri(MISSING);
    setFirst := reg.SetItemUri(FIRST, ITEM_URI);
    afterSet := reg.ItemUri(FIRST);
    setMissing := reg.SetItemUri(MISSING, ITEM_URI);
  }

  const ITEM_URI: string := "mock://myitem"
  const BASE_V1: string := "https://api.com/v1/"
  const BASE_V2: string := "https://api.com/v2/"

  /** The base URI prefixes every non-empty item URI, follows later changes of the base,
      and leaves an item without its own URI empty. */
  method BaseUriCases(reg: ItemRegistry)
    returns (base: string, noOwnUri: Result<string>, composed: Result<string>, rebased: Result<string>)
    requires TwoMinted(reg)
    modifies reg
    ensures base == BASE_V1 && noOwnUri == Ok([])
    ensures composed == Ok(BASE_V1 + ITEM_URI)
    ensures rebased == Ok(BASE_V2 + ITEM_URI)
  {
    reg.SetBaseUri(BASE_V1);
    base := reg.baseUri;
    noOwnUri := reg.ItemUri(FIRST);
    var stored := reg.SetItemUri(FIRST, ITEM_URI);
    composed := reg.ItemUri(FIRST);
    reg.SetBaseUri(BASE_V2);
    rebased := reg.ItemUri(FIRST);
  }

  /** An item with a URI can be burnt; afterwards it does not exist and its URI query fails. */
  method BurnWithUri(reg: ItemRegistry) returns (r: Result<Event>, present: bool, uri: Result<string>)
    requires TwoMinted(reg)
    modifies reg
    ensures r.Ok? && !present && uri == Err(NotFound)
  {
    var stored := reg.SetItemUri(FIRST, ITEM_URI);
    assert BurnCheck(reg.Snapshot(FIRST), reg.operators, OWNER) == None;
    r := reg.Burn(OWNER, FIRST);
    present := reg.Exists(FIRST);
    uri := reg.ItemUri(FIRST);
  }

  /** mintWithItemURI mints and records the item's own URI. */
  method MintWithUri(reg: ItemRegistry) returns (r: Result<Event>, ownerOfThird: Result<Holder>, uri: Result<string>)
    requires TwoMinted(reg)
    modifies reg
    ensures r == Ok(TransferOwner(ZERO, NEW_OWNER, THIRD)) && ownerOfThird == Ok(NEW_OWNER)
    ensures uri == Ok("MOCKURI")
  {
    r := reg.MintWithItemUri(NEW_OWNER, THIRD, "MOCKURI");
    ownerOfThird := reg.HolderOf(OwnerRole, THIRD);
    uri := reg.ItemUri(THIRD);
  }
}
