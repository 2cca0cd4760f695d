/**
  The approval subsystem and the encumbrance state machine as pure rules:
  who may move the user role, who may move the owner role, who may fill each
  approval slot, who may claim or revoke a lien or a tenant right, and what
  each successful call does to the per-item slots.
 */
module Authorization {
  import opened Types

  /** The per-item approval slots and encumbrances; ZERO means "none". */
  datatype ItemSlots = ItemSlots(
    approvedForUser: Holder,
    approvedForOwner: Holder,
    approvedLien: Holder,
    approvedTenantRight: Holder,
    currentLien: Holder,
    currentTenantRight: Holder)

  /** The slots of a freshly minted item. */
  const NoSlots := ItemSlots(ZERO, ZERO, ZERO, ZERO, ZERO, ZERO)

  /** Everything that decides who may act on one existing item. */
  datatype Rights = Rights(owner: Holder, user: Holder, slots: ItemSlots)

  /** Blanket operator approvals, as (holder, operator) pairs. */
  type Operators = set<(Holder, Holder)>

  /** The four single-target approval slots. */
  datatype ApprovalSlot = ForUser | ForOwner | ForLien | ForTenantRight

  /** The two encumbrances, each claimed by the target of its approval slot. */
  datatype Encumbrance = Lien | TenantRight

  // ---------------------------------------------------------------------------
  // Authorization predicates

  /** The caller is the holder itself or one of its operators. */
  predicate ActsFor(ops: Operators, caller: Holder, holder: Holder) {
    caller == holder || (holder, caller) in ops
  }

  /** The caller is the (non-zero) holder recorded in a slot. */
  predicate Designated(slot: Holder, caller: Holder) {
    slot != ZERO && caller == slot
  }

  predicate TenantRightActive(r: Rights) {
    r.slots.currentTenantRight != ZERO
  }

  /** Who may move the user role: the user side, the user-transfer approvee and the
      active lien holder always; the owner side only while no tenant right is active. */
  predicate MayTransferUser(ops: Operators, caller: Holder, r: Rights) {
    || ActsFor(ops, caller, r.user)
    || Designated(r.slots.approvedForUser, caller)
    || Designated(r.slots.currentLien, caller)
    || (ActsFor(ops, caller, r.owner) && !TenantRightActive(r))
  }

  /** Who may move the owner role (and burn the item). */
  predicate MayTransferOwner(ops: Operators, caller: Holder, r: Rights) {
    || ActsFor(ops, caller, r.owner)
    || Designated(r.slots.approvedForOwner, caller)
    || Designated(r.slots.currentLien, caller)
  }

  /** Who may fill an approval slot. */
  predicate MayApprove(slot: ApprovalSlot, ops: Operators, caller: Holder, r: Rights) {
    if slot == ForUser then
      ActsFor(ops, caller, r.user) || (ActsFor(ops, caller, r.owner) && !TenantRightActive(r))
    else
      ActsFor(ops, caller, r.owner)
  }

  /** A target a slot refuses: never the owner; for the user-transfer slot, not the user either. */
  predicate ForbiddenTarget(slot: ApprovalSlot, r: Rights, target: Holder) {
    target == r.owner || (slot == ForUser && target == r.user)
  }

  // ---------------------------------------------------------------------------
  // Slot access and updates

  function Approvee(s: ItemSlots, slot: ApprovalSlot): Holder {
    match slot
    case ForUser => s.approvedForUser
    case ForOwner => s.approvedForOwner
    case ForLien => s.approvedLien
    case ForTenantRight => s.approvedTenantRight
  }

  function WithApprovee(s: ItemSlots, slot: ApprovalSlot, target: Holder): (s': ItemSlots)
    ensures Approvee(s', slot) == target
    ensures forall other :: other != slot ==> Approvee(s', other) == Approvee(s, other)
    ensures s'.currentLien == s.currentLien && s'.currentTenantRight == s.currentTenantRight
  {
    match slot
    case ForUser => s.(approvedForUser := target)
    case ForOwner => s.(approvedForOwner := target)
    case ForLien => s.(approvedLien := target)
    case ForTenantRight => s.(approvedTenantRight := target)
  }

  /** The approval slot whose target may claim an encumbrance. */
  function GrantSlot(enc: Encumbrance): ApprovalSlot {
    match enc
    case Lien => ForLien
    case TenantRight => ForTenantRight
  }

  function Current(s: ItemSlots, enc: Encumbrance): Holder {
    match enc
    case Lien => s.currentLien
    case TenantRight => s.currentTenantRight
  }

  /** A user-role transfer clears the user-transfer approval. */
  function AfterUserTransfer(s: ItemSlots): (s': ItemSlots)
    ensures Approvee(s', ForUser) == ZERO
    ensures forall slot :: slot != ForUser ==> Approvee(s', slot) == Approvee(s, slot)
    ensures Current(s', Lien) == Current(s, Lien) && Current(s', TenantRight) == Current(s, TenantRight)
  {
    s.(approvedForUser := ZERO)
  }

  /** An owner-role transfer clears the owner-transfer, lien and tenant-right approvals;
      an active lien or tenant right stays attached to the item. */
  function AfterOwnerTransfer(s: ItemSlots): (s': ItemSlots)
    ensures Approvee(s', ForOwner) == ZERO && Approvee(s', ForLien) == ZERO && Approvee(s', ForTenantRight) == ZERO
    ensures Approvee(s', ForUser) == Approvee(s, ForUser)
    ensures Current(s', Lien) == Current(s, Lien) && Current(s', TenantRight) == Current(s, TenantRight)
  {
    s.(approvedForOwner := ZERO, approvedLien := ZERO, approvedTenantRight := ZERO)
  }

  /** Claiming an encumbrance makes the claimant current and empties its approval slot;
      claiming a tenant right also clears the user-transfer approval. */
  function AfterClaim(s: ItemSlots, enc: Encumbrance, claimant: Holder): (s': ItemSlots)
    ensures Current(s', enc) == claimant && Approvee(s', GrantSlot(enc)) == ZERO
    ensures enc == TenantRight ==> Approvee(s', ForUser) == ZERO
    ensures forall slot :: slot != GrantSlot(enc) && (enc == Lien || slot != ForUser) ==> Approvee(s', slot) == Approvee(s, slot)
    ensures forall other :: other != enc ==> Current(s', other) == Current(s, other)
  {
    match enc
    case Lien => s.(currentLien := claimant, approvedLien := ZERO)
    case TenantRight => s.(currentTenantRight := claimant, approvedTenantRight := ZERO, approvedForUser := ZERO)
  }

  /** Revoking an encumbrance empties its current holder and nothing else. */
  function AfterRevoke(s: ItemSlots, enc: Encumbrance): (s': ItemSlots)
    ensures Current(s', enc) == ZERO
    ensures forall slot :: Approvee(s', slot) == Approvee(s, slot)
  {
    match enc
    case Lien => s.(currentLien := ZERO)
    case TenantRight => s.(currentTenantRight := ZERO)
  }

  /** The approval event of a slot; the user-transfer event names the user, the others the owner. */
  function ApprovalEvent(slot: ApprovalSlot, r: Rights, target: Holder, item: ItemId): Event {
    match slot
    case ForUser => ApprovalForUser(r.user, target, item)
    case ForOwner => ApprovalForOwner(r.owner, target, item)
    case ForLien => ApprovalLien(r.owner, target, item)
    case ForTenantRight => ApprovalTenantRight(r.owner, target, item)
  }

  /** The event of claiming (status true) or revoking (status false) an encumbrance. */
  function EncumbranceEvent(enc: Encumbrance, to: Holder, item: ItemId, status: bool): Event {
    match enc
    case Lien => LienSet(to, item, status)
    case TenantRight => TenantRightSet(to, item, status)
  }

  /** No slot names the holder it would act against: the user-transfer approvee is never
      the user, and the owner-side approvees are never the owner. */
  predicate NoSelfApproval(r: Rights) {
    && r.slots.approvedForUser != r.user
    && r.slots.approvedForOwner != r.owner
    && r.slots.approvedLien != r.owner
    && r.slots.approvedTenantRight != r.owner
  }

  // ---------------------------------------------------------------------------
  // Checks: the reason a call reverts, or None when it goes through.
  // `r` is None when the item does not exist.

  function TransferUserCheck(r: Option<Rights>, ops: Operators, caller: Holder, from: Holder, to: Holder): (e: Option<Error>)
    ensures e.None? <==> r.Some? && from == r.value.user && to != ZERO && MayTransferUser(ops, caller, r.value)
    ensures e == Some(Encumbered) ==> r.Some? && TenantRightActive(r.value) && ActsFor(ops, caller, r.value.owner)
  {
    match r
    case None => Some(NotFound)
    case Some(rt) =>
      if from != rt.user then Some(InvalidFrom)
      else if to == ZERO then Some(InvalidTarget)
      else if MayTransferUser(ops, caller, rt) then None
      else if ActsFor(ops, caller, rt.owner) then Some(Encumbered)
      else Some(NotAuthorized)
  }

  /** Also the check of the title-only transfer. */
  function TransferOwnerCheck(r: Option<Rights>, ops: Operators, caller: Holder, from: Holder, to: Holder): (e: Option<Error>)
    ensures e.None? <==> r.Some? && from == r.value.owner && to != ZERO && MayTransferOwner(ops, caller, r.value)
  {
    match r
    case None => Some(NotFound)
    case Some(rt) =>
      if from != rt.owner then Some(InvalidFrom)
      else if to == ZERO then Some(InvalidTarget)
      else if MayTransferOwner(ops, caller, rt) then None
      else Some(NotAuthorized)
  }

  function BurnCheck(r: Option<Rights>, ops: Operators, caller: Holder): (e: Option<Error>)
    ensures e.None? <==> r.Some? && MayTransferOwner(ops, caller, r.value)
  {
    match r
    case None => Some(NotFound)
    case Some(rt) => if MayTransferOwner(ops, caller, rt) then None else Some(NotAuthorized)
  }

  function ApproveCheck(slot: ApprovalSlot, r: Option<Rights>, ops: Operators, caller: Holder, target: Holder): (e: Option<Error>)
    ensures e.None? <==> r.Some? && !ForbiddenTarget(slot, r.value, target) && MayApprove(slot, ops, caller, r.value)
    ensures e == Some(Encumbered) ==> r.Some? && slot == ForUser && TenantRightActive(r.value)
  {
    match r
    case None => Some(NotFound)
    case Some(rt) =>
      if ForbiddenTarget(slot, rt, target) then Some(InvalidTarget)
      else if MayApprove(slot, ops, caller, rt) then None
      else if slot == ForUser && ActsFor(ops, caller, rt.owner) then Some(Encumbered)
      else Some(NotAuthorized)
  }

  /** Only the current approvee of the encumbrance's slot may claim it. */
  function ClaimCheck(enc: Encumbrance, r: Option<Rights>, caller: Holder): (e: Option<Error>)
    ensures e.None? <==> r.Some? && Designated(Approvee(r.value.slots, GrantSlot(enc)), caller)
  {
    match r
    case None => Some(NotFound)
    case Some(rt) => if Designated(Approvee(rt.slots, GrantSlot(enc)), caller) then None else Some(NotAuthorized)
  }

  /** Only the current holder of the encumbrance may revoke it. */
  function RevokeCheck(enc: Encumbrance, r: Option<Rights>, caller: Holder): (e: Option<Error>)
    ensures e.None? <==> r.Some? && Designated(Current(r.value.slots, enc), caller)
  {
    match r
    case None => Some(NotFound)
    case Some(rt) => if Designated(Current(rt.slots, enc), caller) then None else Some(NotAuthorized)
  }

  function SetApprovalForAllCheck(caller: Holder, operator: Holder): (e: Option<Error>)
    ensures e.None? <==> caller != operator
  {
    if operator == caller then Some(InvalidTarget) else None
  }

  // ---------------------------------------------------------------------------
  // The rules, stated as the lists of callers the suite exercises

  /** With no tenant right active, the user role of an item moves for exactly six kinds
      of caller: the user, the owner, the user-transfer approvee, an operator of the
      user, an operator of the owner and the active lien holder. */
  lemma UserTransferCallers(r: Rights, ops: Operators, caller: Holder, to: Holder)
    requires to != ZERO && !TenantRightActive(r)
    ensures TransferUserCheck(Some(r), ops, caller, r.user, to) == None <==>
              || caller == r.user || caller == r.owner
              || (r.slots.approvedForUser != ZERO && caller == r.slots.approvedForUser)
              || (r.user, caller) in ops || (r.owner, caller) in ops
              || (r.slots.currentLien != ZERO && caller == r.slots.currentLien)
  {
  }

  /** While a tenant right is active the owner and the owner's operators lose their
      authority over the user role, both to move it and to approve a mover; everyone
      else keeps theirs, and the title itself still moves as before. */
  lemma TenantRightCallers(r: Rights, ops: Operators, caller: Holder, to: Holder, target: Holder)
    requires to != ZERO && TenantRightActive(r)
    requires target != r.owner && target != r.user
    ensures TransferUserCheck(Some(r), ops, caller, r.user, to) == None <==>
              || caller == r.user || (r.user, caller) in ops
              || (r.slots.approvedForUser != ZERO && caller == r.slots.approvedForUser)
              || (r.slots.currentLien != ZERO && caller == r.slots.currentLien)
    ensures ApproveCheck(ForUser, Some(r), ops, caller, target) == None <==> caller == r.user || (r.user, caller) in ops
    ensures (caller == r.owner || (r.owner, caller) in ops) && caller != r.user && (r.user, caller) !in ops ==>
              && ApproveCheck(ForUser, Some(r), ops, caller, target) == Some(Encumbered)
              && TransferOwnerCheck(Some(r), ops, caller, r.owner, to) == None
    ensures (caller == r.owner || (r.owner, caller) in ops) && caller != r.user && (r.user, caller) !in ops
            && caller != r.slots.approvedForUser && caller != r.slots.currentLien ==>
              TransferUserCheck(Some(r), ops, caller, r.user, to) == Some(Encumbered)
  {
  }

  /** The owner role moves for exactly four kinds of caller: the owner, the owner-transfer
      approvee, an operator of the owner and the active lien holder. */
  lemma OwnerTransferCallers(r: Rights, ops: Operators, caller: Holder, to: Holder)
    requires to != ZERO
    ensures TransferOwnerCheck(Some(r), ops, caller, r.owner, to) == None <==>
              || caller == r.owner || (r.owner, caller) in ops
              || (r.slots.approvedForOwner != ZERO && caller == r.slots.approvedForOwner)
              || (r.slots.currentLien != ZERO && caller == r.slots.currentLien)
  {
  }

  /** An approval slot is filled by the holder it serves or that holder's operator (for
      the user-transfer slot also the owner side, unless a tenant right is active); an
      approvee of the slot cannot pass its approval on. */
  lemma ApproveCallers(slot: ApprovalSlot, r: Rights, ops: Operators, caller: Holder, target: Holder)
    requires !ForbiddenTarget(slot, r, target)
    ensures ApproveCheck(slot, Some(r), ops, caller, target) == None <==>
              || (slot == ForUser && (caller == r.user || (r.user, caller) in ops))
              || ((slot != ForUser || !TenantRightActive(r)) && (caller == r.owner || (r.owner, caller) in ops))
    ensures caller == Approvee(r.slots, slot) && caller != r.owner && caller != r.user
            && (r.owner, caller) !in ops && (r.user, caller) !in ops ==>
              ApproveCheck(slot, Some(r), ops, caller, target) == Some(NotAuthorized)
  {
  }

  /** approve, set, revoke: the approvee's claim goes through, uses the approval up (a
      second claim by the same account fails), makes it the one account able to revoke,
      and revoking leaves the item unencumbered. */
  lemma ClaimThenRevoke(r: Rights, enc: Encumbrance, claimant: Holder)
    requires ClaimCheck(enc, Some(r), claimant) == None
    ensures var claimed := r.(slots := AfterClaim(r.slots, enc, claimant));
              && ClaimCheck(enc, Some(claimed), claimant) == Some(NotAuthorized)
              && RevokeCheck(enc, Some(claimed), claimant) == None
              && (forall other :: other != claimant ==> RevokeCheck(enc, Some(claimed), other) == Some(NotAuthorized))
              && Current(AfterRevoke(claimed.slots, enc), enc) == ZERO
  {
  }
}
