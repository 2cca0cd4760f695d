# Dual-role item registry (ERC-X), modelled in Dafny

This project models the behaviour of the ERC-X dual-role item registry, a non-fungible
token contract in which every existing item has two roles. The *owner* holds the title
and the *user* holds the right to use the item. The model is built from the assertions
of the repository's test suite `test/ERCX.test.js`. The Solidity contract that suite
drives (`contracts/ERCX/Mock/ERCXFullmock.sol`) is not part of this model, so every rule
below is the one the suite's assertions pin down.

The registry keeps:
- the holder of each role of every item;
- four per-item approval slots: user transfer, owner transfer, lien and tenant right;
- the current lien holder and the current tenant-right holder of every item;
- blanket operators set with `setApprovalForAll`;
- for each role, one enumeration per holder, and one global enumeration of existing
  items;
- item URIs and a base URI.

Layout:
- `types.dfy` (module `Types`): addresses and item ids, the revert reasons, results and
  events.
- `enumeration.dfy` (module `Enumeration`): the swap-and-pop lists with a reverse
  position map, their invariants, and the lemmas showing that append, remove and move
  keep the lists exact.
- `authorization.dfy` (module `Authorization`): the per-item slots as a record, the
  who-may predicates, one check per operation, and the slot update each successful
  operation performs.
- `receiver.dfy` (module `Receiver`): the reply of the destination of a safe transfer,
  and the two magic values.
- `metadata.dfy` (module `Metadata`): the item-URI rule.
- `consistency.dfy` (module `Consistency`): the representation invariant of the
  registry, with one preservation lemma per kind of state change.
- `registry.dfy` (module `Registry`): the class `ItemRegistry`, whose methods take the
  calling account explicitly. Every method runs its check first. On failure it returns
  the reason and leaves the object unchanged; otherwise it applies the update. Every
  method keeps `Valid()`.
- `scenarios.dfy` (module `Scenarios`): the suite's `beforeEach` setups and test
  contexts, replayed on a fresh registry. Each method returns what the test observes and
  its `ensures` states the values the test expects.

Decisions where the suite is silent or ambiguous:
- The ERC-721 `approve` and `getApproved` use the owner-transfer slot
  (`approvedForOwner`), the same slot as `approveForOwner`.
- The ERC-721 `transferFrom` and `safeTransferFrom` are authorised like an owner
  transfer. They always move the title. They also move the user role, unless a tenant
  right is active, in which case the user stays in place.
- An active tenant right takes away the authority of the owner and the owner's operators
  over the user role, both to move it and to fill the user-transfer slot; such a caller
  gets `Encumbered`. The user, the user's operators, the user-transfer approvee and the
  lien holder keep their authority.
- Re-approving an encumbrance slot overwrites it. Claiming a lien or tenant right while
  one is active replaces the current holder. An owner transfer clears the owner-side
  approval slots (owner transfer, lien, tenant right) but not an active lien or tenant
  right.
- Burning is authorised like an owner transfer. `mint`, `setItemURI` and `setBaseURI`
  have no caller check, because the suite calls them from accounts that hold no role.
- A self-transfer succeeds. It clears that role's approval and leaves the enumerations
  exactly as they were.
- The user block starts by handing the user role of both items to `USER`
  (:157-169). The "to the zero address" case (:473-484) passes the owner as `from`. The
  owner does not hold the user role, so the model reverts with `InvalidFrom` before it
  looks at the zero destination.
- In the owner block the `user` account holds no role (:650-656). The tests at :864-882
  therefore only show that callers with no authority are rejected, which is what
  `OwnerTransferUnauthorized` states.
- The negative lien and tenant-right tests pass an address where an item id is expected
  (:1865, :1921, :2189, :2248). In the model that id does not exist, so those calls fail
  with `NotFound`. `EncumbranceUnauthorized` states both that outcome and the
  `NotAuthorized` outcome a genuine unauthorised caller gets.
- The `approveForUser` test "operator of the owner but tenant right has been set"
  (:1291-1308) calls from `operator2`, but the setup of that block (:1099-1106) grants no
  operators, so as written the call fails because `operator2` has no authority at all.
  The model follows the test's title rather than its setup: `ApproveForUserUnderTenantRight`
  runs on the user-block state with a claimed tenant right (`UserBlockTenant`), where
  `OPERATOR2` is the owner's operator, and states that the call fails with `Encumbered`.
  The operator tests at :1310-1333 grant the operators themselves (:1312, :1324), and
  `ApproveForUserByOperators` does the same.

## Model

| member | source | states |
|---|---|---|
| Registry.ItemRegistry.constructor | test/ERCX.test.js:55-57 | A new registry is consistent, and has no items, operators, enumerated items or URIs. |
| Registry.ItemRegistry.ListedItemsExist | test/ERCX.test.js:3007-3027 | Every item in a holder's enumeration for a role exists, has its slots, and is held by that holder in that role. |
| Registry.ItemRegistry.HolderOf | test/ERCX.test.js:113-149 | ownerOf/userOf succeed exactly for existing items and fail with NotFound otherwise. The holder is never zero, is the holder recorded for that role, and lists the item in its enumeration. |
| Registry.ItemRegistry.BalanceOf | test/ERCX.test.js:73-111 | A balance query fails exactly for the zero address. Otherwise it is the number of items the role assigns to the holder, which equals the length of the holder's enumeration. |
| Registry.ItemRegistry.ItemOfHolderByIndex | test/ERCX.test.js:3007-3027 | Index i succeeds exactly when i is below the holder's balance, and otherwise fails with OutOfRange. The item returned is held by that holder and sits at position i of its enumeration. |
| Registry.ItemRegistry.TotalNumberOfItems | test/ERCX.test.js:3001-3005 | The total equals the number of existing items and the length of the global enumeration. |
| Registry.ItemRegistry.ItemByIndex | test/ERCX.test.js:3029-3069 | Index i succeeds exactly when i is below the number of existing items, and otherwise fails with OutOfRange. The item returned exists and is entry i of the global enumeration. |
| Registry.ItemRegistry.Exists | test/ERCX.test.js:2989-2995 | An item exists exactly when the global enumeration lists it. |
| Registry.ItemRegistry.Approved | test/ERCX.test.js:1548-1576 | A getApproved* query succeeds exactly for existing items and returns that slot's approvee. The user-transfer approvee is never the user; the other approvees are never the owner. |
| Registry.ItemRegistry.CurrentHolder | test/ERCX.test.js:1955-1986 | getCurrentLien/getCurrentTenantRight succeed exactly for existing items and return the current holder, which is zero when none is active. |
| Registry.ItemRegistry.IsApprovedForAll | test/ERCX.test.js:1578-1676 | Holds exactly for a recorded (holder, operator) pair, and never for a holder and itself. |
| Registry.ItemRegistry.ItemUri | test/ERCX.test.js:2934-2998 | itemURI fails with NotFound for a missing item. An item without a URI of its own, or whose own URI is the empty string, reports the empty string; one with a non-empty URI reports the base URI followed by it. |
| Registry.ItemRegistry.Mint | test/ERCX.test.js:3071-3116 | A zero recipient gives InvalidTarget and an existing id gives AlreadyExists, both with no change. Otherwise the recipient becomes owner and user with empty slots, the item is appended to both of its lists and to the global list, other holders' lists stay as they were, and a TransferOwner event from zero is reported. |
| Registry.ItemRegistry.MintWithItemUri | test/ERCX.test.js:3118-3125 | Same results as Mint. On success the same roles, empty slots, list appends, frame on other holders' lists and global append as Mint, and the item's URI is recorded. |
| Registry.ItemRegistry.Burn | test/ERCX.test.js:3127-3157 | Fails exactly when the burn check fails, with no change. On success the item's roles, slots and URI are gone; the old owner's and old user's lists lose exactly that item (one entry shorter); every other holder's lists are unchanged; it leaves the global list, which shrinks by one; and a TransferOwner event to zero is reported. |
| Registry.ItemRegistry.Remove | test/ERCX.test.js:3127-3157 | Removing an existing item keeps the registry consistent, drops its roles, slots and URI, removes exactly that item from its holders' lists and the global list (each one shorter), and leaves every other holder's lists unchanged. |
| Registry.ItemRegistry.SetItemUri | test/ERCX.test.js:2949-2958 | Only an existing item takes a URI; a missing one gives NotFound with no change. |
| Registry.ItemRegistry.SetBaseUri | test/ERCX.test.js:2960-2985 | The base URI becomes the given string. |
| Registry.ItemRegistry.SafeTransferUser | test/ERCX.test.js:155-645 | The result is the user-transfer check's error, then the receiver's, else a TransferUser event. On failure nothing changes. On success the user is the destination, the user-transfer approval is cleared, the source's list shrinks by one and the destination's gains the item (or both stay as they were for a self-transfer), and no other holder's list changes. |
| Registry.ItemRegistry.SafeTransferOwner | test/ERCX.test.js:647-1090 | The same for the owner role: the owner-transfer, lien and tenant-right approvals are cleared and the owner lists are adjusted the same way. |
| Registry.ItemRegistry.TransferFrom | test/ERCX.test.js:2359-2606 | Fails exactly when the owner-transfer check fails, with no change. On success the title moves, the owner-side approvals are cleared, and the owner lists are adjusted (unchanged for a self-transfer). With no tenant right the user moves too, its approval is cleared and the user lists are adjusted; with an active tenant right the user and the user lists stay unchanged. Lists of holders not involved are unchanged. |
| Registry.ItemRegistry.SafeTransferFrom | test/ERCX.test.js:2607-2745 | transferFrom, but first the destination must reply with the ERC-721 magic value, otherwise it fails with no change. On success it states everything transferFrom does: the title moves, approvals are cleared, the owner and user lists are adjusted as above (the user stays under a tenant right), and other holders' lists are unchanged. |
| Registry.ItemRegistry.Approve | test/ERCX.test.js:1097-1546 | Fails exactly when the approve check fails, with that error and no change. Otherwise only the named slot takes the target and the slot's approval event is reported. |
| Registry.ItemRegistry.ApproveLegacy | test/ERCX.test.js:2747-2893 | approve (ERC-721) fills the owner-transfer slot under the owner-transfer approval rules and reports Approval(owner, target, item). |
| Registry.ItemRegistry.SetApprovalForAll | test/ERCX.test.js:1578-1676 | Fails exactly when the operator is the caller. Otherwise the pair is added or removed, so repeating the call leaves the same set. |
| Registry.ItemRegistry.Claim | test/ERCX.test.js:1836-1896 | setLien/setTenantRight succeed exactly when the caller is the non-zero approvee of the encumbrance's slot. On success the slots take the claim update. |
| Registry.ItemRegistry.Revoke | test/ERCX.test.js:1898-1953 | revokeLien/revokeTenantRight succeed exactly when the caller is the non-zero current holder. On success the current holder is cleared. |
| Authorization.WithApprovee | test/ERCX.test.js:1132-1213 | Filling a slot changes that slot and no other slot or encumbrance. |
| Authorization.AfterUserTransfer | test/ERCX.test.js:171-219 | A user transfer zeroes the user-transfer approval and keeps every other slot and encumbrance. |
| Authorization.AfterOwnerTransfer | test/ERCX.test.js:658-718 | An owner transfer zeroes the owner-transfer, lien and tenant-right approvals, keeps the user-transfer approval, and keeps the active lien and tenant right. |
| Authorization.AfterClaim | test/ERCX.test.js:2150-2221 | Claiming makes the claimant current and empties its approval slot. A tenant-right claim also clears the user-transfer approval. Nothing else changes. |
| Authorization.AfterRevoke | test/ERCX.test.js:1898-1953 | Revoking zeroes the current holder and keeps every approval slot. |
| Authorization.TransferUserCheck | test/ERCX.test.js:158-349 | A user transfer passes exactly when the item exists, `from` is its user, `to` is non-zero and the caller may move the user role. Encumbered is reported only to an owner-side caller while a tenant right is active. |
| Authorization.TransferOwnerCheck | test/ERCX.test.js:663-792 | An owner transfer passes exactly when the item exists, `from` is its owner, `to` is non-zero and the caller may move the title. |
| Authorization.BurnCheck | test/ERCX.test.js:3127-3157 | Burning passes exactly when the item exists and the caller may move its title. |
| Authorization.ApproveCheck | test/ERCX.test.js:1097-1546 | An approval passes exactly when the item exists, the target is not forbidden for that slot and the caller may approve. Encumbered is reported only for the user-transfer slot while a tenant right is active. |
| Authorization.ClaimCheck | test/ERCX.test.js:1836-1896 | A claim passes exactly for the non-zero approvee of the encumbrance's slot on an existing item. |
| Authorization.RevokeCheck | test/ERCX.test.js:1898-1953 | A revoke passes exactly for the non-zero current holder on an existing item. |
| Authorization.SetApprovalForAllCheck | test/ERCX.test.js:1669-1676 | setApprovalForAll passes exactly when the operator is not the caller. |
| Authorization.UserTransferCallers | test/ERCX.test.js:222-328 | With no tenant right, the user role moves exactly for six callers: the user, the owner, the user-transfer approvee, an operator of the user, an operator of the owner, and the active lien holder. |
| Authorization.TenantRightCallers | test/ERCX.test.js:397-437 | Under a tenant right the user role moves only for the user, the user's operator, the approvee or the lien holder, and approveForUser passes only for the user side. An owner-side caller gets Encumbered for both, yet can still move the title. |
| Authorization.OwnerTransferCallers | test/ERCX.test.js:721-792 | The title moves exactly for the owner, the owner's operator, the owner-transfer approvee and the active lien holder. |
| Authorization.ApproveCallers | test/ERCX.test.js:1236-1333 | A slot is filled exactly by the holder it serves or that holder's operator; the user-transfer slot also by the owner side when no tenant right is active. A mere approvee cannot pass its approval on. |
| Authorization.ClaimThenRevoke | test/ERCX.test.js:1836-1986 | After a successful claim: a second claim by the same account fails, the claimant and no one else may revoke, and revoking leaves no current holder. |
| Receiver.ReplyCheck | test/ERCX.test.js:590-644 | A safe transfer is accepted exactly when the destination is not a contract or returns the expected magic value. A revert is reported as ReceiverReverted and a wrong value as TransferRejected. |
| Metadata.ComposeUri | test/ERCX.test.js:2960-2988 | The composed URI is empty exactly when the item's own URI is empty. Otherwise it is the base URI followed by the own URI. |
| Enumeration.SwapRemoveEnumerates | test/ERCX.test.js:3029-3069 | Swap-and-pop removal of a listed item leaves a list one shorter that enumerates exactly the remaining items. |
| Enumeration.EnumeratesCount | test/ERCX.test.js:3001-3005 | An enumeration lists exactly its key set, once each, so its length is the number of keys. |
| Enumeration.DistinctCard | test/ERCX.test.js:3001-3005 | A list without repeats has as many distinct members as entries. |
| Enumeration.IndexedCount | test/ERCX.test.js:73-111 | A holder's list is as long as the set of items the role assigns to that holder. |
| Enumeration.InsertIndexed | test/ERCX.test.js:3071-3116 | Appending a new item to a holder's list keeps every holder's list exact, and changes only that holder's list. |
| Enumeration.DeleteIndexed | test/ERCX.test.js:3127-3157 | Removing an item from its holder's list keeps every list exact, shortens that list by one and leaves the others alone. |
| Enumeration.MoveIndexed | test/ERCX.test.js:171-219 | Moving an item to another holder shortens the source's list by one, appends the item to the destination's list, leaves the rest alone, and keeps every list exact. |
| Consistency.UserMoved | test/ERCX.test.js:171-219 | A user transfer that re-indexes the user lists keeps the registry consistent. |
| Consistency.OwnerMoved | test/ERCX.test.js:658-718 | An owner transfer that re-indexes the owner lists keeps the registry consistent. |
| Consistency.SlotsChanged | test/ERCX.test.js:1132-1213 | Replacing an item's slots with slots that name neither of its holders keeps the registry consistent. |
| Consistency.Minted | test/ERCX.test.js:3071-3116 | Adding a new item held in both roles by a non-zero account, with empty slots, keeps the registry consistent. |
| Consistency.Burned | test/ERCX.test.js:3127-3157 | Removing an item with its roles, slots and URI keeps the registry consistent. |
| Scenarios.MintFirst | test/ERCX.test.js:63-72 | Minting FIRST to OWNER on a new registry gives the one-item state. |
| Scenarios.MintSecond | test/ERCX.test.js:63-72 | Minting SECOND to OWNER next gives the two-item state every block starts from. |
| Scenarios.MintTwo | test/ERCX.test.js:63-72 | The shared setup: a new registry with FIRST and SECOND both held by OWNER in both roles. |
| Scenarios.MintedQueries | test/ERCX.test.js:73-149 | After the setup both of OWNER's balances are 2, an unrelated account's is 0, the zero address is refused, and ownerOf/userOf of FIRST are OWNER while a missing id is NotFound. |
| Scenarios.EnumerationQueries | test/ERCX.test.js:3001-3069 | After the setup the total is 2, OWNER's first item is FIRST, indexes past the end are OutOfRange, and the global list holds FIRST and SECOND. |
| Scenarios.MintCases | test/ERCX.test.js:3071-3116 | A third mint reports TransferOwner from zero and makes NEW_OWNER the owner with balance 1; minting to zero or an existing id fails. |
| Scenarios.HandFirstToUser | test/ERCX.test.js:157-169 | The user block's first step: OWNER hands the user role of FIRST to USER. |
| Scenarios.HandSecondToUser | test/ERCX.test.js:157-169 | The user block's second step: OWNER hands the user role of SECOND to USER. |
| Scenarios.GrantUserBlock | test/ERCX.test.js:157-169 | The user block's approvals: the user-transfer approvee and the user's and owner's operators are recorded. |
| Scenarios.UserBlockSetup | test/ERCX.test.js:157-169 | The whole user-block setup from a new registry. |
| Scenarios.ObserveUserTransfer | test/ERCX.test.js:171-219 | After a user transfer of FIRST to OTHER: userOf is OTHER, the approval is zero, USER's balance is 1, OTHER's first item is FIRST and USER's is not. |
| Scenarios.UserTransferBy | test/ERCX.test.js:222-308 | A user transfer by the user, the owner, the approvee or either operator succeeds, with the observations above. |
| Scenarios.UserTransferByLien | test/ERCX.test.js:310-328 | A user transfer by the active lien holder succeeds, with the observations above. |
| Scenarios.UserTransferAfterClearing | test/ERCX.test.js:329-350 | After the approval is cleared, the user can still transfer, with the observations above. |
| Scenarios.UserSelfTransfer | test/ERCX.test.js:352-395 | A user transfer to oneself succeeds, clears the approval, keeps the balance at 2 and keeps the enumeration order. |
| Scenarios.ClaimTenantRight | test/ERCX.test.js:397-437 | The tenant right of FIRST is approved for and claimed by TENANT. |
| Scenarios.UserTransferUnderTenantRight | test/ERCX.test.js:397-437 | Under the tenant right, the owner and the owner's operator get Encumbered and the user stays in place. |
| Scenarios.UserTransferFailures | test/ERCX.test.js:439-486 | A wrong `from` gives InvalidFrom, an unrelated caller NotAuthorized, a missing id NotFound, and the to-zero case InvalidFrom. |
| Scenarios.UserTransferToReceivers | test/ERCX.test.js:504-644 | A wrong magic value gives TransferRejected, a reverting receiver ReceiverReverted, and the right value succeeds. |
| Scenarios.GrantOwnerBlock | test/ERCX.test.js:650-656 | The owner block's approvals: the owner-transfer approvee and the owner's operator are recorded. |
| Scenarios.OwnerBlockSetup | test/ERCX.test.js:650-656 | The whole owner-block setup from a new registry. |
| Scenarios.ObserveOwnerTransfer | test/ERCX.test.js:658-718 | After an owner transfer of FIRST to OTHER: ownerOf is OTHER, OWNER's balance is 1, the three owner-side approvals are zero, and the owner lists are adjusted. |
| Scenarios.OwnerTransferBy | test/ERCX.test.js:721-773 | An owner transfer by the owner, the approvee or the owner's operator succeeds, with the observations above. |
| Scenarios.OwnerTransferByLien | test/ERCX.test.js:775-792 | An owner transfer by the active lien holder succeeds, with the observations above. |
| Scenarios.OwnerTransferAfterClearing | test/ERCX.test.js:794-815 | After the approval is cleared, the owner can still transfer. |
| Scenarios.OwnerSelfTransfer | test/ERCX.test.js:817-862 | An owner transfer to oneself succeeds, clears the approval, keeps the balance at 2 and keeps the enumeration order. |
| Scenarios.OwnerTransferUnauthorized | test/ERCX.test.js:864-908 | The role-less user, the user's operator and an unrelated account get NotAuthorized. |
| Scenarios.OwnerTransferFailures | test/ERCX.test.js:884-931 | A wrong `from` gives InvalidFrom, a missing id NotFound, and a zero destination InvalidTarget. |
| Scenarios.ApproveForUserCases | test/ERCX.test.js:1132-1213 | approveForUser sets, re-sets to the same target, replaces and clears the slot, reporting ApprovalForUser each time. |
| Scenarios.ApproveForUserBadTargets | test/ERCX.test.js:1214-1235 | Approving the owner or the user gives InvalidTarget; a missing id gives NotFound. |
| Scenarios.ApproveForUserBadCallers | test/ERCX.test.js:1236-1271 | An unrelated caller and the approvee itself get NotAuthorized. |
| Scenarios.ApproveForUserByOperators | test/ERCX.test.js:1310-1333 | The user's operator and the owner's operator may both fill the slot. |
| Scenarios.ApproveForUserUnderTenantRight | test/ERCX.test.js:1272-1308 | Under a tenant right the owner and the owner's operator get Encumbered and the slot stays zero. |
| Scenarios.ApproveForOwnerCases | test/ERCX.test.js:1372-1477 | approveForOwner sets, re-sets, replaces and clears the slot, and may name the user. |
| Scenarios.ApproveForOwnerRejections | test/ERCX.test.js:1478-1546 | Approving the owner gives InvalidTarget; unrelated callers, the approvee and a stranger get NotAuthorized; a missing id gives NotFound. |
| Scenarios.ApproveForOwnerByOperator | test/ERCX.test.js:1524-1535 | The owner's operator may fill the owner-transfer slot. |
| Scenarios.LegacyGetApproved | test/ERCX.test.js:2895-2923 | getApproved fails for a missing id, is zero before and the approvee after approve. |
| Scenarios.LegacyApproveCases | test/ERCX.test.js:2774-2841 | approve clears an empty slot, sets it (twice to the same target) and clears it again, reporting Approval each time. |
| Scenarios.LegacyApproveRejections | test/ERCX.test.js:2842-2893 | Approving the owner gives InvalidTarget; an unrelated caller and the approvee get NotAuthorized; an operator succeeds; a missing id gives NotFound. |
| Scenarios.OperatorCases | test/ERCX.test.js:1578-1676 | setApprovalForAll grants, revokes and re-grants idempotently, and refuses the caller itself. |
| Scenarios.EncumbranceApprovalCases | test/ERCX.test.js:1720-1730 | approveLien (and approveTenantRight, :2033-2043) fills the slot and reports its event. |
| Scenarios.EncumbranceApproveSame | test/ERCX.test.js:1731-1746 | Re-approving the same target succeeds with the same event. |
| Scenarios.EncumbranceReapproval | test/ERCX.test.js:1695-1762 | Approving a different target replaces the approvee; approving zero clears it. |
| Scenarios.EncumbranceApprovalRejections | test/ERCX.test.js:1763-1834 | Approving the owner gives InvalidTarget, an unrelated caller NotAuthorized, a missing id NotFound for both the approval and the getter, and the owner's operator succeeds. |
| Scenarios.EncumbranceProtocol | test/ERCX.test.js:1836-1986 | Approve, set, revoke: the current holder goes from zero to the claimant (clearing its approval) and back to zero, with LienSet/TenantRightSet events. |
| Scenarios.EncumbranceUnauthorized | test/ERCX.test.js:1862-1927 | An unrelated caller cannot claim or revoke; an address passed as an id gives NotFound. |
| Scenarios.EncumbranceMissing | test/ERCX.test.js:1884-1963 | Claim, revoke and the current-holder getter fail with NotFound for a missing id. |
| Scenarios.GrantLegacyBlock | test/ERCX.test.js:2363-2366 | The ERC-721 transfer block's approvals: approve(APPROVED) and OWNER's operator. |
| Scenarios.LegacyBlockSetup | test/ERCX.test.js:2363-2366 | The whole ERC-721 transfer-block setup from a new registry. |
| Scenarios.LegacyTransferBy | test/ERCX.test.js:2368-2506 | transferFrom by the owner, the approvee or the operator moves the title to OTHER and clears getApproved. |
| Scenarios.LegacyTransferMovesUser | test/ERCX.test.js:2417-2436 | With no tenant right, the user role moves to OTHER too, and the owner lists are adjusted. |
| Scenarios.LegacyTransferBalances | test/ERCX.test.js:2417-2436 | After the transfer OWNER holds one item in each role. |
| Scenarios.GrantLegacyTenantRight | test/ERCX.test.js:2438-2446 | TENANT is approved for and claims the tenant right of FIRST. |
| Scenarios.LegacyTransferUnderTenantRight | test/ERCX.test.js:2438-2458 | Under the tenant right the title moves but OWNER stays the user, with a user balance of 2. |
| Scenarios.LegacySelfTransfer | test/ERCX.test.js:2508-2550 | A transfer to the owner succeeds, clears getApproved and keeps the balance and order. |
| Scenarios.LegacyTransferFailures | test/ERCX.test.js:2551-2600 | A wrong `from` gives InvalidFrom, an unrelated caller NotAuthorized, a missing id NotFound, and a zero destination InvalidTarget. |
| Scenarios.LegacySafeTransfer | test/ERCX.test.js:2607-2745 | safeTransferFrom rejects a receiver answering with the dual-role magic value and accepts the ERC-721 one. |
| Scenarios.BurnCases | test/ERCX.test.js:3127-3157 | Burning a missing id fails; burning FIRST reports TransferOwner to zero, ownerOf then fails, the balance and the total drop to 1, and the item no longer exists. |
| Scenarios.BurnOne | test/ERCX.test.js:3029-3069 | Burning either of the two items leaves the other as the only listed item. |
| Scenarios.MintThird | test/ERCX.test.js:3029-3069 | Minting THIRD after the burn appends it after the survivor. |
| Scenarios.MintAfterBurn | test/ERCX.test.js:3029-3069 | After burning one item and minting two more, the total is 3 and itemByIndex lists the survivor, THIRD and FOURTH, then OutOfRange. |
| Scenarios.ItemUriCases | test/ERCX.test.js:2938-2958 | The default URI is empty, a missing id fails, and setItemURI sets the URI or fails for a missing id. |
| Scenarios.BaseUriCases | test/ERCX.test.js:2960-2988 | The base URI is stored, prefixes the item's own URI, follows a change of base, and is not reported for an item without its own URI. |
| Scenarios.BurnWithUri | test/ERCX.test.js:2989-2995 | Burning an item with a URI removes it, and its URI query fails. |
| Scenarios.MintWithUri | test/ERCX.test.js:3118-3125 | mintWithItemURI mints to NEW_OWNER and records the URI. |

## Left out

- The Solidity contract is not part of this model. Every rule is the one the assertions of `test/ERCX.test.js` fix, and the choices where they do not fix one are listed above.
- Receiver contracts: their code is not modelled. The destination's answer to a safe transfer is an input of the call (`Receiver.Reply`), and a refusal makes the whole call fail with no change.
- Event logs: events are returned as values from each successful call instead of being appended to a log. The test harness (Truffle, web3, big numbers, asynchrony) is left out.
- `name` and `symbol` (:2926-2932) are constant strings with no behaviour.
- Integer widths: addresses and item ids are unbounded naturals, and balances never overflow. Each account and item is a distinct number, and 0 is the zero address.
- Access control on `mint`, `mintWithItemURI`, `setItemURI` and `setBaseURI`: the suite calls them from role-less accounts, so the model has no caller check.
- Data passed to `safeTransferFrom` is not modelled. Only the reply of the destination matters.
- The `tmp/ERCX2.test.js`, `tmp/ERCX.test.js`, `tmp/ERCXMetadata.test.js` and `test/ERCXMintable.test.js` suites are not part of this model. They target older, layer-indexed interfaces whose assertions contradict `test/ERCX.test.js`.
- Scenarios.EncumbranceApprovalCases: the lien and tenant-right suites are stated by one method parameterised by the encumbrance; the table cites the lien lines.
- Scenarios.MintWithUri: states the recorded URI, which the suite's own test does not query.
- Scenarios.LegacyTransferBalances: the suite's "user has also been transferred" test (:2430-2434) queries the owner balance. The model states both the owner and the user balance.
- Authorization.TenantRightCallers: while a tenant right is active the model takes user-role authority away only from the owner and the owner's operators; the user, the user's operators, the user-transfer approvee and the active lien holder keep theirs, and the tenant-right holder gains no authority over the user role. The suite tests only the owner and the owner's operator under a tenant right (:397-437, :1272-1308), so it does not rule out the reading in which the tenant-right holder controls the user role exclusively; the model does not capture that reading.
