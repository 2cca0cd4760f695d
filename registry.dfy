/**
  The dual-role item registry: every existing item has an owner (title) and a
  user (possession), each enumerable per holder and globally, plus per-item
  approval slots, a lien and a tenant right, blanket operators and URIs.
  Every state-changing call is checked first; a call that fails leaves the
  registry exactly as it was.
 */
module Registry {
  import opened Types
  import opened Enumeration
  import opened Authorization
  import opened Receiver
  import opened Metadata
  import opened Consistency

  /** The two roles an item has. */
  datatype Role = UserRole | OwnerRole

  class ItemRegistry {
    var ownerOf: map<ItemId, Holder>
    var userOf: map<ItemId, Holder>
    var slots: map<ItemId, ItemSlots>
    var operators: Operators
    // per-owner and per-user enumerations, with each item's position in its list
    var itemsOfOwner: map<Holder, seq<ItemId>>
    var ownerIndex: map<ItemId, nat>
    var itemsOfUser: map<Holder, seq<ItemId>>
    var userIndex: map<ItemId, nat>
    // the global enumeration of existing items
    var allItems: seq<ItemId>
    var allIndex: map<ItemId, nat>
    var itemUris: map<ItemId, string>
    var baseUri: string

    /** The rights on an item, or None when it does not exist. */
    function Snapshot(item: ItemId): Option<Rights>
      reads this
    {
      if item in ownerOf && item in userOf && item in slots then
        Some(Rights(ownerOf[item], userOf[item], slots[item]))
      else None
    }

    function HolderMap(role: Role): map<ItemId, Holder>
      reads this
    {
      match role
      case UserRole => userOf
      case OwnerRole => ownerOf
    }

    function Lists(role: Role): map<Holder, seq<ItemId>>
      reads this
    {
      match role
      case UserRole => itemsOfUser
      case OwnerRole => itemsOfOwner
    }

    function Positions(role: Role): map<ItemId, nat>
      reads this
    {
      match role
      case UserRole => userIndex
      case OwnerRole => ownerIndex
    }

    /** The items a holder holds in a role, in enumeration order. */
    function Listing(role: Role, h: Holder): seq<ItemId>
      reads this
    {
      ListOf(Lists(role), h)
    }

    ghost predicate Valid()
      reads this
    {
      Consistent(ownerOf, userOf, slots, operators, itemsOfOwner, ownerIndex, itemsOfUser, userIndex,
                 allItems, allIndex, itemUris)
    }

    constructor ()
      ensures Valid()
      ensures ownerOf == map[] && userOf == map[] && slots == map[] && operators == {}
      ensures itemsOfOwner == map[] && itemsOfUser == map[]
      ensures allItems == [] && itemUris == map[] && baseUri == []
    {
      ownerOf, userOf, slots := map[], map[], map[];
      operators := {};
      itemsOfOwner, ownerIndex := map[], map[];
      itemsOfUser, userIndex := map[], map[];
      allItems, allIndex := [], map[];
      itemUris, baseUri := map[], [];
      new;
      forall h ensures HolderIndexed(map[], map[], map[], h) {
        assert Preimage(map[], h) == {};
      }
    }

    /** Every item a holder's enumeration lists exists, has its slots, and is held by that
        holder in that role. */
    lemma ListedItemsExist(role: Role, h: Holder, k: nat)
      requires Valid() && k < |Listing(role, h)|
      ensures Listing(role, h)[k] in ownerOf && Listing(role, h)[k] in slots
      ensures HolderMap(role)[Listing(role, h)[k]] == h
    {
      IndexedEntry(HolderMap(role), Lists(role), Positions(role), h, k);
      SoundAt(ownerOf, userOf, slots, Listing(role, h)[k]);
    }

    // -------------------------------------------------------------------------
    // Queries

    /** ownerOf / userOf: the holder of a role, which is listed in that holder's enumeration. */
    function HolderOf(role: Role, item: ItemId): (r: Result<Holder>)
      reads this
      requires Valid()
      ensures r.Ok? <==> item in ownerOf
      ensures r.Err? ==> r.error == NotFound
      ensures r.Ok? ==> r.value != ZERO && r.value == HolderMap(role)[item]
      ensures r.Ok? ==> item in Members(Listing(role, r.value))
    {
      if item !in ownerOf then Err(NotFound)
      else
        SoundAt(ownerOf, userOf, slots, item);
        IndexedLocates(HolderMap(role), Lists(role), Positions(role), item);
        Ok(HolderMap(role)[item])
    }

    /** balanceOfOwner / balanceOfUser: the number of items a holder holds in a role. */
    function BalanceOf(role: Role, h: Holder): (r: Result<nat>)
      reads this
      requires Valid()
      ensures r.Err? <==> h == ZERO
      ensures r.Err? ==> r.error == ZeroHolder
      ensures r.Ok? ==> r.value == |Preimage(HolderMap(role), h)| == |Listing(role, h)|
    {
      if h == ZERO then Err(ZeroHolder)
      else
        IndexedCount(HolderMap(role), Lists(role), Positions(role), h);
        Ok(|Listing(role, h)|)
    }

    /** itemOfOwnerByIndex / itemOfUserByIndex: the i-th item a holder holds in a role. */
    function ItemOfHolderByIndex(role: Role, h: Holder, i: nat): (r: Result<ItemId>)
      reads this
      requires Valid()
      ensures r.Ok? <==> i < |Preimage(HolderMap(role), h)|
      ensures r.Ok? <==> i < |Listing(role, h)|
      ensures r.Err? ==> r.error == OutOfRange
      ensures r.Ok? ==> r.value in HolderMap(role) && HolderMap(role)[r.value] == h
      ensures r.Ok? ==> i < |Listing(role, h)| && r.value == Listing(role, h)[i]
    {
      IndexedCount(HolderMap(role), Lists(role), Positions(role), h);
      if i < |Listing(role, h)| then
        IndexedEntry(HolderMap(role), Lists(role), Positions(role), h, i);
        Ok(Listing(role, h)[i])
      else Err(OutOfRange)
    }

    /** totalNumberOfItems: the number of existing items. */
    function TotalNumberOfItems(): (n: nat)
      reads this
      requires Valid()
      ensures n == |ownerOf.Keys| == |allItems|
    {
      EnumeratesCount(ownerOf.Keys, allItems, allIndex);
      |allItems|
    }

    /** itemByIndex: the i-th existing item. */
    function ItemByIndex(i: nat): (r: Result<ItemId>)
      reads this
      requires Valid()
      ensures r.Ok? <==> i < |ownerOf.Keys|
      ensures r.Err? ==> r.error == OutOfRange
      ensures r.Ok? ==> r.value in ownerOf && i < |allItems| && r.value == allItems[i]
    {
      EnumeratesCount(ownerOf.Keys, allItems, allIndex);
      if i < |allItems| then Ok(allItems[i]) else Err(OutOfRange)
    }

    /** An item exists exactly when the global enumeration lists it. */
    function Exists(item: ItemId): (b: bool)
      reads this
      requires Valid()
      ensures b <==> item in Members(allItems)
    {
      EnumeratesCount(ownerOf.Keys, allItems, allIndex);
      item in ownerOf
    }

    /** getApprovedForUser / getApprovedForOwner / getApprovedLien / getApprovedTenantRight
        (getApproved reads the owner-transfer slot). */
    function Approved(slot: ApprovalSlot, item: ItemId): (r: Result<Holder>)
      reads this
      requires Valid()
      ensures r.Ok? <==> item in ownerOf
      ensures r.Err? ==> r.error == NotFound
      ensures r.Ok? ==> r.value == Approvee(slots[item], slot)
      ensures r.Ok? && slot == ForUser ==> r.value != userOf[item]
      ensures r.Ok? && slot != ForUser ==> r.value != ownerOf[item]
    {
      if item !in ownerOf then Err(NotFound)
      else
        SoundAt(ownerOf, userOf, slots, item);
        Ok(Approvee(slots[item], slot))
    }

    /** getCurrentLien / getCurrentTenantRight: ZERO when the encumbrance is not active. */
    function CurrentHolder(enc: Encumbrance, item: ItemId): (r: Result<Holder>)
      reads this
      requires Valid()
      ensures r.Ok? <==> item in ownerOf
      ensures r.Err? ==> r.error == NotFound
      ensures r.Ok? ==> r.value == Current(slots[item], enc)
    {
      if item !in ownerOf then Err(NotFound)
      else
        SoundAt(ownerOf, userOf, slots, item);
        Ok(Current(slots[item], enc))
    }

    /** isApprovedForAll: never true of a holder and itself. */
    function IsApprovedForAll(holder: Holder, operator: Holder): (b: bool)
      reads this
      requires Valid()
      ensures b <==> (holder, operator) in operators
      ensures b ==> holder != operator
    {
      (holder, operator) in operators
    }

    /** itemURI: the base URI followed by the item's own URI, empty when it has none. */
    function ItemUri(item: ItemId): (r: Result<string>)
      reads this
      requires Valid()
      ensures r.Ok? <==> item in ownerOf
      ensures r.Err? ==> r.error == NotFound
      ensures r.Ok? && (item !in itemUris || itemUris[item] == []) ==> r.value == []
      ensures r.Ok? && item in itemUris && itemUris[item] != [] ==>
                r.value == baseUri + itemUris[item]
    {
      if item !in ownerOf then Err(NotFound)
      else Ok(ComposeUri(baseUri, if item in itemUris then itemUris[item] else []))
    }

    // -------------------------------------------------------------------------
    // Index maintenance shared by the transfers

    /** Moves an existing item from its holder's user list to the end of the list of `to`. */
    method RelistUser(to: Holder, item: ItemId)
      requires Indexed(userOf, itemsOfUser, userIndex) && item in userOf
      modifies this`itemsOfUser, this`userIndex
      ensures Indexed(userOf[item := to], itemsOfUser, userIndex)
      ensures userOf[item] == to ==> itemsOfUser == old(itemsOfUser) && userIndex == old(userIndex)
      ensures userOf[item] != to ==> (
                && |ListOf(itemsOfUser, userOf[item])| == old(|ListOf(itemsOfUser, userOf[item])|) - 1
                && ListOf(itemsOfUser, to) == old(ListOf(itemsOfUser, to)) + [item])
      ensures forall h :: h != userOf[item] && h != to ==> ListOf(itemsOfUser, h) == old(ListOf(itemsOfUser, h))
    {
      var from := userOf[item];
      if from != to {
        MoveIndexed(userOf, itemsOfUser, userIndex, item, to);
        var moved := Move(itemsOfUser, userIndex, from, to, item);
        itemsOfUser, userIndex := moved.0, moved.1;
      } else {
        SameUpdate(userOf, item);
      }
    }

    /** Moves an existing item from its holder's owner list to the end of the list of `to`. */
    method RelistOwner(to: Holder, item: ItemId)
      requires Indexed(ownerOf, itemsOfOwner, ownerIndex) && item in ownerOf
      modifies this`itemsOfOwner, this`ownerIndex
      ensures Indexed(ownerOf[item := to], itemsOfOwner, ownerIndex)
      ensures ownerOf[item] == to ==> itemsOfOwner == old(itemsOfOwner) && ownerIndex == old(ownerIndex)
      ensures ownerOf[item] != to ==> (
                && |ListOf(itemsOfOwner, ownerOf[item])| == old(|ListOf(itemsOfOwner, ownerOf[item])|) - 1
                && ListOf(itemsOfOwner, to) == old(ListOf(itemsOfOwner, to)) + [item])
      ensures forall h :: h != ownerOf[item] && h != to ==> ListOf(itemsOfOwner, h) == old(ListOf(itemsOfOwner, h))
    {
      var from := ownerOf[item];
      if from != to {
        MoveIndexed(ownerOf, itemsOfOwner, ownerIndex, item, to);
        var moved := Move(itemsOfOwner, ownerIndex, from, to, item);
        itemsOfOwner, ownerIndex := moved.0, moved.1;
      } else {
        SameUpdate(ownerOf, item);
      }
    }

    /** Appends a new item to the owner and user lists of `to` and to the global list. */
    method ListNew(to: Holder, item: ItemId)
      requires Indexed(ownerOf, itemsOfOwner, ownerIndex) && Indexed(userOf, itemsOfUser, userIndex)
      requires Enumerates(ownerOf.Keys, allItems, allIndex)
      requires item !in ownerOf && item !in userOf
      modifies this`itemsOfOwner, this`ownerIndex, this`itemsOfUser, this`userIndex, this`allItems, this`allIndex
      ensures Indexed(ownerOf[item := to], itemsOfOwner, ownerIndex)
      ensures Indexed(userOf[item := to], itemsOfUser, userIndex)
      ensures Enumerates(ownerOf.Keys + {item}, allItems, allIndex)
      ensures ListOf(itemsOfOwner, to) == old(ListOf(itemsOfOwner, to)) + [item]
      ensures ListOf(itemsOfUser, to) == old(ListOf(itemsOfUser, to)) + [item]
      ensures forall h :: h != to ==>
                ListOf(itemsOfOwner, h) == old(ListOf(itemsOfOwner, h)) && ListOf(itemsOfUser, h) == old(ListOf(itemsOfUser, h))
      ensures allItems == old(allItems) + [item]
    {
      InsertIndexed(ownerOf, itemsOfOwner, ownerIndex, to, item);
      InsertIndexed(userOf, itemsOfUser, userIndex, to, item);
      AppendEnumerates(ownerOf.Keys, allItems, allIndex, item);
      var owners := Insert(itemsOfOwner, ownerIndex, to, item);
      var users := Insert(itemsOfUser, userIndex, to, item);
      var all := Append(allItems, allIndex, item);
      itemsOfOwner, ownerIndex := owners.0, owners.1;
      itemsOfUser, userIndex := users.0, users.1;
      allItems, allIndex := all.0, all.1;
    }

    /** Removes an existing item from its owner's list. */
    method UnlistOwner(item: ItemId)
      requires Indexed(ownerOf, itemsOfOwner, ownerIndex) && item in ownerOf
      modifies this`itemsOfOwner, this`ownerIndex
      ensures Indexed(ownerOf - {item}, itemsOfOwner, ownerIndex)
      ensures |ListOf(itemsOfOwner, ownerOf[item])| == old(|ListOf(itemsOfOwner, ownerOf[item])|) - 1
      ensures Members(ListOf(itemsOfOwner, ownerOf[item])) == old(Members(ListOf(itemsOfOwner, ownerOf[item]))) - {item}
      ensures forall h :: h != ownerOf[item] ==> ListOf(itemsOfOwner, h) == old(ListOf(itemsOfOwner, h))
    {
      DeleteIndexed(ownerOf, itemsOfOwner, ownerIndex, item);
      var owners := Delete(itemsOfOwner, ownerIndex, ownerOf[item], item);
      itemsOfOwner, ownerIndex := owners.0, owners.1;
    }

    /** Removes an existing item from its user's list. */
    method UnlistUser(item: ItemId)
      requires Indexed(userOf, itemsOfUser, userIndex) && item in userOf
      modifies this`itemsOfUser, this`userIndex
      ensures Indexed(userOf - {item}, itemsOfUser, userIndex)
      ensures |ListOf(itemsOfUser, userOf[item])| == old(|ListOf(itemsOfUser, userOf[item])|) - 1
      ensures Members(ListOf(itemsOfUser, userOf[item])) == old(Members(ListOf(itemsOfUser, userOf[item]))) - {item}
      ensures forall h :: h != userOf[item] ==> ListOf(itemsOfUser, h) == old(ListOf(itemsOfUser, h))
    {
      DeleteIndexed(userOf, itemsOfUser, userIndex, item);
      var users := Delete(itemsOfUser, userIndex, userOf[item], item);
      itemsOfUser, userIndex := users.0, users.1;
    }

    /** Removes an existing item from the global list. */
    method UnlistAll(item: ItemId)
      requires Enumerates(ownerOf.Keys, allItems, allIndex) && item in ownerOf
      modifies this`allItems, this`allIndex
      ensures Enumerates(ownerOf.Keys - {item}, allItems, allIndex)
      ensures Members(allItems) == old(Members(allItems)) - {item} && |allItems| == old(|allItems|) - 1
    {
      EnumeratesCount(ownerOf.Keys, allItems, allIndex);
      SwapRemoveEnumerates(ownerOf.Keys, allItems, allIndex, item);
      var all := SwapRemove(allItems, allIndex, item);
      allItems, allIndex := all.0, all.1;
      EnumeratesCount(ownerOf.Keys - {item}, allItems, allIndex);
    }

    /** Hands the user role of an existing item to `to` and clears its user-transfer approval. */
    method MoveUser(to: Holder, item: ItemId)
      requires Valid() && item in ownerOf && to != ZERO
      modifies this`userOf, this`slots, this`itemsOfUser, this`userIndex
      ensures Valid()
      ensures userOf == old(userOf)[item := to]
      ensures slots == old(slots)[item := AfterUserTransfer(old(slots)[item])]
      ensures old(userOf)[item] == to ==> itemsOfUser == old(itemsOfUser) && userIndex == old(userIndex)
      ensures old(userOf)[item] != to ==> (
                && |ListOf(itemsOfUser, old(userOf)[item])| == old(|ListOf(itemsOfUser, userOf[item])|) - 1
                && ListOf(itemsOfUser, to) == old(ListOf(itemsOfUser, to)) + [item])
      ensures forall h :: h != old(userOf)[item] && h != to ==> ListOf(itemsOfUser, h) == old(ListOf(itemsOfUser, h))
    {
      SoundAt(ownerOf, userOf, slots, item);
      RelistUser(to, item);
      UserMoved(ownerOf, userOf, slots, operators, itemsOfOwner, ownerIndex, old(itemsOfUser), old(userIndex),
                allItems, allIndex, itemUris, item, to, itemsOfUser, userIndex);
      userOf := userOf[item := to];
      slots := slots[item := AfterUserTransfer(slots[item])];
    }

    /** Hands the owner role of an existing item to `to` and clears its owner-side approvals. */
    method MoveOwner(to: Holder, item: ItemId)
      requires Valid() && item in ownerOf && to != ZERO
      modifies this`ownerOf, this`slots, this`itemsOfOwner, this`ownerIndex
      ensures Valid()
      ensures ownerOf == old(ownerOf)[item := to]
      ensures slots == old(slots)[item := AfterOwnerTransfer(old(slots)[item])]
      ensures old(ownerOf)[item] == to ==> itemsOfOwner == old(itemsOfOwner) && ownerIndex == old(ownerIndex)
      ensures old(ownerOf)[item] != to ==> (
                && |ListOf(itemsOfOwner, old(ownerOf)[item])| == old(|ListOf(itemsOfOwner, ownerOf[item])|) - 1
                && ListOf(itemsOfOwner, to) == old(ListOf(itemsOfOwner, to)) + [item])
      ensures forall h :: h != old(ownerOf)[item] && h != to ==> ListOf(itemsOfOwner, h) == old(ListOf(itemsOfOwner, h))
    {
      RelistOwner(to, item);
      OwnerMoved(ownerOf, userOf, slots, operators, old(itemsOfOwner), old(ownerIndex), itemsOfUser, userIndex,
                 allItems, allIndex, itemUris, item, to, itemsOfOwner, ownerIndex);
      ownerOf := ownerOf[item := to];
      slots := slots[item := AfterOwnerTransfer(slots[item])];
    }

    // -------------------------------------------------------------------------
    // Minting, burning and metadata

    /** mint: a new item whose owner and user are both `to`, with empty slots. */
    method Mint(to: Holder, item: ItemId) returns (r: Result<Event>)
      requires Valid()
      modifies this`ownerOf, this`userOf, this`slots, this`itemsOfOwner, this`ownerIndex,
               this`itemsOfUser, this`userIndex, this`allItems, this`allIndex
      ensures Valid()
      ensures r == (if to == ZERO then Err(InvalidTarget)
                    else if item in old(ownerOf) then Err(AlreadyExists)
                    else Ok(TransferOwner(ZERO, to, item)))
      ensures r.Err? ==> unchanged(this)
      ensures r.Ok? ==> ownerOf == old(ownerOf)[item := to] && userOf == old(userOf)[item := to]
      ensures r.Ok? ==> slots == old(slots)[item := NoSlots]
      ensures r.Ok? ==> (ListOf(itemsOfOwner, to) == old(ListOf(itemsOfOwner, to)) + [item]
                     && ListOf(itemsOfUser, to) == old(ListOf(itemsOfUser, to)) + [item])
      ensures r.Ok? ==> forall h :: h != to ==>
                ListOf(itemsOfOwner, h) == old(ListOf(itemsOfOwner, h)) && ListOf(itemsOfUser, h) == old(ListOf(itemsOfUser, h))
      ensures r.Ok? ==> allItems == old(allItems) + [item]
    {
      if to == ZERO {
        return Err(InvalidTarget);
      }
      if item in ownerOf {
        return Err(AlreadyExists);
      }
      SoundAt(ownerOf, userOf, slots, item);
      ListNew(to, item);
      Minted(ownerOf, userOf, slots, operators, old(itemsOfOwner), old(ownerIndex), old(itemsOfUser), old(userIndex),
             old(allItems), old(allIndex), itemUris, item, to,
             itemsOfOwner, ownerIndex, itemsOfUser, userIndex, allItems, allIndex);
      ownerOf := ownerOf[item := to];
      userOf := userOf[item := to];
      slots := slots[item := NoSlots];
      r := Ok(TransferOwner(ZERO, to, item));
    }

    /** mintWithItemURI: mint, then record the item's own URI. */
    method MintWithItemUri(to: Holder, item: ItemId, uri: string) returns (r: Result<Event>)
      requires Valid()
      modifies this`ownerOf, this`userOf, this`slots, this`itemsOfOwner, this`ownerIndex,
               this`itemsOfUser, this`userIndex, this`allItems, this`allIndex, this`itemUris
      ensures Valid()
      ensures r == (if to == ZERO then Err(InvalidTarget)
                    else if item in old(ownerOf) then Err(AlreadyExists)
                    else Ok(TransferOwner(ZERO, to, item)))
      ensures r.Err? ==> unchanged(this)
      ensures r.Ok? ==> ownerOf == old(ownerOf)[item := to] && userOf == old(userOf)[item := to]
      ensures r.Ok? ==> slots == old(slots)[item := NoSlots]
      ensures r.Ok? ==> (ListOf(itemsOfOwner, to) == old(ListOf(itemsOfOwner, to)) + [item]
                     && ListOf(itemsOfUser, to) == old(ListOf(itemsOfUser, to)) + [item])
      ensures r.Ok? ==> forall h :: h != to ==>
                ListOf(itemsOfOwner, h) == old(ListOf(itemsOfOwner, h)) && ListOf(itemsOfUser, h) == old(ListOf(itemsOfUser, h))
      ensures r.Ok? ==> allItems == old(allItems) + [item]
      ensures r.Ok? ==> itemUris == old(itemUris)[item := uri]
    {
      r := Mint(to, item);
      if r.Ok? {
        itemUris := itemUris[item := uri];
      }
    }

    /** Takes an existing item out of both per-holder enumerations and the global one. */
    method UnlistEverywhere(item: ItemId)
      requires Valid() && item in ownerOf && item in userOf
      modifies this`itemsOfOwner, this`ownerIndex, this`itemsOfUser, this`userIndex, this`allItems, this`allIndex
      ensures Indexed(ownerOf - {item}, itemsOfOwner, ownerIndex)
      ensures Indexed(userOf - {item}, itemsOfUser, userIndex)
      ensures Enumerates(ownerOf.Keys - {item}, allItems, allIndex)
      ensures |ListOf(itemsOfOwner, ownerOf[item])| == old(|ListOf(itemsOfOwner, ownerOf[item])|) - 1
      ensures |ListOf(itemsOfUser, userOf[item])| == old(|ListOf(itemsOfUser, userOf[item])|) - 1
      ensures Members(ListOf(itemsOfOwner, ownerOf[item])) == old(Members(ListOf(itemsOfOwner, ownerOf[item]))) - {item}
      ensures Members(ListOf(itemsOfUser, userOf[item])) == old(Members(ListOf(itemsOfUser, userOf[item]))) - {item}
      ensures forall h :: h != ownerOf[item] ==> ListOf(itemsOfOwner, h) == old(ListOf(itemsOfOwner, h))
      ensures forall h :: h != userOf[item] ==> ListOf(itemsOfUser, h) == old(ListOf(itemsOfUser, h))
      ensures Members(allItems) == old(Members(allItems)) - {item} && |allItems| == old(|allItems|) - 1
    {
      UnlistAll(item);
      UnlistOwner(item);
      UnlistUser(item);
    }

    /** Removes an existing item with both roles, its slots and its URI. */
    method Remove(item: ItemId)
      requires Valid() && item in ownerOf
      modifies this`ownerOf, this`userOf, this`slots, this`itemsOfOwner, this`ownerIndex,
               this`itemsOfUser, this`userIndex, this`allItems, this`allIndex, this`itemUris
      ensures Valid()
      ensures ownerOf == old(ownerOf) - {item} && userOf == old(userOf) - {item}
      ensures slots == old(slots) - {item} && itemUris == old(itemUris) - {item}
      ensures |ListOf(itemsOfOwner, old(ownerOf)[item])| == old(|ListOf(itemsOfOwner, ownerOf[item])|) - 1
      ensures |ListOf(itemsOfUser, old(userOf)[item])| == old(|ListOf(itemsOfUser, userOf[item])|) - 1
      ensures Members(ListOf(itemsOfOwner, old(ownerOf)[item])) == old(Members(ListOf(itemsOfOwner, ownerOf[item]))) - {item}
      ensures Members(ListOf(itemsOfUser, old(userOf)[item])) == old(Members(ListOf(itemsOfUser, userOf[item]))) - {item}
      ensures forall h :: h != old(ownerOf)[item] ==> ListOf(itemsOfOwner, h) == old(ListOf(itemsOfOwner, h))
      ensures forall h :: h != old(userOf)[item] ==> ListOf(itemsOfUser, h) == old(ListOf(itemsOfUser, h))
      ensures Members(allItems) == old(Members(allItems)) - {item} && |allItems| == old(|allItems|) - 1
    {
      SoundAt(ownerOf, userOf, slots, item);
      UnlistEverywhere(item);
      Burned(ownerOf, userOf, slots, operators, old(itemsOfOwner), old(ownerIndex), old(itemsOfUser), old(userIndex),
             old(allItems), old(allIndex), itemUris, item,
             itemsOfOwner, ownerIndex, itemsOfUser, userIndex, allItems, allIndex);
      ownerOf, userOf, slots, itemUris := ownerOf - {item}, userOf - {item}, slots - {item}, itemUris - {item};
    }

    /** burn: removes the item, both roles, its slots and its URI. */
    method Burn(caller: Holder, item: ItemId) returns (r: Result<Event>)
      requires Valid()
      modifies this`ownerOf, this`userOf, this`slots, this`itemsOfOwner, this`ownerIndex,
               this`itemsOfUser, this`userIndex, this`allItems, this`allIndex, this`itemUris
      ensures Valid()
      ensures r == Outcome(BurnCheck(old(Snapshot(item)), old(operators), caller),
                           TransferOwner(if item in old(ownerOf) then old(ownerOf)[item] else ZERO, ZERO, item))
      ensures r.Err? ==> unchanged(this)
      ensures r.Ok? ==> (item in old(ownerOf)
                     && ownerOf == old(ownerOf) - {item} && userOf == old(userOf) - {item}
                     && slots == old(slots) - {item} && itemUris == old(itemUris) - {item})
      ensures r.Ok? ==> (|ListOf(itemsOfOwner, old(ownerOf)[item])| == old(|ListOf(itemsOfOwner, ownerOf[item])|) - 1
                     && |ListOf(itemsOfUser, old(userOf)[item])| == old(|ListOf(itemsOfUser, userOf[item])|) - 1)
      ensures r.Ok? ==> (Members(ListOf(itemsOfOwner, old(ownerOf)[item])) == old(Members(ListOf(itemsOfOwner, ownerOf[item]))) - {item}
                     && Members(ListOf(itemsOfUser, old(userOf)[item])) == old(Members(ListOf(itemsOfUser, userOf[item]))) - {item})
      ensures r.Ok? ==> forall h :: h != old(ownerOf)[item] ==> ListOf(itemsOfOwner, h) == old(ListOf(itemsOfOwner, h))
      ensures r.Ok? ==> forall h :: h != old(userOf)[item] ==> ListOf(itemsOfUser, h) == old(ListOf(itemsOfUser, h))
      ensures r.Ok? ==> Members(allItems) == old(Members(allItems)) - {item} && |allItems| == old(|allItems|) - 1
    {
      var e := BurnCheck(Snapshot(item), operators, caller);
      if e.Some? {
        return Err(e.value);
      }
      var owner := ownerOf[item];
      Remove(item);
      r := Ok(TransferOwner(owner, ZERO, item));
    }

    /** setItemURI: only an existing item takes a URI. */
    method SetItemUri(item: ItemId, uri: string) returns (r: Result<()>)
      requires Valid()
      modifies this`itemUris
      ensures Valid()
      ensures r == (if item in old(ownerOf) then Ok(()) else Err(NotFound))
      ensures r.Err? ==> unchanged(this)
      ensures r.Ok? ==> itemUris == old(itemUris)[item := uri]
    {
      if item !in ownerOf {
        return Err(NotFound);
      }
      itemUris := itemUris[item := uri];
      r := Ok(());
    }

    /** setBaseURI: the prefix of every non-empty item URI. */
    method SetBaseUri(uri: string)
      requires Valid()
      modifies this`baseUri
      ensures Valid()
      ensures baseUri == uri
    {
      baseUri := uri;
    }

    // -------------------------------------------------------------------------
    // Transfers

    /** safeTransferUser: moves the user role; the destination must acknowledge a dual-role transfer. */
    method SafeTransferUser(caller: Holder, from: Holder, to: Holder, item: ItemId, reply: Reply) returns (r: Result<Event>)
      requires Valid()
      modifies this`userOf, this`slots, this`itemsOfUser, this`userIndex
      ensures Valid()
      ensures r == Outcome(FirstError(TransferUserCheck(old(Snapshot(item)), old(operators), caller, from, to),
                                      ReplyCheck(reply, ERCX_RECEIVED)),
                           TransferUser(from, to, item))
      ensures r.Err? ==> unchanged(this)
      ensures r.Ok? ==> (item in old(userOf) && userOf == old(userOf)[item := to]
                     && slots == old(slots)[item := AfterUserTransfer(old(slots)[item])])
      ensures r.Ok? && from == to ==> itemsOfUser == old(itemsOfUser)
      ensures r.Ok? && from != to ==> (|ListOf(itemsOfUser, from)| == old(|ListOf(itemsOfUser, from)|) - 1
                                   && ListOf(itemsOfUser, to) == old(ListOf(itemsOfUser, to)) + [item])
      ensures r.Ok? ==> forall h :: h != from && h != to ==> ListOf(itemsOfUser, h) == old(ListOf(itemsOfUser, h))
    {
      var e := FirstError(TransferUserCheck(Snapshot(item), operators, caller, from, to), ReplyCheck(reply, ERCX_RECEIVED));
      if e.Some? {
        return Err(e.value);
      }
      MoveUser(to, item);
      r := Ok(TransferUser(from, to, item));
    }

    /** safeTransferOwner: moves the owner role; the destination must acknowledge a dual-role transfer. */
    method SafeTransferOwner(caller: Holder, from: Holder, to: Holder, item: ItemId, reply: Reply) returns (r: Result<Event>)
      requires Valid()
      modifies this`ownerOf, this`slots, this`itemsOfOwner, this`ownerIndex
      ensures Valid()
      ensures r == Outcome(FirstError(TransferOwnerCheck(old(Snapshot(item)), old(operators), caller, from, to),
                                      ReplyCheck(reply, ERCX_RECEIVED)),
                           TransferOwner(from, to, item))
      ensures r.Err? ==> unchanged(this)
      ensures r.Ok? ==> (item in old(ownerOf) && ownerOf == old(ownerOf)[item := to]
                     && slots == old(slots)[item := AfterOwnerTransfer(old(slots)[item])])
      ensures r.Ok? && from == to ==> itemsOfOwner == old(itemsOfOwner)
      ensures r.Ok? && from != to ==> (|ListOf(itemsOfOwner, from)| == old(|ListOf(itemsOfOwner, from)|) - 1
                                   && ListOf(itemsOfOwner, to) == old(ListOf(itemsOfOwner, to)) + [item])
      ensures r.Ok? ==> forall h :: h != from && h != to ==> ListOf(itemsOfOwner, h) == old(ListOf(itemsOfOwner, h))
    {
      var e := FirstError(TransferOwnerCheck(Snapshot(item), operators, caller, from, to), ReplyCheck(reply, ERCX_RECEIVED));
      if e.Some? {
        return Err(e.value);
      }
      MoveOwner(to, item);
      r := Ok(TransferOwner(from, to, item));
    }

    /** transferFrom (ERC-721): moves the owner role and, unless a tenant right is active,
        the user role too. */
    method TransferFrom(caller: Holder, from: Holder, to: Holder, item: ItemId) returns (r: Result<Event>)
      requires Valid()
      modifies this`ownerOf, this`userOf, this`slots, this`itemsOfOwner, this`ownerIndex,
               this`itemsOfUser, this`userIndex
      ensures Valid()
      ensures r == Outcome(TransferOwnerCheck(old(Snapshot(item)), old(operators), caller, from, to),
                           Transfer(from, to, item))
      ensures r.Err? ==> unchanged(this)
      ensures r.Ok? ==> item in old(ownerOf) && ownerOf == old(ownerOf)[item := to]
      ensures r.Ok? && old(slots)[item].currentTenantRight != ZERO ==>
                && userOf == old(userOf) && itemsOfUser == old(itemsOfUser)
                && slots == old(slots)[item := AfterOwnerTransfer(old(slots)[item])]
      ensures r.Ok? && old(slots)[item].currentTenantRight == ZERO ==>
                && userOf == old(userOf)[item := to]
                && slots == old(slots)[item := AfterUserTransfer(AfterOwnerTransfer(old(slots)[item]))]
      ensures r.Ok? && from != to ==> (|ListOf(itemsOfOwner, from)| == old(|ListOf(itemsOfOwner, from)|) - 1
                                   && ListOf(itemsOfOwner, to) == old(ListOf(itemsOfOwner, to)) + [item])
      ensures r.Ok? && old(slots)[item].currentTenantRight == ZERO && old(userOf)[item] != to ==>
                && |ListOf(itemsOfUser, old(userOf)[item])| == old(|ListOf(itemsOfUser, userOf[item])|) - 1
                && ListOf(itemsOfUser, to) == old(ListOf(itemsOfUser, to)) + [item]
      ensures r.Ok? && from == to ==> itemsOfOwner == old(itemsOfOwner)
      ensures r.Ok? && old(userOf)[item] == to ==> itemsOfUser == old(itemsOfUser)
      ensures r.Ok? ==> forall h :: h != from && h != to ==> ListOf(itemsOfOwner, h) == old(ListOf(itemsOfOwner, h))
      ensures r.Ok? ==> forall h :: h != old(userOf)[item] && h != to ==> ListOf(itemsOfUser, h) == old(ListOf(itemsOfUser, h))
    {
      var e := TransferOwnerCheck(Snapshot(item), operators, caller, from, to);
      if e.Some? {
        return Err(e.value);
      }
      var tenant := slots[item].currentTenantRight != ZERO;
      MoveOwner(to, item);
      if !tenant {
        ghost var moved := slots;
        MoveUser(to, item);
        UpdateTwice(old(slots), item, moved[item], AfterUserTransfer(moved[item]));
      }
      r := Ok(Transfer(from, to, item));
    }

    /** safeTransferFrom (ERC-721): transferFrom whose destination must acknowledge an ERC-721 transfer. */
    method SafeTransferFrom(caller: Holder, from: Holder, to: Holder, item: ItemId, reply: Reply) returns (r: Result<Event>)
      requires Valid()
      modifies this`ownerOf, this`userOf, this`slots, this`itemsOfOwner, this`ownerIndex,
               this`itemsOfUser, this`userIndex
      ensures Valid()
      ensures r == Outcome(FirstError(TransferOwnerCheck(old(Snapshot(item)), old(operators), caller, from, to),
                                      ReplyCheck(reply, ERC721_RECEIVED)),
                           Transfer(from, to, item))
      ensures r.Err? ==> unchanged(this)
      ensures r.Ok? ==> item in old(ownerOf) && ownerOf == old(ownerOf)[item := to]
      ensures r.Ok? && old(slots)[item].currentTenantRight != ZERO ==>
                && userOf == old(userOf) && itemsOfUser == old(itemsOfUser)
                && slots == old(slots)[item := AfterOwnerTransfer(old(slots)[item])]
      ensures r.Ok? && old(slots)[item].currentTenantRight == ZERO ==>
                && userOf == old(userOf)[item := to]
                && slots == old(slots)[item := AfterUserTransfer(AfterOwnerTransfer(old(slots)[item]))]
      ensures r.Ok? && from != to ==> (|ListOf(itemsOfOwner, from)| == old(|ListOf(itemsOfOwner, from)|) - 1
                                   && ListOf(itemsOfOwner, to) == old(ListOf(itemsOfOwner, to)) + [item])
      ensures r.Ok? && old(slots)[item].currentTenantRight == ZERO && old(userOf)[item] != to ==>
                && |ListOf(itemsOfUser, old(userOf)[item])| == old(|ListOf(itemsOfUser, userOf[item])|) - 1
                && ListOf(itemsOfUser, to) == old(ListOf(itemsOfUser, to)) + [item]
      ensures r.Ok? && from == to ==> itemsOfOwner == old(itemsOfOwner)
      ensures r.Ok? && old(userOf)[item] == to ==> itemsOfUser == old(itemsOfUser)
      ensures r.Ok? ==> forall h :: h != from && h != to ==> ListOf(itemsOfOwner, h) == old(ListOf(itemsOfOwner, h))
      ensures r.Ok? ==> forall h :: h != old(userOf)[item] && h != to ==> ListOf(itemsOfUser, h) == old(ListOf(itemsOfUser, h))
    {
      var e := FirstError(TransferOwnerCheck(Snapshot(item), operators, caller, from, to), ReplyCheck(reply, ERC721_RECEIVED));
      if e.Some? {
        return Err(e.value);
      }
      r := TransferFrom(caller, from, to, item);
    }

    // -------------------------------------------------------------------------
    // Approvals and encumbrances

    /** approveForUser / approveForOwner / approveLien / approveTenantRight: fills one slot. */
    method Approve(slot: ApprovalSlot, caller: Holder, target: Holder, item: ItemId) returns (r: Result<Event>)
      requires Valid()
      modifies this`slots
      ensures Valid()
      ensures r.Err? <==> ApproveCheck(slot, old(Snapshot(item)), old(operators), caller, target).Some?
      ensures r.Err? ==> (Some(r.error) == ApproveCheck(slot, old(Snapshot(item)), old(operators), caller, target)
                      && unchanged(this))
      ensures r.Ok? ==> (item in old(slots) && r.value == ApprovalEvent(slot, old(Snapshot(item)).value, target, item)
                     && slots == old(slots)[item := WithApprovee(old(slots)[item], slot, target)])
    {
      var rights := Snapshot(item);
      var e := ApproveCheck(slot, rights, operators, caller, target);
      if e.Some? {
        return Err(e.value);
      }
      SoundAt(ownerOf, userOf, slots, item);
      SlotsChanged(ownerOf, userOf, slots, operators, itemsOfOwner, ownerIndex, itemsOfUser, userIndex,
                   allItems, allIndex, itemUris, item, WithApprovee(slots[item], slot, target));
      slots := slots[item := WithApprovee(slots[item], slot, target)];
      r := Ok(ApprovalEvent(slot, rights.value, target, item));
    }

    /** approve (ERC-721): fills the owner-transfer slot and reports an Approval event. */
    method ApproveLegacy(caller: Holder, target: Holder, item: ItemId) returns (r: Result<Event>)
      requires Valid()
      modifies this`slots
      ensures Valid()
      ensures r.Err? <==> ApproveCheck(ForOwner, old(Snapshot(item)), old(operators), caller, target).Some?
      ensures r.Err? ==> r.error == ApproveCheck(ForOwner, old(Snapshot(item)), old(operators), caller, target).value
      ensures r.Err? ==> unchanged(this)
      ensures r.Ok? ==> (item in old(ownerOf) && r.value == Approval(old(ownerOf)[item], target, item)
                     && slots == old(slots)[item := old(slots)[item].(approvedForOwner := target)])
    {
      r := Approve(ForOwner, caller, target, item);
      if r.Ok? {
        r := Ok(Approval(r.value.owner, target, item));
      }
    }

    /** setApprovalForAll: grants or withdraws blanket operator status. */
    method SetApprovalForAll(caller: Holder, operator: Holder, approved: bool) returns (r: Result<Event>)
      requires Valid()
      modifies this`operators
      ensures Valid()
      ensures r == Outcome(SetApprovalForAllCheck(caller, operator), ApprovalForAll(caller, operator, approved))
      ensures r.Err? ==> unchanged(this)
      ensures r.Ok? && approved ==> operators == old(operators) + {(caller, operator)}
      ensures r.Ok? && !approved ==> operators == old(operators) - {(caller, operator)}
    {
      var e := SetApprovalForAllCheck(caller, operator);
      if e.Some? {
        return Err(e.value);
      }
      if approved {
        operators := operators + {(caller, operator)};
      } else {
        operators := operators - {(caller, operator)};
      }
      r := Ok(ApprovalForAll(caller, operator, approved));
    }

    /** setLien / setTenantRight: the approvee claims the encumbrance. */
    method Claim(enc: Encumbrance, caller: Holder, item: ItemId) returns (r: Result<Event>)
      requires Valid()
      modifies this`slots
      ensures Valid()
      ensures r == Outcome(ClaimCheck(enc, old(Snapshot(item)), caller), EncumbranceEvent(enc, caller, item, true))
      ensures r.Err? ==> unchanged(this)
      ensures r.Ok? ==> item in old(slots) && slots == old(slots)[item := AfterClaim(old(slots)[item], enc, caller)]
    {
      var e := ClaimCheck(enc, Snapshot(item), caller);
      if e.Some? {
        return Err(e.value);
      }
      SoundAt(ownerOf, userOf, slots, item);
      SlotsChanged(ownerOf, userOf, slots, operators, itemsOfOwner, ownerIndex, itemsOfUser, userIndex,
                   allItems, allIndex, itemUris, item, AfterClaim(slots[item], enc, caller));
      slots := slots[item := AfterClaim(slots[item], enc, caller)];
      r := Ok(EncumbranceEvent(enc, caller, item, true));
    }

    /** revokeLien / revokeTenantRight: the current holder gives the encumbrance up. */
    method Revoke(enc: Encumbrance, caller: Holder, item: ItemId) returns (r: Result<Event>)
      requires Valid()
      modifies this`slots
      ensures Valid()
      ensures r == Outcome(RevokeCheck(enc, old(Snapshot(item)), caller), EncumbranceEvent(enc, ZERO, item, false))
      ensures r.Err? ==> unchanged(this)
      ensures r.Ok? ==> item in old(slots) && slots == old(slots)[item := AfterRevoke(old(slots)[item], enc)]
    {
      var e := RevokeCheck(enc, Snapshot(item), caller);
      if e.Some? {
        return Err(e.value);
      }
      SoundAt(ownerOf, userOf, slots, item);
      SlotsChanged(ownerOf, userOf, slots, operators, itemsOfOwner, ownerIndex, itemsOfUser, userIndex,
                   allItems, allIndex, itemUris, item, AfterRevoke(slots[item], enc));
      slots := slots[item := AfterRevoke(slots[item], enc)];
      r := Ok(EncumbranceEvent(enc, ZERO, item, false));
    }
  }
}
