/**
  The representation invariant of the registry, stated over the values of its
  tables, and one lemma per kind of state change showing that the change keeps it.
 */
module Consistency {
  import opened Types
  import opened Enumeration
  import opened Authorization

  /** The role maps and the slot map cover the same items, every role is held by a
      non-zero holder, and no slot names the holder it would act against. */
  ghost predicate Sound(owners: map<ItemId, Holder>, users: map<ItemId, Holder>, slots: map<ItemId, ItemSlots>) {
    && users.Keys == owners.Keys
    && slots.Keys == owners.Keys
    && forall x {:trigger slots[x]} :: x in owners && x in users && x in slots ==>
         && owners[x] != ZERO && users[x] != ZERO
         && NoSelfApproval(Rights(owners[x], users[x], slots[x]))
  }

  /** The whole registry: sound roles and slots, no holder its own operator, both
      per-holder enumerations and the global enumeration in step with the role maps,
      and item URIs only for existing items. */
  ghost predicate Consistent(
    owners: map<ItemId, Holder>, users: map<ItemId, Holder>, slots: map<ItemId, ItemSlots>, operators: Operators,
    ownerLists: map<Holder, seq<ItemId>>, ownerPos: map<ItemId, nat>,
    userLists: map<Holder, seq<ItemId>>, userPos: map<ItemId, nat>,
    all: seq<ItemId>, allPos: map<ItemId, nat>, uris: map<ItemId, string>)
  {
    && Sound(owners, users, slots)
    && (forall p {:trigger p in operators} :: p in operators ==> p.0 != p.1)
    && Indexed(owners, ownerLists, ownerPos)
    && Indexed(users, userLists, userPos)
    && Enumerates(owners.Keys, all, allPos)
    && (forall x {:trigger x in uris} :: x in uris ==> x in owners)
  }

  lemma SoundAt(owners: map<ItemId, Holder>, users: map<ItemId, Holder>, slots: map<ItemId, ItemSlots>, x: ItemId)
    requires Sound(owners, users, slots)
    ensures (x in users <==> x in owners) && (x in slots <==> x in owners)
    ensures x in owners ==> x in users && x in slots && owners[x] != ZERO && users[x] != ZERO
    ensures x in owners ==> NoSelfApproval(Rights(owners[x], users[x], slots[x]))
  {
    assert x in owners <==> x in owners.Keys;
  }

  /** Writing back the value a map already holds leaves it unchanged. */
  lemma SameUpdate<V>(m: map<ItemId, V>, x: ItemId)
    requires x in m
    ensures m[x := m[x]] == m
  {
  }

  /** Of two writes to the same key, only the second is visible. */
  lemma UpdateTwice<V>(m: map<ItemId, V>, x: ItemId, a: V, b: V)
    ensures m[x := a][x := b] == m[x := b]
  {
  }

  /** The user role of an existing item changes hands and its user-transfer approval is cleared. */
  lemma UserMoved(
    owners: map<ItemId, Holder>, users: map<ItemId, Holder>, slots: map<ItemId, ItemSlots>, operators: Operators,
    ownerLists: map<Holder, seq<ItemId>>, ownerPos: map<ItemId, nat>,
    userLists: map<Holder, seq<ItemId>>, userPos: map<ItemId, nat>,
    all: seq<ItemId>, allPos: map<ItemId, nat>, uris: map<ItemId, string>,
    x: ItemId, to: Holder, userLists': map<Holder, seq<ItemId>>, userPos': map<ItemId, nat>)
    requires Consistent(owners, users, slots, operators, ownerLists, ownerPos, userLists, userPos, all, allPos, uris)
    requires x in owners && to != ZERO
    requires Indexed(users[x := to], userLists', userPos')
    ensures x in slots
    ensures Consistent(owners, users[x := to], slots[x := AfterUserTransfer(slots[x])], operators,
                       ownerLists, ownerPos, userLists', userPos', all, allPos, uris)
  {
    SoundAt(owners, users, slots, x);
    assert users[x := to].Keys == users.Keys;
    assert slots[x := AfterUserTransfer(slots[x])].Keys == slots.Keys;
  }

  /** The owner role of an existing item changes hands and its owner-side approvals are cleared. */
  lemma OwnerMoved(
    owners: map<ItemId, Holder>, users: map<ItemId, Holder>, slots: map<ItemId, ItemSlots>, operators: Operators,
    ownerLists: map<Holder, seq<ItemId>>, ownerPos: map<ItemId, nat>,
    userLists: map<Holder, seq<ItemId>>, userPos: map<ItemId, nat>,
    all: seq<ItemId>, allPos: map<ItemId, nat>, uris: map<ItemId, string>,
    x: ItemId, to: Holder, ownerLists': map<Holder, seq<ItemId>>, ownerPos': map<ItemId, nat>)
    requires Consistent(owners, users, slots, operators, ownerLists, ownerPos, userLists, userPos, all, allPos, uris)
    requires x in owners && to != ZERO
    requires Indexed(owners[x := to], ownerLists', ownerPos')
    ensures x in slots
    ensures Consistent(owners[x := to], users, slots[x := AfterOwnerTransfer(slots[x])], operators,
                       ownerLists', ownerPos', userLists, userPos, all, allPos, uris)
  {
    SoundAt(owners, users, slots, x);
    assert owners[x := to].Keys == owners.Keys;
    assert slots[x := AfterOwnerTransfer(slots[x])].Keys == slots.Keys;
  }

  /** Only the slots of an existing item change, to slots that name neither of its holders. */
  lemma SlotsChanged(
    owners: map<ItemId, Holder>, users: map<ItemId, Holder>, slots: map<ItemId, ItemSlots>, operators: Operators,
    ownerLists: map<Holder, seq<ItemId>>, ownerPos: map<ItemId, nat>,
    userLists: map<Holder, seq<ItemId>>, userPos: map<ItemId, nat>,
    all: seq<ItemId>, allPos: map<ItemId, nat>, uris: map<ItemId, string>,
    x: ItemId, s: ItemSlots)
    requires Consistent(owners, users, slots, operators, ownerLists, ownerPos, userLists, userPos, all, allPos, uris)
    requires x in owners && x in users && NoSelfApproval(Rights(owners[x], users[x], s))
    ensures Consistent(owners, users, slots[x := s], operators,
                       ownerLists, ownerPos, userLists, userPos, all, allPos, uris)
  {
    SoundAt(owners, users, slots, x);
    assert slots[x := s].Keys == slots.Keys;
  }

  /** A new item enters, held in both roles by `to`, with empty slots. */
  lemma Minted(
    owners: map<ItemId, Holder>, users: map<ItemId, Holder>, slots: map<ItemId, ItemSlots>, operators: Operators,
    ownerLists: map<Holder, seq<ItemId>>, ownerPos: map<ItemId, nat>,
    userLists: map<Holder, seq<ItemId>>, userPos: map<ItemId, nat>,
    all: seq<ItemId>, allPos: map<ItemId, nat>, uris: map<ItemId, string>,
    x: ItemId, to: Holder,
    ownerLists': map<Holder, seq<ItemId>>, ownerPos': map<ItemId, nat>,
    userLists': map<Holder, seq<ItemId>>, userPos': map<ItemId, nat>,
    all': seq<ItemId>, allPos': map<ItemId, nat>)
    requires Consistent(owners, users, slots, operators, ownerLists, ownerPos, userLists, userPos, all, allPos, uris)
    requires x !in owners && to != ZERO
    requires Indexed(owners[x := to], ownerLists', ownerPos')
    requires Indexed(users[x := to], userLists', userPos')
    requires Enumerates(owners.Keys + {x}, all', allPos')
    ensures Consistent(owners[x := to], users[x := to], slots[x := NoSlots], operators,
                       ownerLists', ownerPos', userLists', userPos', all', allPos', uris)
  {
    assert users[x := to].Keys == users.Keys + {x};
    assert slots[x := NoSlots].Keys == slots.Keys + {x};
    assert owners[x := to].Keys == owners.Keys + {x};
  }

  /** An item leaves, with its roles, its slots and its URI. */
  lemma Burned(
    owners: map<ItemId, Holder>, users: map<ItemId, Holder>, slots: map<ItemId, ItemSlots>, operators: Operators,
    ownerLists: map<Holder, seq<ItemId>>, ownerPos: map<ItemId, nat>,
    userLists: map<Holder, seq<ItemId>>, userPos: map<ItemId, nat>,
    all: seq<ItemId>, allPos: map<ItemId, nat>, uris: map<ItemId, string>,
    x: ItemId,
    ownerLists': map<Holder, seq<ItemId>>, ownerPos': map<ItemId, nat>,
    userLists': map<Holder, seq<ItemId>>, userPos': map<ItemId, nat>,
    all': seq<ItemId>, allPos': map<ItemId, nat>)
    requires Consistent(owners, users, slots, operators, ownerLists, ownerPos, userLists, userPos, all, allPos, uris)
    requires Indexed(owners - {x}, ownerLists', ownerPos')
    requires Indexed(users - {x}, userLists', userPos')
    requires Enumerates(owners.Keys - {x}, all', allPos')
    ensures Consistent(owners - {x}, users - {x}, slots - {x}, operators,
                       ownerLists', ownerPos', userLists', userPos', all', allPos', uris - {x})
  {
    assert (users - {x}).Keys == users.Keys - {x};
    assert (slots - {x}).Keys == slots.Keys - {x};
    assert (owners - {x}).Keys == owners.Keys - {x};
  }
}
