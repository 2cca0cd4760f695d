/**
  The identity and index store: ordered lists of items with a reverse
  item-to-position map, so that an item is appended at the end and removed by
  moving the last entry into its slot and dropping the last entry
  ("swap and pop").  The registry keeps one such list of all existing items,
  and for each role (owner, user) one list per holder whose shared position map
  locates every item in its holder's list.
 */
module Enumeration {
  import opened Types

  /** `pos` records the index of every entry of `s`. */
  ghost predicate Positioned(s: seq<ItemId>, pos: map<ItemId, nat>) {
    forall k :: 0 <= k < |s| ==> s[k] in pos && pos[s[k]] == k
  }

  /** `s` lists exactly the members of `keys`, and `pos` locates each of them in `s`. */
  ghost predicate Enumerates(keys: set<ItemId>, s: seq<ItemId>, pos: map<ItemId, nat>) {
    && Positioned(s, pos)
    && (forall k :: 0 <= k < |s| ==> s[k] in keys)
    && (forall x {:trigger x in keys} :: x in keys ==> x in pos && pos[x] < |s| && s[pos[x]] == x)
  }

  /** Adds `x` at the end of the list. */
  function Append(s: seq<ItemId>, pos: map<ItemId, nat>, x: ItemId): (seq<ItemId>, map<ItemId, nat>) {
    (s + [x], pos[x := |s|])
  }

  /** Removes `x`: the last entry takes the slot of `x`, then the last slot is dropped. */
  function SwapRemove(s: seq<ItemId>, pos: map<ItemId, nat>, x: ItemId): (seq<ItemId>, map<ItemId, nat>)
    requires x in pos && pos[x] < |s|
  {
    var k, last := pos[x], s[|s| - 1];
    (s[k := last][..|s| - 1], pos[last := k] - {x})
  }

  /** Two positions of a positioned list never hold the same item. */
  lemma PositionedDistinct(s: seq<ItemId>, pos: map<ItemId, nat>)
    requires Positioned(s, pos)
    ensures forall i, j :: 0 <= i < j < |s| ==> s[i] != s[j]
  {
    forall i, j | 0 <= i < j < |s| ensures s[i] != s[j] {
      assert pos[s[i]] == i && pos[s[j]] == j;
    }
  }

  /** Changing the position map outside `keys` keeps an enumeration of `keys` intact. */
  lemma EnumeratesFrame(keys: set<ItemId>, s: seq<ItemId>, pos: map<ItemId, nat>, pos': map<ItemId, nat>)
    requires Enumerates(keys, s, pos)
    requires forall y {:trigger y in keys} :: y in keys ==> y in pos' && pos'[y] == pos[y]
    ensures Enumerates(keys, s, pos')
  {
    forall k | 0 <= k < |s| ensures s[k] in pos' && pos'[s[k]] == k {
      assert s[k] in keys;
    }
  }

  lemma AppendEnumerates(keys: set<ItemId>, s: seq<ItemId>, pos: map<ItemId, nat>, x: ItemId)
    requires Enumerates(keys, s, pos) && x !in keys
    ensures Enumerates(keys + {x}, Append(s, pos, x).0, Append(s, pos, x).1)
  {
    var (s', pos') := Append(s, pos, x);
    forall k | 0 <= k < |s'| ensures s'[k] in pos' && pos'[s'[k]] == k && s'[k] in keys + {x} {
      if k < |s| {
        assert s'[k] == s[k] && s[k] in keys;
      }
    }
    forall y | y in keys + {x} ensures y in pos' && pos'[y] < |s'| && s'[pos'[y]] == y {
      if y != x {
        assert pos'[y] == pos[y] && s'[pos[y]] == s[pos[y]];
      }
    }
  }

  lemma {:induction false} SwapRemoveEnumerates(keys: set<ItemId>, s: seq<ItemId>, pos: map<ItemId, nat>, x: ItemId)
    requires Enumerates(keys, s, pos) && x in keys
    ensures x in pos && pos[x] < |s|
    ensures |SwapRemove(s, pos, x).0| == |s| - 1
    ensures Enumerates(keys - {x}, SwapRemove(s, pos, x).0, SwapRemove(s, pos, x).1)
  {
    var n, k := |s|, pos[x];
    var last := s[n - 1];
    var (s', pos') := SwapRemove(s, pos, x);
    PositionedDistinct(s, pos);
    assert s[k] == x;
    assert last in keys;
    assert k < n - 1 ==> last != x;
    forall j | 0 <= j < |s'| ensures s'[j] in pos' && pos'[s'[j]] == j && s'[j] in keys - {x} {
      if j == k {
        assert s'[j] == last && last != x;
      } else {
        assert s'[j] == s[j];
        assert s[j] != x && s[j] != last;
        assert s[j] in keys;
      }
    }
    forall y | y in keys - {x} ensures y in pos' && pos'[y] < |s'| && s'[pos'[y]] == y {
      if y == last {
        assert k != n - 1;
        assert pos'[y] == k;
      } else {
        var p := pos[y];
        assert s[p] == y;
        assert p != n - 1 && p != k;
        assert pos'[y] == p && s'[p] == s[p];
      }
    }
  }

  /** The set of entries of a list. */
  ghost function Members(s: seq<ItemId>): set<ItemId> {
    set x | x in s
  }

  /** A duplicate-free list has as many entries as it has distinct members. */
  lemma {:induction false} DistinctCard(s: seq<ItemId>)
    requires forall i, j :: 0 <= i < j < |s| ==> s[i] != s[j]
    ensures |Members(s)| == |s|
  {
    if s != [] {
      var t := s[1..];
      assert forall i, j :: 0 <= i < j < |t| ==> t[i] != t[j] by {
        forall i, j | 0 <= i < j < |t| ensures t[i] != t[j] {
          assert t[i] == s[i + 1] && t[j] == s[j + 1];
        }
      }
      DistinctCard(t);
      var rest := Members(t);
      assert Members(s) == rest + {s[0]} by {
        forall y | y in s ensures y == s[0] || y in t {
          var i :| 0 <= i < |s| && s[i] == y;
          if i > 0 { assert t[i - 1] == y; }
        }
        forall y | y in t ensures y in s {
          var i :| 0 <= i < |t| && t[i] == y;
          assert s[i + 1] == y;
        }
      }
      assert s[0] !in rest by {
        forall i | 0 <= i < |t| ensures t[i] != s[0] {
          assert t[i] == s[i + 1];
        }
      }
      assert |rest + {s[0]}| == |rest| + 1;
    }
  }

  /** An enumeration lists each member of `keys` exactly once, so its length is the size of `keys`. */
  lemma EnumeratesCount(keys: set<ItemId>, s: seq<ItemId>, pos: map<ItemId, nat>)
    requires Enumerates(keys, s, pos)
    ensures Members(s) == keys
    ensures |s| == |keys|
  {
    PositionedDistinct(s, pos);
    DistinctCard(s);
    forall y | y in keys ensures y in s {
      assert s[pos[y]] == y;
    }
  }

  // ---------------------------------------------------------------------------
  // One list per holder, for a role that maps every existing item to its holder

  /** The list of `h`; a holder that never held the role has the empty list. */
  function ListOf(lists: map<Holder, seq<ItemId>>, h: Holder): seq<ItemId> {
    if h in lists then lists[h] else []
  }

  /** The items the role assigns to `h`. */
  ghost function Preimage(role: map<ItemId, Holder>, h: Holder): set<ItemId> {
    set x | x in role && role[x] == h
  }

  /** The list of `h` enumerates exactly the items the role assigns to `h`. */
  ghost predicate HolderIndexed(role: map<ItemId, Holder>, lists: map<Holder, seq<ItemId>>, pos: map<ItemId, nat>, h: Holder) {
    Enumerates(Preimage(role, h), ListOf(lists, h), pos)
  }

  /** Each holder's list enumerates exactly the items the role assigns to it. */
  ghost predicate Indexed(role: map<ItemId, Holder>, lists: map<Holder, seq<ItemId>>, pos: map<ItemId, nat>) {
    forall h :: HolderIndexed(role, lists, pos, h)
  }

  /** Appends `x` to the list of `h`. */
  function Insert(lists: map<Holder, seq<ItemId>>, pos: map<ItemId, nat>, h: Holder, x: ItemId)
    : (map<Holder, seq<ItemId>>, map<ItemId, nat>)
  {
    var (s, p) := Append(ListOf(lists, h), pos, x);
    (lists[h := s], p)
  }

  /** Swap-and-pop removal of `x` from the list of `h`. */
  function Delete(lists: map<Holder, seq<ItemId>>, pos: map<ItemId, nat>, h: Holder, x: ItemId)
    : (map<Holder, seq<ItemId>>, map<ItemId, nat>)
    requires x in pos && pos[x] < |ListOf(lists, h)|
  {
    var (s, p) := SwapRemove(ListOf(lists, h), pos, x);
    (lists[h := s], p)
  }

  /** Moves `x` from the list of `from` to the end of the list of `to`. */
  function Move(lists: map<Holder, seq<ItemId>>, pos: map<ItemId, nat>, from: Holder, to: Holder, x: ItemId)
    : (map<Holder, seq<ItemId>>, map<ItemId, nat>)
    requires x in pos && pos[x] < |ListOf(lists, from)|
  {
    var (l, p) := Delete(lists, pos, from, x);
    Insert(l, p, to, x)
  }

  /** The list of `h` has as many entries as the role assigns items to `h`. */
  lemma IndexedCount(role: map<ItemId, Holder>, lists: map<Holder, seq<ItemId>>, pos: map<ItemId, nat>, h: Holder)
    requires Indexed(role, lists, pos)
    ensures |ListOf(lists, h)| == |Preimage(role, h)|
  {
    assert HolderIndexed(role, lists, pos, h);
    EnumeratesCount(Preimage(role, h), ListOf(lists, h), pos);
  }

  /** Every entry of the list of `h` is an item the role assigns to `h`. */
  lemma IndexedEntry(role: map<ItemId, Holder>, lists: map<Holder, seq<ItemId>>, pos: map<ItemId, nat>, h: Holder, k: nat)
    requires Indexed(role, lists, pos) && k < |ListOf(lists, h)|
    ensures ListOf(lists, h)[k] in role && role[ListOf(lists, h)[k]] == h
  {
    assert HolderIndexed(role, lists, pos, h);
    assert ListOf(lists, h)[k] in Preimage(role, h);
  }

  /** Where an existing item sits in the list of its holder. */
  lemma IndexedLocates(role: map<ItemId, Holder>, lists: map<Holder, seq<ItemId>>, pos: map<ItemId, nat>, x: ItemId)
    requires Indexed(role, lists, pos) && x in role
    ensures x in pos && pos[x] < |ListOf(lists, role[x])| && ListOf(lists, role[x])[pos[x]] == x
  {
    assert HolderIndexed(role, lists, pos, role[x]);
    assert x in Preimage(role, role[x]);
  }

  lemma InsertIndexed(role: map<ItemId, Holder>, lists: map<Holder, seq<ItemId>>, pos: map<ItemId, nat>, h: Holder, x: ItemId)
    requires Indexed(role, lists, pos) && x !in role
    ensures ListOf(Insert(lists, pos, h, x).0, h) == ListOf(lists, h) + [x]
    ensures forall g :: g != h ==> ListOf(Insert(lists, pos, h, x).0, g) == ListOf(lists, g)
    ensures Indexed(role[x := h], Insert(lists, pos, h, x).0, Insert(lists, pos, h, x).1)
  {
    var (lists', pos') := Insert(lists, pos, h, x);
    var role' := role[x := h];
    forall g ensures HolderIndexed(role', lists', pos', g) {
      assert HolderIndexed(role, lists, pos, g);
      if g == h {
        assert Preimage(role', g) == Preimage(role, g) + {x};
        AppendEnumerates(Preimage(role, g), ListOf(lists, g), pos, x);
      } else {
        assert Preimage(role', g) == Preimage(role, g);
        EnumeratesFrame(Preimage(role, g), ListOf(lists, g), pos, pos');
      }
    }
  }

  lemma DeleteIndexed(role: map<ItemId, Holder>, lists: map<Holder, seq<ItemId>>, pos: map<ItemId, nat>, x: ItemId)
    requires Indexed(role, lists, pos) && x in role
    ensures x in pos && pos[x] < |ListOf(lists, role[x])|
    ensures |ListOf(Delete(lists, pos, role[x], x).0, role[x])| == |ListOf(lists, role[x])| - 1
    ensures Members(ListOf(Delete(lists, pos, role[x], x).0, role[x])) == Members(ListOf(lists, role[x])) - {x}
    ensures forall g :: g != role[x] ==> ListOf(Delete(lists, pos, role[x], x).0, g) == ListOf(lists, g)
    ensures Indexed(role - {x}, Delete(lists, pos, role[x], x).0, Delete(lists, pos, role[x], x).1)
  {
    var h := role[x];
    IndexedLocates(role, lists, pos, x);
    var s := ListOf(lists, h);
    var (lists', pos') := Delete(lists, pos, h, x);
    var role' := role - {x};
    assert HolderIndexed(role, lists, pos, h);
    SwapRemoveEnumerates(Preimage(role, h), s, pos, x);
    EnumeratesCount(Preimage(role, h), s, pos);
    EnumeratesCount(Preimage(role, h) - {x}, ListOf(lists', h), pos');
    var last := s[|s| - 1];
    assert last in Preimage(role, h);
    forall g ensures HolderIndexed(role', lists', pos', g) {
      if g == h {
        assert Preimage(role', g) == Preimage(role, h) - {x};
      } else {
        assert HolderIndexed(role, lists, pos, g);
        assert Preimage(role', g) == Preimage(role, g);
        forall y | y in Preimage(role, g) ensures y in pos' && pos'[y] == pos[y] {
          assert y != x && y != last;
        }
        EnumeratesFrame(Preimage(role, g), ListOf(lists, g), pos, pos');
      }
    }
  }

  lemma MoveIndexed(role: map<ItemId, Holder>, lists: map<Holder, seq<ItemId>>, pos: map<ItemId, nat>, x: ItemId, to: Holder)
    requires Indexed(role, lists, pos) && x in role
    ensures x in pos && pos[x] < |ListOf(lists, role[x])|
    ensures role[x] != to ==> |ListOf(Move(lists, pos, role[x], to, x).0, role[x])| == |ListOf(lists, role[x])| - 1
    ensures role[x] != to ==> ListOf(Move(lists, pos, role[x], to, x).0, to) == ListOf(lists, to) + [x]
    ensures forall g :: g != role[x] && g != to ==> ListOf(Move(lists, pos, role[x], to, x).0, g) == ListOf(lists, g)
    ensures Indexed(role[x := to], Move(lists, pos, role[x], to, x).0, Move(lists, pos, role[x], to, x).1)
  {
    DeleteIndexed(role, lists, pos, x);
    var (l, p) := Delete(lists, pos, role[x], x);
    InsertIndexed(role - {x}, l, p, to, x);
    assert (role - {x})[x := to] == role[x := to];
  }
}
