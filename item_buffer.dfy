/**
 * The item bookkeeping of a loading run: a batch of items waiting for the
 * next delivery to the UI, and for every catalog link the items it produced
 * that the loader has not committed yet.
 */
module ItemBuffer {

  /** A catalog link that items come from; only compared, never inspected. */
  type Link(==)

  /** A discovered catalog item; only compared, never inspected. */
  type Item(==)

  /** For each link, its uncommitted items in the order they were added. */
  type Uncommitted = map<Link, seq<Item>>

  /** The uncommitted list of a link; a link without a list has none. */
  function Lookup(m: Uncommitted, link: Link): seq<Item>
  {
    if link in m then m[link] else []
  }

  /** `addItem`'s effect on the uncommitted lists. */
  function AddUncommitted(m: Uncommitted, link: Link, item: Item): (r: Uncommitted)
    // the list is created when it is absent
    ensures r.Keys == m.Keys + {link}
    // the item goes to the end of its link's list
    ensures r[link] == Lookup(m, link) + [item]
    // no other list changes
    ensures forall l :: l in m && l != link ==> r[l] == m[l]
  {
    m[link := Lookup(m, link) + [item]]
  }

  /** `commitItems`'s effect on the uncommitted lists. */
  function CommitUncommitted(m: Uncommitted, link: Link): (r: Uncommitted)
    // the committed link's list is emptied, not removed; an unknown link changes nothing
    ensures r.Keys == m.Keys
    ensures link in m ==> r[link] == []
    ensures forall l :: l in m && l != link ==> r[l] == m[l]
  {
    if link in m then m[link := []] else m
  }

  /** The union of all uncommitted lists, as reported when the run finishes. */
  function UncommittedSet(m: Uncommitted): set<Item>
  {
    set l, x | l in m && x in m[l] :: x
  }

  /** An item is reported exactly when some link still lists it. */
  lemma UncommittedSetMembers(m: Uncommitted, x: Item)
    ensures x in UncommittedSet(m) <==> exists l :: x in Lookup(m, l)
  {
    if x in UncommittedSet(m) {
      var l :| l in m && x in m[l];
      assert x in Lookup(m, l);
    }
  }

  /** Adding to the only list extends it. */
  lemma AddToSingleList(link: Link, xs: seq<Item>, item: Item)
    ensures AddUncommitted(map[link := xs], link, item) == map[link := xs + [item]]
  {
  }

  /** With a single list, exactly its items are reported. */
  lemma SingleListReported(link: Link, xs: seq<Item>)
    ensures UncommittedSet(map[link := xs]) == set x | x in xs
  {
    var m := map[link := xs];
    forall x | x in xs
      ensures x in UncommittedSet(m)
    {
      assert x in m[link];
    }
  }

  /** Adding an item reports exactly that item in addition. */
  lemma AddReportsItem(m: Uncommitted, link: Link, item: Item)
    ensures UncommittedSet(AddUncommitted(m, link, item)) == UncommittedSet(m) + {item}
  {
    var r := AddUncommitted(m, link, item);
    forall x | x in UncommittedSet(m) + {item}
      ensures x in UncommittedSet(r)
    {
      if x == item {
        assert x in r[link];
      } else {
        var l :| l in m && x in m[l];
        if l == link {
          assert x in r[link];
        } else {
          assert x in r[l];
        }
      }
    }
  }

  /** Committing a link stops reporting its items, and only those not listed under another link. */
  lemma CommitReportsOthers(m: Uncommitted, link: Link, x: Item)
    ensures x in UncommittedSet(CommitUncommitted(m, link)) <==> exists l :: l in m && l != link && x in m[l]
  {
    var r := CommitUncommitted(m, link);
    if x in UncommittedSet(r) {
      var l :| l in r && x in r[l];
      assert l != link;
    }
    if exists l :: l in m && l != link && x in m[l] {
      var l :| l in m && l != link && x in m[l];
      assert x in r[l];
    }
  }
}
