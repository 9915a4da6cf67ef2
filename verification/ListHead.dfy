/** The circular list primitives of libusb: each is one change of the sequence
    of entries around the ring. */
module ListHead {

  class Entry {
    var prev: Entry?
    var next: Entry?

    /** list_init() */
    constructor ()
      ensures Ring([this])
    {
      prev, next := this, this;
    }
  }

  function Succ(n: nat, i: nat): nat { if i + 1 < n then i + 1 else 0 }

  ghost predicate Linked(a: Entry, b: Entry)
    reads a, b
  {
    a.next == b && b.prev == a
  }

  ghost predicate Distinct<T>(ring: seq<T>) {
    forall i, j | 0 <= i < j < |ring| :: ring[i] != ring[j]
  }

  /** The entries of a ring in order; the list head comes first. */
  ghost predicate Ring(ring: seq<Entry>)
    reads ring
  {
    && |ring| > 0 && Distinct(ring)
    && forall i | 0 <= i < |ring| :: Linked(ring[i], ring[Succ(|ring|, i)])
  }

  /** list_empty() */
  method ListEmpty(head: Entry, ghost ring: seq<Entry>) returns (empty: bool)
    requires Ring(ring) && ring[0] == head
    ensures empty <==> ring == [head]
  {
    assert Linked(ring[0], ring[Succ(|ring|, 0)]);
    empty := head.next == head;
  }

  function Inserted(ring: seq<Entry>, k: nat, entry: Entry): seq<Entry>
    requires k <= |ring|
  {
    ring[..k] + [entry] + ring[k..]
  }

  function Removed(ring: seq<Entry>, k: nat): seq<Entry>
    requires k < |ring|
  {
    ring[..k] + ring[k + 1..]
  }

  lemma InsertedDistinct(ring: seq<Entry>, k: nat, entry: Entry)
    requires Distinct(ring) && k <= |ring| && entry !in ring
    ensures Distinct(Inserted(ring, k, entry))
  {
  }

  lemma RemovedDistinct(ring: seq<Entry>, k: nat)
    requires Distinct(ring) && k < |ring|
    ensures Distinct(Removed(ring, k)) && ring[k] !in Removed(ring, k)
  {
  }

  /** list_add(): entry comes directly behind head, which is at place k */
  method ListAdd(entry: Entry, head: Entry, ghost ring: seq<Entry>, ghost k: nat)
    requires Ring(ring) && k < |ring| && ring[k] == head && entry !in ring
    modifies ring, entry
    ensures Ring(Inserted(ring, k + 1, entry))
  {
    ghost var n, after := |ring|, Inserted(ring, k + 1, entry);
    InsertedDistinct(ring, k + 1, entry);
    assert Linked(head, ring[Succ(n, k)]);
    entry.next := head.next;
    entry.prev := head;
    head.next.prev := entry;
    head.next := entry;
    forall i | 0 <= i <= n ensures Linked(after[i], after[Succ(n + 1, i)]) {
      if i < k {
        assert old(Linked(ring[i], ring[Succ(n, i)]));
      } else if i > k + 1 {
        assert old(Linked(ring[i - 1], ring[Succ(n, i - 1)]));
      }
    }
  }

  /** list_add_tail(): entry comes directly before head, which is at place k; that
      is the end of the list if head is the list head */
  method ListAddTail(entry: Entry, head: Entry, ghost ring: seq<Entry>, ghost k: nat)
    requires Ring(ring) && k < |ring| && ring[k] == head && entry !in ring
    modifies ring, entry
    ensures Ring(Inserted(ring, if k == 0 then |ring| else k, entry))
  {
    ghost var n, place := |ring|, if k == 0 then |ring| else k;
    ghost var after := Inserted(ring, place, entry);
    InsertedDistinct(ring, place, entry);
    assert Linked(ring[place - 1], ring[Succ(n, place - 1)]);
    entry.next := head;
    entry.prev := head.prev;
    head.prev.next := entry;
    head.prev := entry;
    forall i | 0 <= i <= n ensures Linked(after[i], after[Succ(n + 1, i)]) {
      if i < place - 1 {
        assert old(Linked(ring[i], ring[Succ(n, i)]));
      } else if i > place {
        assert old(Linked(ring[i - 1], ring[Succ(n, i - 1)]));
      }
    }
  }

  /** list_del(): entry, at place k behind the list head, leaves the ring */
  method ListDel(entry: Entry, ghost ring: seq<Entry>, ghost k: nat)
    requires Ring(ring) && 0 < k < |ring| && ring[k] == entry
    modifies ring
    ensures Ring(Removed(ring, k)) && entry !in Removed(ring, k)
    ensures entry.next == null && entry.prev == null
  {
    ghost var n, after := |ring|, Removed(ring, k);
    RemovedDistinct(ring, k);
    assert Linked(ring[k - 1], ring[Succ(n, k - 1)]) && Linked(entry, ring[Succ(n, k)]);
    entry.next.prev := entry.prev;
    entry.prev.next := entry.next;
    entry.next, entry.prev := null, null;
    forall i | 0 <= i < n - 1 ensures Linked(after[i], after[Succ(n - 1, i)]) {
      if i < k - 1 {
        assert old(Linked(ring[i], ring[Succ(n, i)]));
      } else if i >= k {
        assert old(Linked(ring[i + 1], ring[Succ(n, i + 1)]));
      }
    }
  }

  lemma InsertRemove(ring: seq<Entry>, k: nat, entry: Entry)
    requires k <= |ring|
    ensures Removed(Inserted(ring, k, entry), k) == ring
  {
    var after := Inserted(ring, k, entry);
    assert after[..k] == ring[..k] && after[k + 1..] == ring[k..];
  }

  /** A ring determines all links between its entries. */
  lemma RingFixesLinks(ring: seq<Entry>, i: nat)
    requires Ring(ring) && i < |ring|
    ensures ring[i].next == ring[Succ(|ring|, i)] && ring[i].prev == ring[if i > 0 then i - 1 else |ring| - 1]
  {
    var b := if i > 0 then i - 1 else |ring| - 1;
    assert Linked(ring[i], ring[Succ(|ring|, i)]) && Linked(ring[b], ring[Succ(|ring|, b)]);
  }

  /** list_add() and then list_del(): the ring is as before, and so are its links. */
  method AddThenDelete(entry: Entry, head: Entry, ghost ring: seq<Entry>, ghost k: nat)
    requires Ring(ring) && k < |ring| && ring[k] == head && entry !in ring
    modifies ring, entry
    ensures Ring(ring)
  {
    ListAdd(entry, head, ring, k);
    ListDel(entry, Inserted(ring, k + 1, entry), k + 1);
    InsertRemove(ring, k + 1, entry);
  }

  // ----- the flying list as a ring -----

  lemma InsertBehindHead(head: Entry, items: seq<Entry>, p: nat, entry: Entry)
    requires p <= |items|
    ensures Inserted([head] + items, p + 1, entry) == [head] + (items[..p] + [entry] + items[p..])
  {
    var ring := [head] + items;
    assert ring[..p + 1] == [head] + items[..p] && ring[p + 1..] == items[p..];
  }

  /** The insertions of add_to_flying_list(): into an empty list, at the end, or
      before the entry at place p */
  method Link(entry: Entry, head: Entry, items: seq<Entry>, p: nat)
    requires Ring([head] + items) && entry !in [head] + items && p <= |items|
    modifies [head] + items, entry
    ensures Ring([head] + (items[..p] + [entry] + items[p..]))
  {
    ghost var ring := [head] + items;
    InsertBehindHead(head, items, p, entry);
    if items == [] {
      ListAdd(entry, head, ring, 0);
    } else if p == |items| {
      ListAddTail(entry, head, ring, 0);
    } else {
      ListAddTail(entry, items[p], ring, p + 1);
    }
  }

  /** The removal in remove_from_flying_list() */
  method Unlink(entry: Entry, ghost head: Entry, ghost items: seq<Entry>, ghost p: nat)
    requires Ring([head] + items) && p < |items| && items[p] == entry
    modifies [head] + items
    ensures Ring([head] + (items[..p] + items[p + 1..])) && entry !in items[..p] + items[p + 1..]
  {
    ghost var ring := [head] + items;
    ListDel(entry, ring, p + 1);
    assert Removed(ring, p + 1) == [head] + (items[..p] + items[p + 1..]) by {
      assert ring[..p + 1] == [head] + items[..p] && ring[p + 2..] == items[p + 1..];
    }
  }

  /** Walking the ring along next from the head meets every entry once, in
      order, and comes back to the head. */
  function Walk(from: Entry, steps: nat, ring: set<Entry>): Entry?
    reads ring
    decreases steps
  {
    if steps == 0 then from
    else if from !in ring || from.next == null then null
    else Walk(from.next, steps - 1, ring)
  }

  lemma {:induction false} WalkMeetsAll(ring: seq<Entry>, i: nat, steps: nat)
    requires Ring(ring) && i + steps <= |ring|
    ensures i < |ring|
            ==> Walk(ring[i], steps, set e | e in ring) == (if i + steps < |ring| then ring[i + steps] else ring[0])
    decreases steps
  {
    if i < |ring| && steps > 0 {
      assert Linked(ring[i], ring[Succ(|ring|, i)]);
      if i + 1 < |ring| {
        WalkMeetsAll(ring, i + 1, steps - 1);
      }
    }
  }
}
