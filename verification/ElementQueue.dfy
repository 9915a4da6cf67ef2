/** The pointer-linked queue of the work pool, in which the first element caches
    the last one. */
module ElementQueue {
  import opened Wrappers

  class Element<T> {
    var next: Element?<T>
    var prev: Element?<T>
    var last: Element?<T>
    const payload: T

    constructor (payload: T, prev: Element?<T>)
      ensures this.payload == payload && this.prev == prev && next == null && last == null
    {
      this.payload := payload;
      this.prev := prev;
      next, last := null, null;
    }
  }

  ghost function Payloads<T>(chain: seq<Element<T>>): (s: seq<T>)
    ensures |s| == |chain|
  {
    seq(|chain|, i requires 0 <= i < |chain| => chain[i].payload)
  }

  /** Element i of the chain points to its neighbours. */
  ghost predicate Linked<T>(chain: seq<Element<T>>, i: nat)
    requires i < |chain|
    reads chain[i]
  {
    && chain[i].next == (if i + 1 < |chain| then chain[i + 1] else null)
    && chain[i].prev == (if i > 0 then chain[i - 1] else null)
  }

  class Queue<T> {
    var head: Element?<T>
    ghost var chain: seq<Element<T>>

    /** The elements from the head on, linked both ways; the head knows the tail. */
    ghost predicate Valid()
      reads this, chain
    {
      && (head == null <==> chain == [])
      && (head != null ==> head == chain[0] && head.last == chain[|chain| - 1])
      && (forall i, j | 0 <= i < j < |chain| :: chain[i] != chain[j])
      && forall i: nat | i < |chain| :: Linked(chain, i)
    }

    /** The payloads in the order in which queue_pop() returns them. */
    ghost function Contents(): seq<T>
      reads this
    {
      Payloads(chain)
    }

    constructor ()
      ensures Valid() && Contents() == []
    {
      head := null;
      chain := [];
    }

    /** queue_add() */
    method Add(ptr: T)
      requires Valid()
      modifies this, chain
      ensures Valid() && Contents() == old(Contents()) + [ptr]
      ensures |chain| == |old(chain)| + 1 && chain[..|old(chain)|] == old(chain) && fresh(chain[|old(chain)|])
    {
      if head == null {
        var newEl := new Element(ptr, null);
        newEl.last := newEl;
        head := newEl;
        chain := [newEl];
      } else {
        var qe := head;
        assert Linked(chain, |chain| - 1);
        var newEl := new Element(ptr, qe.last);
        qe.last.next := newEl;
        qe.last := newEl;
        ghost var n := |chain|;
        chain := chain + [newEl];
        forall i: nat | i < n + 1 ensures Linked(chain, i) {
          if i < n { assert old(Linked(chain, i)); }
        }
      }
    }

    /** queue_pop() */
    method Pop() returns (result: Option<T>)
      requires Valid()
      modifies this, chain
      ensures Valid()
      ensures old(Contents()) == [] ==> result == None && Contents() == []
      ensures old(Contents()) != [] ==> result == Some(old(Contents())[0]) && Contents() == old(Contents())[1..]
      ensures chain == if old(chain) == [] then [] else old(chain)[1..]
    {
      if head == null {
        return None;
      }
      var qe := head;
      assert Linked(chain, 0);
      if qe.next != null {
        qe.next.prev := null;
        qe.next.last := qe.last;
      }
      result := Some(qe.payload);
      head := qe.next;
      chain := chain[1..];
      forall i: nat | i < |chain| ensures Linked(chain, i) {
        assert old(Linked(chain, i + 1));
      }
    }
  }
}
