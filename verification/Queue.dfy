/**
  The linked FIFO of queue.c, which holds the encrypted packets waiting to be written, and
  the linked list of packets held back during key exchange (packet.c).
*/
module Queue {
  class Node<T> {
    var item: T
    var link: Node?<T>

    constructor (item: T)
      ensures this.item == item && link == null
    {
      this.item, link := item, null;
    }
  }

  /** The nodes of `spine`, all different, are linked from head to tail. */
  ghost predicate Linked<T>(head: Node?<T>, tail: Node?<T>, spine: seq<Node<T>>)
    reads spine
  {
    && (if spine == [] then head == null && tail == null
        else head == spine[0] && tail == spine[|spine| - 1] && spine[|spine| - 1].link == null)
    && (forall i :: 0 <= i < |spine| - 1 ==> spine[i].link == spine[i + 1])
    && (forall i, j :: 0 <= i < j < |spine| ==> spine[i] != spine[j])
  }

  ghost function ItemsOf<T>(spine: seq<Node<T>>): (q: seq<T>)
    reads spine
    ensures |q| == |spine|
  {
    seq(|spine|, i requires 0 <= i < |spine| reads spine => spine[i].item)
  }

  class Queue<T> {
    var head: Node?<T>
    var tail: Node?<T>
    var count: nat
    /** The nodes from head to tail. */
    ghost var spine: seq<Node<T>>

    ghost predicate Valid()
      reads this, spine
    {
      count == |spine| && Linked(head, tail, spine)
    }

    ghost function Items(): (q: seq<T>)
      reads this, spine
      ensures |q| == |spine|
    {
      ItemsOf(spine)
    }

    constructor ()
      ensures Valid() && Items() == [] && spine == []
    {
      head, tail, count, spine := null, null, 0, [];
    }

    method IsEmpty() returns (b: bool)
      requires Valid()
      ensures b <==> Items() == []
    {
      b := head == null;
    }

    method Examine() returns (item: T)
      requires Valid() && Items() != []
      ensures item == Items()[0]
    {
      item := head.item;
    }

    /** What the caller of examine does to the item in place. */
    method UpdateHead(item: T)
      requires Valid() && Items() != []
      modifies head
      ensures Valid() && Items() == old(Items())[0 := item]
    {
      head.item := item;
    }

    method Enqueue(item: T)
      requires Valid()
      modifies this, tail
      ensures fresh(set n <- spine | n !in old(spine))
      ensures Valid() && Items() == old(Items()) + [item] && count == old(count) + 1
    {
      var newlink := new Node(item);
      assert forall i :: 0 <= i < |spine| ==> spine[i] != newlink;
      if tail != null { tail.link := newlink; }
      tail := newlink;
      if head == null { head := newlink; }
      count := count + 1;
      spine := spine + [newlink];
    }

    method Dequeue() returns (item: T)
      requires Valid() && Items() != []
      modifies this
      ensures Valid() && item == old(Items())[0] && Items() == old(Items())[1..] && count == old(count) - 1
    {
      item := head.item;
      var oldhead := head;
      if oldhead.link != null {
        head := oldhead.link;
      } else {
        head, tail := null, null;
      }
      count := count - 1;
      spine := spine[1..];
    }
  }

  /** A linked list with head and tail, as the reply queue is kept. */
  class PacketList<T> {
    var head: Node?<T>
    var tail: Node?<T>
    ghost var spine: seq<Node<T>>

    ghost predicate Valid()
      reads this, spine
    {
      Linked(head, tail, spine)
    }

    ghost function Items(): (q: seq<T>)
      reads this, spine
      ensures |q| == |spine|
    {
      ItemsOf(spine)
    }

    constructor ()
      ensures Valid() && Items() == []
    {
      head, tail, spine := null, null, [];
    }

    /** enqueue_reply_packet: the packet becomes the last of the list. */
    method EnqueueReply(payload: T)
      requires Valid()
      modifies this, tail
      ensures Valid() && Items() == old(Items()) + [payload]
    {
      var newItem := new Node(payload);
      assert forall i :: 0 <= i < |spine| ==> spine[i] != newItem;
      if tail != null { tail.link := newItem; } else { head := newItem; }
      tail := newItem;
      spine := spine + [newItem];
    }

    /** The walk of maybe_flush_reply_queue: every packet once, first to last, and the list is
        empty afterwards; nothing happens while data is not allowed. */
    method FlushReplies(dataallowed: bool) returns (sent: seq<T>)
      requires Valid()
      modifies this
      ensures Valid()
      ensures dataallowed ==> sent == old(Items()) && Items() == []
      ensures !dataallowed ==> sent == [] && Items() == old(Items())
    {
      sent := [];
      if !dataallowed { return; }
      ghost var i := 0;
      var currItem := head;
      while currItem != null
        invariant Valid() && spine == old(spine) && 0 <= i <= |spine|
        invariant if i < |spine| then currItem == spine[i] else currItem == null
        invariant sent == old(Items())[..i]
        decreases |spine| - i
      {
        sent := sent + [currItem.item];
        currItem := currItem.link;
        i := i + 1;
      }
      head, tail, spine := null, null, [];
    }
  }
}
