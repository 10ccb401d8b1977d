// The linked FIFO of src/queue.c: head and tail pointers, a size, a shutdown flag and an optional
// eventfd counter that every push increments. The mutex makes each method one atomic step.
module Queues {
  import opened Bytes

  class Node<T> {
    const item: T
    var next: Node?<T>

    constructor (item: T)
      ensures this.item == item && next == null
    {
      this.item := item;
      next := null;
    }
  }

  ghost function Items<T>(ns: seq<Node<T>>): (s: seq<T>)
    ensures |s| == |ns|
  {
    seq(|ns|, i requires 0 <= i < |ns| => ns[i].item)
  }

  class Queue<T> {
    var head: Node?<T>
    var tail: Node?<T>
    var size: nat
    var shutdown: bool
    var notify: bool      // is the eventfd enabled?
    var wakeups: nat      // the eventfd counter

    ghost var spine: seq<Node<T>>
    ghost var Repr: set<object>

    ghost predicate Valid()
      reads this, Repr
      ensures Valid() ==> this in Repr
    {
      && this in Repr
      && (forall n :: n in spine ==> n in Repr)
      && size == |spine|
      && (if spine == [] then head == null && tail == null
          else head == spine[0] && tail == spine[|spine| - 1] && spine[|spine| - 1].next == null)
      && (forall i :: 0 <= i < |spine| - 1 ==> spine[i].next == spine[i + 1])
    }

    ghost function Contents(): (s: seq<T>)
      reads this, Repr
      requires Valid()
      ensures |s| == size
    {
      Items(spine)
    }

    constructor ()
      ensures Valid() && fresh(Repr) && Contents() == [] && !shutdown && !notify && wakeups == 0
    {
      head, tail, size, shutdown := null, null, 0, false;
      notify, wakeups := false, 0;
      spine := [];
      Repr := {this};
    }

    method EnableNotify()
      requires Valid()
      modifies this`notify, this`wakeups
      ensures Valid() && notify && wakeups == 0
    {
      notify, wakeups := true, 0;
    }

    method Push(item: T)
      requires Valid()
      modifies Repr
      ensures Valid() && fresh(Repr - old(Repr))
      ensures Contents() == old(Contents()) + [item]
      ensures shutdown == old(shutdown) && notify == old(notify)
      ensures wakeups == old(wakeups) + (if notify then 1 else 0)
    {
      var n := new Node(item);
      if tail != null {
        tail.next := n;
      } else {
        head := n;
      }
      tail := n;
      size := size + 1;
      if notify {
        wakeups := wakeups + 1;
      }
      spine := spine + [n];
      Repr := Repr + {n};
    }

    method PopHead() returns (item: T)
      requires Valid() && Contents() != []
      modifies this`head, this`tail, this`size, this`spine
      ensures Valid() && item == old(Contents())[0] && Contents() == old(Contents())[1..]
    {
      var n := head;
      item := n.item;
      head := n.next;
      if head == null {
        tail := null;
      }
      size := size - 1;
      spine := spine[1..];
    }

    // Empty now; what is still to come is not this method's business.
    method TryPop() returns (item: Option<T>)
      requires Valid()
      modifies this`head, this`tail, this`size, this`spine
      ensures Valid()
      ensures if old(Contents()) == [] then item == None && Contents() == []
              else item == Some(old(Contents())[0]) && Contents() == old(Contents())[1..]
    {
      if size == 0 {
        return None;
      }
      var x := PopHead();
      return Some(x);
    }

    // The blocking pop from the moment its wait ends: something is there, or shutdown was called.
    method Pop() returns (item: Option<T>)
      requires Valid() && (Contents() != [] || shutdown)
      modifies this`head, this`tail, this`size, this`spine
      ensures Valid()
      ensures item == None <==> old(Contents()) == []
      ensures item.Some? ==> item.value == old(Contents())[0] && Contents() == old(Contents())[1..]
      ensures item == None ==> shutdown && Contents() == []
    {
      item := TryPop();
    }

    method Shutdown()
      requires Valid()
      modifies this`shutdown, this`wakeups
      ensures Valid() && shutdown && Contents() == old(Contents())
      ensures wakeups == old(wakeups) + (if notify then 1 else 0)
    {
      shutdown := true;
      if notify {
        wakeups := wakeups + 1;
      }
    }
  }

  // A list that is filled at one end and emptied at the other, as its users see it: the items alone.
  // On Contents(), Queue's Push and TryPop do exactly what these do on items.
  class Fifo<T> {
    var items: seq<T>

    constructor ()
      ensures items == []
    {
      items := [];
    }

    method Push(item: T)
      modifies this
      ensures items == old(items) + [item]
    {
      items := items + [item];
    }

    method TryPop() returns (item: Option<T>)
      modifies this
      ensures if old(items) == [] then item == None && items == []
              else item == Some(old(items)[0]) && items == old(items)[1..]
    {
      if |items| == 0 {
        return None;
      }
      item := Some(items[0]);
      items := items[1..];
    }
  }
}
