/**
 * The linked task queue of thread_handler.c. `queue_tail` is not a pointer to the last node
 * but to the pointer cell that leads to it, so the tail is modelled as a cell.
 * The node a pull unlinks is retained: the list logic goes on reading its `next` cell.
 */
module TaskQueue {
  import opened Wrappers

  class Node {
    var descriptor: int
    var next: Node?
    var previous: Node?

    constructor ()
      ensures descriptor == 0 && next == null && previous == null
    {
      descriptor, next, previous := 0, null, null;
    }
  }

  /** What `queue_tail` points at: the variable `queue_head`, or the `next` field of a node. */
  datatype Cell = HeadCell | NextOf(node: Node)

  const WIDTH := 0x1_0000_0000

  /** The conversion of a `uintptr_t` to the `int` field: the low 32 bits, read as signed. */
  function ToInt(x: nat): (i: int)
    ensures -0x8000_0000 <= i < 0x8000_0000
    ensures (x - i) % 0x1_0000_0000 == 0
  {
    var low := x % WIDTH;
    if low < 0x8000_0000 then low else low - WIDTH
  }

  class Queue {
    var head: Node
    var tail: Cell
    var numConnections: int
    ghost var spine: seq<Node>  // the sentinel, then the linked nodes in order

    /** The node a read through the tail cell yields; null if the cell holds null. */
    function TailNode(): Node?
      reads this, if tail.NextOf? then {tail.node} else {}
    {
      match tail
      case HeadCell => head
      case NextOf(n) => n.next
    }

    /** The chain from the sentinel is `spine`: no repetition, and `previous` mirrors `next`. */
    ghost predicate Linked()
      reads this, spine
    {
      && |spine| >= 1 && spine[0] == head
      && (forall i, j :: 0 <= i < j < |spine| ==> spine[i] != spine[j])
      && (forall i :: 0 <= i < |spine| - 1 ==> spine[i].next == spine[i + 1])
      && (forall i :: 0 <= i < |spine| - 1 ==> spine[i + 1].previous == spine[i])
      && spine[|spine| - 1].next == null
    }

    /**
     * Whose cell the tail is: the last node's predecessor, except that with exactly one task
     * linked it may be a node that is linked no more.
     */
    ghost predicate TailOwned()
      reads this
    {
      match tail
      case HeadCell => |spine| == 1
      case NextOf(n) => |spine| >= 2 && (n == spine[|spine| - 2] || (|spine| == 2 && n !in spine))
    }

    ghost predicate Valid()
      reads this, spine, if tail.NextOf? then {tail.node} else {}
    {
      && Linked() && TailOwned()
      && TailNode() == spine[|spine| - 1]
      && numConnections == |spine| - 1
    }

    /** The queued descriptors, oldest first. */
    ghost function Contents(): (s: seq<int>)
      reads this, spine
      ensures |spine| >= 1 ==> |s| == |spine| - 1
    {
      if |spine| == 0 then []
      else seq(|spine| - 1, i requires 0 <= i < |spine| - 1 reads this, spine => spine[i + 1].descriptor)
    }

    /** `init_thread_handler`'s last step. */
    constructor ()
      ensures Valid() && Contents() == [] && fresh(spine) && tail == HeadCell
    {
      var sentinel := new Node();
      head, tail, numConnections, spine := sentinel, HeadCell, 0, [sentinel];
    }

    /** `enqueue_task` between lock and unlock; `memory` says whether calloc succeeds. */
    method Enqueue(clientDescriptor: nat, memory: bool) returns (ok: bool)
      requires Valid()
      modifies this, TailNode()`next
      ensures Valid() && ok == memory
      ensures !ok ==> Contents() == old(Contents()) && spine == old(spine) && tail == old(tail)
      ensures ok ==> Contents() == old(Contents()) + [ToInt(clientDescriptor)]
      ensures ok ==> |spine| == old(|spine|) + 1 && fresh(spine[|spine| - 1]) && spine[..|spine| - 1] == old(spine)
      ensures ok ==> tail == NextOf(old(TailNode()))
      ensures head == old(head)
    {
      var last := TailNode();
      if !memory {
        last.next := null;
        return false;
      }
      ghost var before := Contents();
      var task := new Node();
      last.next := task;
      last.next.previous := last;
      tail := NextOf(last);
      last.next.descriptor := ToInt(clientDescriptor);
      numConnections := numConnections + 1;
      spine := spine + [task];
      assert forall i :: 0 <= i < |before| ==> Contents()[i] == before[i];
      ok := true;
    }

    /**
     * `_pull_next_task` between lock and unlock: None is "no task found"; otherwise the task is
     * unlinked and its descriptor returned, -1 standing for any negative one.
     */
    method PullNextTask() returns (result: Option<int>)
      requires Valid()
      modifies this, head`next, (if |spine| > 2 then {spine[2]} else {})`previous
      ensures Valid()
      ensures result.None? <==> old(Contents()) == []
      ensures result.None? ==> spine == old(spine) && Contents() == []
      ensures result.Some? ==>
        var first := old(Contents())[0];
        && result.value == (if first < 0 then -1 else first)
        && Contents() == old(Contents())[1..]
        && spine == [old(spine[0])] + old(spine[2..])
      // the tail cell is left with an unlinked node exactly when two tasks become one
      ensures result.None? ==> tail == old(tail)
      ensures result.Some? ==> (tail.NextOf? && tail.node !in spine <==> old(|spine|) == 3)
      ensures old(|spine|) == 3 ==> tail == NextOf(old(spine[1]))
      ensures head == old(head)
    {
      var task := head.next;
      ghost var s, before := spine, Contents();
      assert |s| > 1 ==> task == s[1];
      if task == null {
        assert |s| == 1;
        return None;
      }
      var descriptor := task.descriptor;
      assert descriptor == before[0];
      if descriptor < 0 {
        descriptor := -1;
      }
      if task == TailNode() {
        assert |s| == 2;
        head.next := null;
        tail := HeadCell;
      } else {
        assert s[1].next == s[2];
        head.next := head.next.next;
        head.next.previous := head;
      }
      numConnections := numConnections - 1;
      spine := [s[0]] + s[2..];
      assert forall i :: 1 <= i < |spine| ==> spine[i] == s[i + 1];
      assert Contents() == before[1..] by {
        assert forall i :: 0 <= i < |spine| - 1 ==> Contents()[i] == s[i + 2].descriptor;
      }
      result := Some(descriptor);
    }
  }
}
