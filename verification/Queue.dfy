/** The heap-allocated FIFO between the MQTT callback and the writer, refining a sequence. */
module Queue {
  import opened Basics

  class Node<T> {
    const s: T
    var next: Node?<T>

    constructor (s: T)
      ensures this.s == s && next == null
    {
      this.s, this.next := s, null;
    }
  }

  /** The node after node i, or null. */
  function Following<T>(nodes: seq<Node<T>>, i: nat): Node?<T> {
    if i + 1 < |nodes| then nodes[i + 1] else null
  }

  function Values<T>(nodes: seq<Node<T>>): (r: seq<T>)
    ensures |r| == |nodes|
  {
    seq(|nodes|, i requires 0 <= i < |nodes| => nodes[i].s)
  }

  class Fifo<T(0)> {
    var head: Node?<T>
    var tail: Node?<T>
    var len: nat
    var maxLen: nat
    ghost var nodes: seq<Node<T>>

    /** The list is acyclic, ends in a null pointer and at tail, and tail is null exactly when head is. */
    ghost predicate Valid()
      reads this, nodes
    {
      && (forall i, j :: 0 <= i < j < |nodes| ==> nodes[i] != nodes[j])
      && head == (if |nodes| == 0 then null else nodes[0])
      && tail == (if |nodes| == 0 then null else nodes[|nodes| - 1])
      && (forall i {:trigger nodes[i].next} :: 0 <= i < |nodes| ==> nodes[i].next == Following(nodes, i))
      && len == |nodes| <= maxLen
    }

    ghost function Contents(): (r: seq<T>)
      reads this`nodes
      ensures |r| == |nodes|
    {
      Values(nodes)
    }

    constructor ()
      ensures Valid() && Contents() == [] && maxLen == 0
    {
      head, tail, len, maxLen, nodes := null, null, 0, 0, [];
    }

    /** queue_push. Without memory for a node the sample is not queued, and the caller's buffer is freed. */
    method Push(s: T, memory: bool) returns (queued: bool)
      requires Valid()
      modifies this, nodes
      ensures Valid() && queued == memory
      ensures Contents() == if memory then old(Contents()) + [s] else old(Contents())
      ensures maxLen == if |Contents()| > old(maxLen) then |Contents()| else old(maxLen)
      ensures forall n :: n in nodes ==> n in old(nodes) || fresh(n)
    {
      if !memory { return false; }
      var n := new Node<T>(s);
      Append(n);
      queued := true;
    }

    /** The critical section of queue_push. */
    method Append(n: Node<T>)
      requires Valid() && n !in nodes && n.next == null
      modifies this, if nodes == [] then {} else {nodes[|nodes| - 1]}
      ensures Valid() && nodes == old(nodes) + [n]
      ensures maxLen == if |nodes| > old(maxLen) then |nodes| else old(maxLen)
    {
      if tail != null {
        tail.next := n;
      } else {
        head := n;
      }
      tail := n;
      len := len + 1;
      if len > maxLen { maxLen := len; }
      nodes := nodes + [n];
    }

    /** Unlinking the head. */
    method TakeHead() returns (s: T)
      requires Valid() && head != null
      modifies this
      ensures Valid() && nodes == old(nodes)[1..] && s == old(Contents())[0] && Contents() == old(Contents())[1..]
      ensures maxLen == old(maxLen)
    {
      var q := head;
      head := q.next;
      if head == null { tail := null; }
      len := len - 1;
      nodes := nodes[1..];
      s := q.s;
    }

    /** queue_pop_batch once its wait is over; the wait itself is part of the transition system. */
    method PopBatch(out: array<T>, max: nat) returns (n: nat)
      requires Valid() && max <= out.Length
      modifies this, out
      ensures Valid() && n == Min(|old(Contents())|, max)
      ensures out[..n] == old(Contents())[..n] && Contents() == old(Contents())[n..]
      ensures out[n..] == old(out[..])[n..]
      ensures maxLen == old(maxLen) && nodes == old(nodes)[n..]
    {
      n := 0;
      ghost var all := Contents();
      while head != null && n < max
        invariant Valid() && n <= |all| && n <= max && nodes == old(nodes)[n..] && maxLen == old(maxLen)
        invariant Contents() == all[n..]
        invariant out[..n] == all[..n] && out[n..] == old(out[..])[n..]
        decreases |nodes|
      {
        var s := TakeHead();
        out[n] := s;
        n := n + 1;
      }
    }
  }
}
