/**
 * src/queue.c: circular doubly-linked lists with a sentinel. The links are fields of the
 * listed object itself, so a node can be on one list at a time.
 */
module IntrusiveQueue {
  import opened Basics

  /** A process control block, or the header-only node that serves as a sentinel. */
  class Node {
    var next: Node?
    var prev: Node?
    const stackbase: nat
    const addr: nat
    const pid: nat
    var awakenTick: nat

    constructor (addr: nat, pid: nat, stackbase: nat)
      ensures this.addr == addr && this.pid == pid && this.stackbase == stackbase
    {
      this.next := null;
      this.prev := null;
      this.addr := addr;
      this.pid := pid;
      this.stackbase := stackbase;
      this.awakenTick := 0;
    }
  }

  /** Position i of the ring: the sentinel, the members in order, and the sentinel again. */
  ghost function At(sentinal: Node, c: seq<Node>, i: nat): Node
    requires i <= |c| + 1
  {
    if i == 0 || i == |c| + 1 then sentinal else c[i - 1]
  }

  /** Positions i and i + 1 point at each other. */
  ghost predicate LinkOk(sentinal: Node, c: seq<Node>, i: nat)
    requires i <= |c|
    reads sentinal`next, sentinal`prev, c`next, c`prev
  {
    && At(sentinal, c, i).next == At(sentinal, c, i + 1)
    && At(sentinal, c, i + 1).prev == At(sentinal, c, i)
  }

  class Queue {
    const sentinal: Node
    var length: int
    ghost var contents: seq<Node>

    ghost function Nodes(): set<Node>
      reads this
    {
      {sentinal} + (set n | n in contents)
    }

    ghost predicate Valid()
      reads this, sentinal`next, sentinal`prev, contents`next, contents`prev
    {
      && length == |contents|
      && NoDup(contents) && sentinal !in contents
      && forall i :: 0 <= i <= |contents| ==> LinkOk(sentinal, contents, i)
    }

    /** queue_new after both allocations have succeeded. */
    constructor (sentinal: Node)
      modifies sentinal`next, sentinal`prev
      ensures Valid() && contents == [] && this.sentinal == sentinal
    {
      this.sentinal := sentinal;
      length := 0;
      contents := [];
      new;
      sentinal.next := sentinal;
      sentinal.prev := sentinal;
    }
  }

  /** The nodes whose links an operation on a queue may change. */
  ghost function NodesOf(queue: Queue?): set<Node>
    reads queue
  {
    if queue == null then {} else queue.Nodes()
  }

  ghost function OptNode(item: Node?): set<Node> {
    if item == null then {} else {item}
  }

  method QueuePrepend(queue: Queue?, item: Node?) returns (r: int)
    requires queue != null ==> queue.Valid() && item !in NodesOf(queue)
    modifies queue, NodesOf(queue)`next, NodesOf(queue)`prev, OptNode(item)`next, OptNode(item)`prev
    ensures queue != null ==> queue.Valid()
    ensures r == if queue == null || item == null then -1 else 0
    ensures r == 0 ==> queue.contents == [item] + old(queue.contents)
    ensures r == -1 && queue != null ==> unchanged(queue) && unchanged(queue.Nodes())
    ensures r == -1 && item != null ==> unchanged(item)
  {
    if queue == null || item == null { return -1; }
    ghost var c := queue.contents;
    assert LinkOk(queue.sentinal, c, 0);
    item.next := queue.sentinal.next;
    item.prev := queue.sentinal;
    item.next.prev := item;
    item.prev.next := item;
    queue.length := queue.length + 1;
    queue.contents := [item] + c;
    forall i | 0 <= i <= |queue.contents|
      ensures LinkOk(queue.sentinal, queue.contents, i)
    {
      assert i > 0 ==> old(LinkOk(queue.sentinal, c, i - 1));
    }
    return 0;
  }

  /** The statements of queue_append behind its checks, whatever the links are like. */
  method LinkLast(queue: Queue, item: Node)
    requires item != queue.sentinal && queue.sentinal.prev != null
    modifies queue`length, queue.sentinal`prev, item`next, item`prev, OptNode(queue.sentinal.prev)`next
    ensures queue.length == old(queue.length) + 1
    ensures queue.sentinal.prev == item && item.prev == old(queue.sentinal.prev) && item.prev.next == item
    ensures item.next == if old(queue.sentinal.prev) == item then item else queue.sentinal
  {
    item.next := queue.sentinal;
    item.prev := queue.sentinal.prev;
    item.next.prev := item;
    item.prev.next := item;
    queue.length := queue.length + 1;
  }

  /** And those of queue_dequeue. */
  method UnlinkFirst(queue: Queue) returns (toDequeue: Node)
    requires queue.sentinal.next != null && queue.sentinal.next.next != null && queue.sentinal.next.prev != null
    modifies queue`length, OptNode(queue.sentinal.next.prev)`next, OptNode(queue.sentinal.next.next)`prev
    ensures queue.length == old(queue.length) - 1
    ensures toDequeue == old(queue.sentinal.next)
    ensures toDequeue.next == old(toDequeue.next) && toDequeue.prev == old(toDequeue.prev)
    ensures toDequeue.prev.next == toDequeue.next && toDequeue.next.prev == toDequeue.prev
  {
    toDequeue := queue.sentinal.next;
    toDequeue.prev.next := toDequeue.next;
    toDequeue.next.prev := toDequeue.prev;
    queue.length := queue.length - 1;
  }

  method QueueAppend(queue: Queue?, item: Node?) returns (r: int)
    requires queue != null ==> queue.Valid() && item !in NodesOf(queue)
    modifies queue, NodesOf(queue)`next, NodesOf(queue)`prev, OptNode(item)`next, OptNode(item)`prev
    ensures queue != null ==> queue.Valid()
    ensures r == if queue == null || item == null then -1 else 0
    ensures r == 0 ==> queue.contents == old(queue.contents) + [item]
    ensures r == -1 && queue != null ==> unchanged(queue) && unchanged(queue.Nodes())
    ensures r == -1 && item != null ==> unchanged(item)
  {
    if queue == null || item == null { return -1; }
    ghost var c := queue.contents;
    assert LinkOk(queue.sentinal, c, |c|);
    LinkLast(queue, item);
    queue.contents := c + [item];
    forall i | 0 <= i <= |queue.contents|
      ensures LinkOk(queue.sentinal, queue.contents, i)
    {
      assert i <= |c| ==> old(LinkOk(queue.sentinal, c, i));
    }
    return 0;
  }

  /** The statements that the two deletions share: the neighbours of a node bypass it. */
  method CutOut(queue: Queue, node: Node, ghost k: nat)
    requires queue.Valid() && k < |queue.contents| && queue.contents[k] == node
    modifies queue, queue.Nodes()`next, queue.Nodes()`prev
    ensures queue.Valid() && queue.contents == Without(old(queue.contents), k)
  {
    ghost var c := queue.contents;
    assert LinkOk(queue.sentinal, c, k) && LinkOk(queue.sentinal, c, k + 1);
    node.next.prev := node.prev;
    node.prev.next := node.next;
    queue.length := queue.length - 1;
    queue.contents := Without(c, k);
    WithoutMembers(c, k);
    forall i | 0 <= i <= |queue.contents|
      ensures LinkOk(queue.sentinal, queue.contents, i)
    {
      assert i < k ==> old(LinkOk(queue.sentinal, c, i));
      assert i > k ==> old(LinkOk(queue.sentinal, c, i + 1));
    }
  }

  /** On an empty or missing queue the item is NULL. */
  method QueueDequeue(queue: Queue?) returns (r: int, item: Node?)
    requires queue != null ==> queue.Valid()
    modifies queue, NodesOf(queue)`next, NodesOf(queue)`prev
    ensures queue != null ==> queue.Valid()
    ensures r == if queue == null || old(queue.contents) == [] then -1 else 0
    ensures r == 0 ==> old(queue.contents) == [item] + queue.contents
    ensures r == -1 ==> item == null
    ensures r == -1 && queue != null ==> unchanged(queue) && unchanged(queue.Nodes())
  {
    if queue == null || queue.length == 0 { return -1, null; }
    ghost var c := queue.contents;
    assert LinkOk(queue.sentinal, c, 0) && LinkOk(queue.sentinal, c, 1);
    var toDequeue := UnlinkFirst(queue);
    queue.contents := c[1..];
    forall i | 0 <= i <= |queue.contents|
      ensures LinkOk(queue.sentinal, queue.contents, i)
    {
      assert old(LinkOk(queue.sentinal, c, i + 1));
    }
    return 0, toDequeue;
  }

  /** Deletion in constant time; the caller knows that the item is listed. */
  method QueueDeleteFast(queue: Queue?, item: Node, ghost k: nat) returns (r: int)
    requires queue != null ==> queue.Valid() && k < |queue.contents| && queue.contents[k] == item
    modifies queue, NodesOf(queue)`next, NodesOf(queue)`prev
    ensures queue != null ==> queue.Valid() && queue.contents == Without(old(queue.contents), k)
    ensures r == if queue == null then -1 else 0
  {
    if queue == null { return -1; }
    CutOut(queue, item, k);
    return 0;
  }

  /** Deletion by search: an item that is not listed is reported and nothing changes. */
  method QueueDelete(queue: Queue?, item: Node?) returns (r: int)
    requires queue != null ==> queue.Valid()
    modifies queue, NodesOf(queue)`next, NodesOf(queue)`prev
    ensures queue != null ==> queue.Valid()
    ensures r == if queue != null && item in old(queue.contents) then 0 else -1
    ensures r == 0 ==> exists k :: 0 <= k < |old(queue.contents)| && old(queue.contents)[k] == item
                                && queue.contents == Without(old(queue.contents), k)
    ensures r == -1 && queue != null ==> unchanged(queue) && unchanged(queue.Nodes())
  {
    if queue == null { return -1; }
    ghost var c := queue.contents;
    var cur := queue.sentinal.next;
    ghost var k := 0;
    assert LinkOk(queue.sentinal, c, 0);
    while cur != queue.sentinal
      invariant unchanged(queue) && unchanged(queue.Nodes())
      invariant k <= |c| && cur == At(queue.sentinal, c, k + 1)
      invariant item !in c[..k]
      decreases |c| - k
    {
      if cur == item {
        CutOut(queue, cur, k);
        return 0;
      }
      assert LinkOk(queue.sentinal, c, k + 1);
      cur := cur.next;
      k := k + 1;
    }
    return -1;
  }

  /** The first member that satisfies f. */
  method QueueFind(queue: Queue?, f: (Node, nat) ~> bool, arg: nat) returns (r: int, item: Node?, ghost k: nat)
    requires queue != null ==> queue.Valid() && forall n :: n in queue.contents ==> f.requires(n, arg)
    ensures r == 0 || r == -1
    ensures r == 0 ==> queue != null && k < |queue.contents| && item == queue.contents[k] && f(item, arg)
    ensures r == 0 ==> forall i :: 0 <= i < k ==> !f(queue.contents[i], arg)
    ensures r == -1 ==> item == null && (queue != null ==> forall n :: n in queue.contents ==> !f(n, arg))
  {
    k := 0;
    if queue == null { return -1, null, 0; }
    var cur := queue.sentinal.next;
    assert LinkOk(queue.sentinal, queue.contents, 0);
    while cur != queue.sentinal
      invariant k <= |queue.contents| && cur == At(queue.sentinal, queue.contents, k + 1)
      invariant forall i :: 0 <= i < k ==> !f(queue.contents[i], arg)
      decreases |queue.contents| - k
    {
      assert cur in queue.contents;
      if f(cur, arg) { return 0, cur, k; }
      assert LinkOk(queue.sentinal, queue.contents, k + 1);
      cur := cur.next;
      k := k + 1;
    }
    return -1, null, k;
  }

  method QueueLength(queue: Queue?) returns (n: int)
    requires queue != null ==> queue.Valid()
    ensures n == if queue == null then -1 else |queue.contents|
  {
    if queue == null { return -1; }
    return queue.length;
  }

  // ----- what becomes of the links when a listed node is appended -----

  /** Following `next` never leads out of the set. */
  ghost predicate Closed(nodes: set<Node>)
    reads nodes`next
  {
    forall n :: n in nodes ==> n.next != null && n.next in nodes
  }

  ghost function Members(c: seq<Node>): set<Node> {
    set n | n in c
  }

  /** The members up to position k. */
  ghost function Front(c: seq<Node>, k: nat): set<Node>
    requires k < |c|
  {
    set i | 0 <= i <= k :: c[i]
  }

  /**
   * The loop of queue_find, cut off after a number of rounds: with a closed set that holds the
   * first node but not the sentinel, and nobody in it to be found, it never gets to its end.
   */
  method FindRounds(queue: Queue, f: (Node, nat) ~> bool, arg: nat, rounds: nat, ghost nodes: set<Node>) returns (cur: Node)
    requires Closed(nodes) && queue.sentinal !in nodes && queue.sentinal.next != null && queue.sentinal.next in nodes
    requires forall n :: n in nodes ==> f.requires(n, arg) && !f(n, arg)
    ensures cur in nodes && cur != queue.sentinal
  {
    cur := queue.sentinal.next;
    for i := 0 to rounds
      invariant cur in nodes
    {
      if cur == queue.sentinal || f(cur, arg) { break; }
      cur := cur.next;
    }
  }

  /** Appending the last member again: it follows itself, and no walk comes back to the sentinel. */
  method AppendLastAgain(queue: Queue, item: Node)
    requires queue.Valid() && queue.contents != [] && item == queue.contents[|queue.contents| - 1]
    modifies queue`length, queue.sentinal`prev, item`next, item`prev
    ensures item.next == item && item.prev == item && queue.sentinal.prev == item
    ensures Closed(Members(queue.contents)) && queue.sentinal !in Members(queue.contents)
    ensures queue.sentinal.next == queue.contents[0]
  {
    ghost var c := queue.contents;
    assert LinkOk(queue.sentinal, c, |c|) && LinkOk(queue.sentinal, c, 0);
    LinkLast(queue, item);
    forall n | n in Members(c)
      ensures n.next != null && n.next in Members(c)
    {
      var i :| 0 <= i < |c| && c[i] == n;
      assert old(LinkOk(queue.sentinal, c, i + 1));
    }
  }

  /** Appending any other member again: whoever is behind it can no longer be reached. */
  method AppendMemberAgain(queue: Queue, item: Node, ghost k: nat)
    requires queue.Valid() && k + 1 < |queue.contents| && item == queue.contents[k]
    modifies queue`length, queue.sentinal`prev, item`next, item`prev, OptNode(queue.sentinal.prev)`next
    ensures Closed({queue.sentinal} + Front(queue.contents, k))
    ensures forall j :: k < j < |queue.contents| ==>
      queue.contents[j] !in {queue.sentinal} + Front(queue.contents, k)
  {
    hide NoDup, Closed;
    ghost var c := queue.contents;
    FrontOnly(queue.sentinal, c, k);
    assert LinkOk(queue.sentinal, c, |c|) && LinkOk(queue.sentinal, c, 0);
    LinkLast(queue, item);
    assert queue.sentinal.next == c[0];
    forall i | 0 <= i < k
      ensures c[i].next == c[i + 1]
    {
      assert old(LinkOk(queue.sentinal, c, i + 1));
    }
    FrontIsClosed(queue.sentinal, c, k);
  }

  lemma FrontIsClosed(sentinal: Node, c: seq<Node>, k: nat)
    requires k < |c| && sentinal.next == c[0]
    requires c[k].next == sentinal && forall i :: 0 <= i < k ==> c[i].next == c[i + 1]
    ensures Closed({sentinal} + Front(c, k))
  {
    var nodes := {sentinal} + Front(c, k);
    assert c[0] in nodes;
    forall n | n in nodes
      ensures n.next != null && n.next in nodes
    {
      if n != sentinal {
        var i :| 0 <= i <= k && c[i] == n;
        if i < k {
          assert c[i].next == c[i + 1] && c[i + 1] in nodes;
        } else {
          assert n == c[k];
        }
      }
    }
  }

  /** Whoever is behind position k is not among those up to it. */
  lemma FrontOnly(sentinal: Node, c: seq<Node>, k: nat)
    requires NoDup(c) && sentinal !in c && k < |c|
    ensures forall j :: k < j < |c| ==> c[j] !in {sentinal} + Front(c, k)
    ensures forall i :: 0 <= i < k ==> c[i] != c[|c| - 1] && c[i] != c[k]
  {
    forall j | k < j < |c|
      ensures c[j] !in Front(c, k)
    {
    }
  }

  /** Appending a member of another queue: that queue's ring now leads into this one for good. */
  method AppendMemberOfOther(queue: Queue, other: Queue, item: Node, ghost k: nat)
    requires queue.Valid() && other.Valid() && queue != other && queue.Nodes() !! other.Nodes()
    requires k < |other.contents| && item == other.contents[k]
    modifies queue`length, queue.sentinal`prev, item`next, item`prev, OptNode(queue.sentinal.prev)`next
    ensures item.next == queue.sentinal
    ensures Closed(queue.Nodes() + Front(other.contents, k))
    ensures other.sentinal !in queue.Nodes() + Front(other.contents, k)
    ensures other.sentinal.next == other.contents[0] && other.contents[0] in Front(other.contents, k)
  {
    ghost var c, d := queue.contents, other.contents;
    ghost var nodes := queue.Nodes() + Front(d, k);
    assert LinkOk(queue.sentinal, c, |c|) && LinkOk(other.sentinal, d, 0);
    LinkLast(queue, item);
    forall n | n in nodes
      ensures n.next != null && n.next in nodes
    {
      if n == queue.sentinal {
        assert old(LinkOk(queue.sentinal, c, 0));
      } else if n in c {
        var i :| 0 <= i < |c| && c[i] == n;
        assert old(LinkOk(queue.sentinal, c, i + 1));
      } else {
        var i :| 0 <= i <= k && d[i] == n;
        assert old(LinkOk(other.sentinal, d, i + 1));
      }
    }
  }

  /** The sentinel points at p, and neither p nor the last node points back at the sentinel. */
  ghost predicate Stuck(queue: Queue, p: Node)
    reads queue, queue.sentinal, p
  {
    && p != queue.sentinal && queue.sentinal.next == p
    && p.next != null && p.prev != null && p.prev != queue.sentinal
    && queue.sentinal.prev != null && queue.sentinal.prev != queue.sentinal
  }

  /** Appending the only member again leaves the queue stuck on it. */
  method AppendAlone(queue: Queue, p: Node)
    requires queue.Valid() && queue.contents == [p]
    modifies queue`length, queue.sentinal`prev, p`next, p`prev
    ensures Stuck(queue, p) && p.next == p && p.prev == p && queue.length == 2
  {
    assert LinkOk(queue.sentinal, queue.contents, 0) && LinkOk(queue.sentinal, queue.contents, 1);
    LinkLast(queue, p);
  }

  datatype QueueOp = Append(x: Node) | Dequeue

  /**
   * And stuck it stays: whatever is appended afterwards, p itself included, every later dequeue
   * gives p. `nodes` holds all nodes there are.
   */
  method StuckForGood(queue: Queue, p: Node, ops: seq<QueueOp>, ghost nodes: set<Node>) returns (taken: seq<Node>)
    requires Stuck(queue, p) && queue.sentinal in nodes && p in nodes
    requires queue.sentinal.prev in nodes && p.next in nodes && p.prev in nodes
    requires forall i :: 0 <= i < |ops| && ops[i].Append? ==> ops[i].x in nodes && ops[i].x != queue.sentinal
    modifies queue`length, nodes`next, nodes`prev
    ensures Stuck(queue, p) && forall i :: 0 <= i < |taken| ==> taken[i] == p
  {
    taken := [];
    for i := 0 to |ops|
      invariant Stuck(queue, p) && forall j :: 0 <= j < |taken| ==> taken[j] == p
      invariant queue.sentinal.prev in nodes && p.next in nodes && p.prev in nodes
    {
      match ops[i]
      case Append(x) => LinkLast(queue, x);
      case Dequeue =>
        var t := UnlinkFirst(queue);
        taken := taken + [t];
    }
  }
}
