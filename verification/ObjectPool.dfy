// The linked queue with a chain of idle nodes on which the logger's two queues are built
// (src/core/Util.h, CObjectPool). Every operation holds the pool's lock throughout.

module ObjectPools {
  import opened Options
  import opened Sequences

  const ERR_SUCCESS := 0
  const ERR_FAILED := 1
  const UINT32_SIZE := 0x1_0000_0000

  class Node<T> {
    var data: Option<T>
    var next: Node?<T>

    constructor ()
      ensures data == None && next == null
    {
      data, next := None, null;
    }
  }

  class ObjectPool<T(==)> {
    var head: Node?<T>
    var tail: Node?<T>
    var idle: Node?<T>
    var mySize: nat

    ghost var active: seq<Node<T>>   // the chain from head
    ghost var spare: seq<Node<T>>    // the chain from idle
    ghost var contents: seq<T>       // the abstract value: a FIFO sequence

    static ghost function After(chain: seq<Node<T>>, i: nat): Node?<T>
      requires i < |chain|
    {
      if i + 1 < |chain| then chain[i + 1] else null
    }

    // The nodes of `chain` are linked in order and end in null.
    ghost predicate IsChain(first: Node?<T>, chain: seq<Node<T>>)
      reads set n | n in chain
    {
      && (first == if chain == [] then null else chain[0])
      && (forall i {:trigger chain[i].next} :: 0 <= i < |chain| ==> chain[i].next == After(chain, i))
    }

    lemma ChainTail(first: Node?<T>, chain: seq<Node<T>>)
      requires IsChain(first, chain) && chain != []
      ensures IsChain(chain[0].next, chain[1..])
    {
      forall i | 0 <= i < |chain| - 1 ensures chain[1..][i].next == After(chain[1..], i) {
        assert chain[1..][i] == chain[i + 1];
      }
    }

    lemma ChainCons(n: Node<T>, chain: seq<Node<T>>)
      requires IsChain(n.next, chain)
      ensures IsChain(n, [n] + chain)
    {
      var all := [n] + chain;
      forall i | 0 <= i < |all| ensures all[i].next == After(all, i) {
        if i > 0 {
          assert all[i] == chain[i - 1];
        }
      }
    }

    // No node occurs twice, in one chain or across the two.
    static ghost predicate Distinct(active: seq<Node<T>>, spare: seq<Node<T>>) {
      && (forall i, j :: 0 <= i < j < |active| ==> active[i] != active[j])
      && (forall i, j :: 0 <= i < j < |spare| ==> spare[i] != spare[j])
      && (forall i, j :: 0 <= i < |active| && 0 <= j < |spare| ==> active[i] != spare[j])
    }

    static lemma DistinctAppend(active: seq<Node<T>>, spare: seq<Node<T>>, n: Node<T>)
      requires Distinct(active, spare) && n !in active && n !in spare
      ensures Distinct(active + [n], spare)
      ensures Distinct(active, [n] + spare)
    {
    }

    static lemma DistinctTail(active: seq<Node<T>>, spare: seq<Node<T>>)
      requires Distinct(active, spare) && active != []
      ensures Distinct(active[1..], spare) && active[0] !in active[1..] && active[0] !in spare
    {
    }

    ghost predicate Valid()
      reads this, active, spare
    {
      && IsChain(head, active)
      && IsChain(idle, spare)
      && Distinct(active, spare)
      && (tail == if active == [] then null else active[|active| - 1])
      && mySize == |active|
      && Filled(active, contents, spare)
    }

    // The nodes hold the elements, and the spare ones nothing.
    static ghost predicate Filled(active: seq<Node<T>>, contents: seq<T>, spare: seq<Node<T>>)
      reads active, spare
    {
      && |active| == |contents|
      && (forall i :: 0 <= i < |active| ==> active[i].data == Some(contents[i]))
      && (forall i :: 0 <= i < |spare| ==> spare[i].data == None)
    }

    constructor ()
      ensures Valid() && contents == [] && active == [] && spare == []
    {
      head, tail, idle, mySize := null, null, null, 0;
      active, spare, contents := [], [], [];
    }

    // A node for a new element: the first idle one, or a new one when none is idle.
    method TakeNode() returns (cur: Node<T>)
      requires Valid()
      modifies this`idle, this`spare
      ensures Valid() && active == old(active) && contents == old(contents)
      ensures cur !in active && cur !in spare
      ensures if old(spare) == [] then fresh(cur) && spare == [] else cur == old(spare)[0] && spare == old(spare)[1..]
    {
      if idle == null {
        cur := new Node();
      } else {
        cur := idle;
        ChainTail(idle, spare);
        idle := idle.next;
        spare := spare[1..];
      }
    }

    method Append(cur: Node<T>, inObj: Option<T>)
      requires Valid() && inObj.Some? && cur !in active && cur !in spare
      modifies this`head, this`tail, this`mySize, this`active, this`contents, active, cur
      ensures Valid() && active == old(active) + [cur] && spare == old(spare)
      ensures contents == old(contents) + [inObj.value]
    {
      cur.data := inObj;
      cur.next := null;
      DistinctAppend(active, spare, cur);
      if tail == null {
        head, tail := cur, cur;
        mySize := mySize + 1;
        active, contents := [cur], [inObj.value];
      } else {
        LinkBehind(cur, inObj);
      }
    }

    // The second case: the node goes behind the tail.
    method LinkBehind(cur: Node<T>, inObj: Option<T>)
      requires Valid() && active != [] && Distinct(active + [cur], spare)
      requires cur.data == inObj && inObj.Some? && cur.next == null
      modifies this`tail, this`mySize, this`active, this`contents, active[|active| - 1]
      ensures Valid() && active == old(active) + [cur] && spare == old(spare)
      ensures contents == old(contents) + [inObj.value]
    {
      ghost var longer, more := active + [cur], contents + [inObj.value];
      assert forall i :: 0 <= i < |longer| ==> longer[i].data == Some(more[i]);
      Relink(tail, cur, more);
      tail := cur;
      mySize := mySize + 1;
      active, contents := longer, more;
    }

    // tail->next = cur, with last the tail
    method Relink(last: Node<T>, cur: Node<T>, ghost more: seq<T>)
      requires IsChain(head, active) && IsChain(idle, spare) && Distinct(active + [cur], spare) && cur.next == null
      requires active != [] && last == active[|active| - 1]
      requires Filled(active + [cur], more, spare)
      modifies last`next
      ensures IsChain(head, active + [cur]) && IsChain(idle, spare) && Filled(active + [cur], more, spare)
    {
      ghost var longer := active + [cur];
      assert forall i :: 0 <= i < |active| ==> longer[i] == active[i];
      assert longer[|active|] == cur;
      last.next := cur;
      assert IsChain(idle, spare);
      forall i | 0 <= i < |longer| ensures longer[i].next == After(longer, i) {
        if i < |active| - 1 {
          assert active[i].next == old(active[i].next) == After(active, i);
        }
      }
    }

    lemma WithoutHead()
      requires Valid() && active != []
      ensures IsChain(active[0].next, active[1..]) && Distinct(active[1..], spare)
      ensures active[0] !in active[1..] && active[0] !in spare
      ensures if head == tail then active[1..] == [] else active[1..] != [] && tail == active[1..][|active| - 2]
      ensures forall i :: 0 <= i < |active| - 1 ==> active[1..][i].data == Some(contents[1..][i])
    {
      ChainTail(head, active);
      DistinctTail(active, spare);
    }

    // Unlinks the head. The node itself is not changed.
    method PopHead() returns (cur: Node<T>)
      requires Valid() && active != []
      modifies this`head, this`tail, this`mySize, this`active, this`contents
      ensures Valid() && cur == old(active)[0] && active == old(active)[1..] && spare == old(spare)
      ensures cur !in active && cur !in spare
      ensures contents == old(contents)[1..]
    {
      WithoutHead();
      cur := head;
      ghost var more, rest := active[1..], contents[1..];
      if head == tail {
        head, tail := null, null;
      } else {
        head := head.next;
      }
      mySize := mySize - 1;
      active, contents := more, rest;
    }

    method PushIdle(cur: Node<T>)
      requires Valid() && cur !in active && cur !in spare
      modifies this`idle, this`spare, cur
      ensures Valid() && active == old(active) && spare == [cur] + old(spare)
      ensures contents == old(contents)
    {
      cur.data := None;
      cur.next := null;
      if idle == null {
        idle := cur;
      } else {
        cur.next := idle;
        idle := cur;
      }
      ChainCons(cur, spare);
      DistinctAppend(active, spare, cur);
      spare := [cur] + spare;
    }

    // Takes the first element out; its node becomes the first idle one.
    method TakeHead() returns (value: T)
      requires Valid() && active != []
      modifies this, active[0]
      ensures Valid() && value == old(contents)[0] && contents == old(contents)[1..]
      ensures active == old(active)[1..] && spare == [old(active)[0]] + old(spare)
    {
      value := head.data.value;
      var cur := PopHead();
      PushIdle(cur);
    }

    // The first spare node, or another one if there is none, becomes the last active one.
    static ghost predicate OneMoreNode(active: seq<Node<T>>, spare: seq<Node<T>>,
                                       active': seq<Node<T>>, spare': seq<Node<T>>) {
      && |active'| == |active| + 1 && active' == active + [active'[|active|]]
      && if spare == [] then spare' == [] else active'[|active|] == spare[0] && spare' == spare[1..]
    }

    method SetObject(inObj: Option<T>) returns (code: int)
      requires Valid()
      modifies this, active, spare
      ensures Valid()
      ensures inObj == None ==> code == ERR_FAILED && contents == old(contents)
                                && active == old(active) && spare == old(spare)
      ensures inObj.Some? ==> code == ERR_SUCCESS && contents == old(contents) + [inObj.value]
      // a node is allocated only when none is idle
      ensures inObj.Some? ==> OneMoreNode(old(active), old(spare), active, spare)
      ensures inObj.Some? && old(spare) == [] ==> fresh(active[|old(active)|])
    {
      if inObj == None {
        return ERR_FAILED;
      }
      var cur := TakeNode();
      Append(cur, inObj);
      code := ERR_SUCCESS;
    }

    method GetObject() returns (code: int, outObj: Option<T>)
      requires Valid()
      modifies this, active, spare
      ensures Valid()
      ensures old(active) == [] ==> code == ERR_FAILED && outObj == None && active == [] && spare == old(spare)
      ensures old(active) != [] ==> code == ERR_SUCCESS && outObj == Some(old(contents)[0])
                                    && contents == old(contents)[1..]
      ensures old(active) != [] ==> active == old(active)[1..] && spare == [old(active)[0]] + old(spare)
    {
      if head == null {
        return ERR_FAILED, None;
      }
      var value := TakeHead();
      outObj := Some(value);
      code := ERR_SUCCESS;
    }

    // Appends the elements, oldest first, to the caller's list; every node becomes idle.
    method GetObjectAll(list: seq<T>) returns (code: int, list': seq<T>)
      requires Valid()
      modifies this, active, spare
      ensures Valid()
      ensures contents == [] && list' == list + old(contents)
      ensures code == if old(active) == [] then ERR_FAILED else ERR_SUCCESS
      ensures active == [] && spare == Reversed(old(active)) + old(spare)
    {
      if head == null {
        Empty(list);
        return ERR_FAILED, list;
      }
      list' := Drain(list);
      code := ERR_SUCCESS;
    }

    // k elements have been moved from the queue (a0, c0, s0) to the end of list.
    ghost predicate Moved(k: nat, list: seq<T>, list': seq<T>, a0: seq<Node<T>>, c0: seq<T>, s0: seq<Node<T>>)
      reads this
    {
      && k <= |a0| == |c0| && active == a0[k..] && contents == c0[k..]
      && list' == list + c0[..k] && spare == Reversed(a0[..k]) + s0
    }

    method Drain(list: seq<T>) returns (list': seq<T>)
      requires Valid()
      modifies this, active
      ensures Valid() && active == [] && list' == list + old(contents)
      ensures spare == Reversed(old(active)) + old(spare)
    {
      list' := list;
      ghost var k := 0;
      while head != null
        invariant Valid() && Moved(k, list, list', old(active), old(contents), old(spare))
        decreases |active|
      {
        list' := MoveOne(k, list, list', old(active), old(contents), old(spare));
        k := k + 1;
      }
      assert old(active)[..k] == old(active) && old(contents)[..k] == old(contents);
    }

    method MoveOne(ghost k: nat, ghost list: seq<T>, list1: seq<T>, ghost a0: seq<Node<T>>, ghost c0: seq<T>,
                   ghost s0: seq<Node<T>>)
      returns (list': seq<T>)
      requires Valid() && active != [] && Moved(k, list, list1, a0, c0, s0)
      modifies this, set n | n in a0
      ensures Valid() && Moved(k + 1, list, list', a0, c0, s0)
    {
      assert active[0] == a0[k] && a0[k] in a0;
      var value := TakeHead();
      list' := list1 + [value];
      PrefixGrows(a0, k);
      PrefixGrows(c0, k);
      ReversedAppend(a0[..k], a0[k], s0);
      Associates(list, c0[..k], [value]);
    }

    static lemma PrefixGrows<X>(s: seq<X>, k: nat)
      requires k < |s|
      ensures s[..k + 1] == s[..k] + [s[k]] && s[k..][1..] == s[k + 1..] && s[k..][0] == s[k]
    {
    }

    // The first element of t moves to the end of s.
    static lemma Shift<X>(s: seq<X>, t: seq<X>)
      requires t != []
      ensures s + [t[0]] + t[1..] == s + t
    {
    }

    static lemma ReversedAppend(s: seq<Node<T>>, n: Node<T>, rest: seq<Node<T>>)
      ensures Reversed(s + [n]) + rest == [n] + (Reversed(s) + rest)
    {
      assert (s + [n])[..|s|] == s;
    }

    static ghost function Reversed(s: seq<Node<T>>): seq<Node<T>> {
      if s == [] then [] else [s[|s| - 1]] + Reversed(s[..|s| - 1])
    }

    // A position past the size yields NULL; the loop moves one node on for every further
    // position. The counter is a uint32, so for position 0 it wraps and the loop follows the
    // NULL behind the last node: defined is false where the source has no behaviour.
    method GetObjectByPos(pos: nat) returns (defined: bool, outObj: Option<T>)
      requires Valid() && |active| < UINT32_SIZE && pos < UINT32_SIZE
      ensures defined <==> pos != 0
      ensures defined ==> outObj == if pos > |active| then None else Some(contents[pos - 1])
    {
      defined, outObj := true, None;
      if pos > mySize {
        return;
      }
      var cur := head;
      var left := if pos == 0 then UINT32_SIZE - 1 else pos - 1;  // --pos
      ghost var k := 0;
      while left > 0
        invariant 0 <= left && k + left == if pos == 0 then UINT32_SIZE - 1 else pos - 1
        invariant k <= |active| && cur == if k < |active| then active[k] else null
        decreases left
      {
        if cur == null {
          defined := false;
          return;
        }
        assert active[k].next == After(active, k);
        cur := cur.next;
        k := k + 1;
        left := left - 1;
      }
      if cur == null {
        defined := false;
        return;
      }
      outObj := cur.data;
    }

    // Deletes everything, handing each element to the deletion callback in queue order.
    method Clear() returns (deleted: seq<T>)
      requires Valid()
      modifies this
      ensures Valid() && active == [] && spare == []
      ensures deleted == old(contents)
    {
      deleted := DeleteActive();
      while idle != null
        invariant Valid() && active == []
        decreases |spare|
      {
        ChainTail(idle, spare);
        idle := idle.next;
        spare := spare[1..];
      }
    }

    // The first loop of Clear.
    method DeleteActive() returns (deleted: seq<T>)
      requires Valid()
      modifies this`head, this`tail, this`mySize, this`active, this`contents
      ensures Valid() && active == []
      ensures deleted == old(contents)
    {
      deleted := [];
      while head != null
        invariant Valid() && deleted + contents == old(contents)
        decreases |active|
      {
        Shift(deleted, contents);
        deleted := deleted + [head.data.value];
        var _ := PopHead();
      }
    }

    method GetNum() returns (n: nat)
      requires Valid()
      ensures n == |contents|
    {
      n := mySize;
    }
  }
}
