/**
 * The `Node` and `LinkedList` classes of linked_list.py: a singly linked chain
 * with explicit head and tail pointers, used as a stack (Push/Pop) and as a
 * queue (Offer/Poll).
 */
module LinkedLists {
  import opened Sequences

  /** Outcome of a removal: the removed value, or Python's IndexError with its message. */
  datatype Removed<T> = Value(value: T) | IndexError(message: string)

  const EmptyPopMessage: string := "pop from empty LinkedList"

  /** The separator `__repr__` puts between rendered elements. */
  const Arrow: string := " -> "

  /** One box of the chain: a value and the link to the next box, if any. */
  class Node<T> {
    var data: T
    var next: Node?<T>

    constructor (data: T, next: Node?<T> := null)
      ensures this.data == data && this.next == next
    {
      this.data := data;
      this.next := next;
    }
  }

  class LinkedList<T> {
    var head: Node?<T>
    var tail: Node?<T>

    // abstract view: the stored values head to tail, the nodes that hold them,
    // and the objects the list is made of
    ghost var contents: seq<T>
    ghost var nodes: seq<Node<T>>
    ghost var Repr: set<object>

    /**
     * The chain invariant: the nodes are distinct (no cycle), each links to the
     * next, head is the first and tail the last, tail has no successor, and
     * head and tail are both null exactly when the list is empty.
     */
    ghost predicate Valid()
      reads this, Repr
      ensures Valid() ==> this in Repr
    {
      this in Repr &&
      |nodes| == |contents| &&
      (forall i :: 0 <= i < |nodes| ==> nodes[i] in Repr) &&
      (forall i {:trigger nodes[i]} :: 0 <= i < |nodes| ==> nodes[i].data == contents[i]) &&
      (forall i, j :: 0 <= i < |nodes| - 1 && j == i + 1 ==> nodes[i].next == nodes[j]) &&
      (forall i, j :: 0 <= i < j < |nodes| ==> nodes[i] != nodes[j]) &&
      if nodes == [] then
        head == null && tail == null
      else
        head == nodes[0] && tail == nodes[|nodes| - 1] && tail.next == null
    }

    constructor ()
      ensures Valid() && fresh(Repr)
      ensures contents == [] && head == null && tail == null
    {
      head := null;
      tail := null;
      contents := [];
      nodes := [];
      Repr := {this};
    }

    /** `is_empty`: the head is null, which under the invariant means no values are stored. */
    method IsEmpty() returns (empty: bool)
      requires Valid()
      ensures empty <==> head == null
      ensures empty <==> tail == null
      ensures empty <==> contents == []
    {
      empty := head == null;
    }

    /** `push`: a new node in front of the old head; it is also the tail when the list was empty. */
    method Push(data: T)
      requires Valid()
      modifies this
      ensures Valid() && fresh(Repr - old(Repr))
      ensures contents == [data] + old(contents)
      ensures head != null && fresh(head) && head.data == data && head.next == old(head)
      ensures tail == if old(tail) == null then head else old(tail)
    {
      var newNode := new Node(data, head);
      head := newNode;
      if tail == null {
        tail := newNode;
      }
      contents := [data] + contents;
      nodes := [newNode] + nodes;
      Repr := Repr + {newNode};
    }

    /**
     * `pop`: on an empty list, IndexError and no change; otherwise the front
     * value, with head advanced and tail cleared when the list becomes empty.
     */
    method Pop() returns (r: Removed<T>)
      requires Valid()
      modifies this
      ensures Valid() && Repr <= old(Repr)
      ensures old(contents) == [] ==> r == IndexError(EmptyPopMessage) && unchanged(this)
      ensures old(contents) != [] ==> r == Value(old(contents)[0]) && contents == old(contents)[1..]
      ensures old(contents) != [] ==> head == old(head).next
      ensures contents == [] ==> head == null && tail == null
      ensures contents != [] ==> tail == old(tail)
    {
      var empty := IsEmpty();
      if empty {
        return IndexError(EmptyPopMessage);
      }
      var data := head.data;
      Repr := Repr - {head};
      head := head.next;
      if head == null {
        tail := null;
      }
      contents := contents[1..];
      nodes := nodes[1..];
      return Value(data);
    }

    /** `offer`: a new last node, linked from the old tail, or both head and tail on an empty list. */
    method Offer(data: T)
      requires Valid()
      modifies Repr
      ensures Valid() && fresh(Repr - old(Repr))
      ensures contents == old(contents) + [data]
      ensures tail != null && fresh(tail) && tail.data == data && tail.next == null
      ensures old(tail) == null ==> head == tail
      ensures old(tail) != null ==> head == old(head) && old(tail).next == tail
    {
      var newNode := new Node(data);
      if tail == null {
        head, tail := newNode, newNode;
      } else {
        tail.next := newNode;
        tail := newNode;
      }
      contents := contents + [data];
      nodes := nodes + [newNode];
      Repr := Repr + {newNode};
    }

    /** `poll`: the same operation as Pop. */
    method Poll() returns (r: Removed<T>)
      requires Valid()
      modifies this
      ensures Valid() && Repr <= old(Repr)
      ensures old(contents) == [] ==> r == IndexError(EmptyPopMessage) && unchanged(this)
      ensures old(contents) != [] ==> r == Value(old(contents)[0]) && contents == old(contents)[1..]
      ensures old(contents) != [] ==> head == old(head).next
      ensures contents == [] ==> head == null && tail == null
      ensures contents != [] ==> tail == old(tail)
    {
      r := Pop();
    }

    /** `__iter__`: walks the `next` links from head and collects the values in order. */
    method Items() returns (items: seq<T>)
      requires Valid()
      ensures items == contents
    {
      items := [];
      var current := head;
      ghost var i := 0;
      while current != null
        invariant 0 <= i <= |nodes|
        invariant current == if i < |nodes| then nodes[i] else null
        invariant items == contents[..i]
        decreases |nodes| - i
      {
        items := items + [current.data];
        current := current.next;
        i := i + 1;
      }
    }
  }

  /** Python's `sep.join(parts)`: every part once, and one separator between each two neighbours. */
  function Join(parts: seq<string>, sep: string): (s: string)
    ensures parts != [] ==> |s| == TotalLength(parts) + (|parts| - 1) * |sep|
  {
    if |parts| == 0 then ""
    else if |parts| == 1 then parts[0]
    else parts[0] + sep + Join(parts[1..], sep)
  }

  /** The summed length of the parts. */
  function TotalLength(parts: seq<string>): nat
  {
    if parts == [] then 0 else |parts[0]| + TotalLength(parts[1..])
  }

  /** Joining grows at the back one separator and one part at a time. */
  lemma {:induction false} JoinSnoc(parts: seq<string>, part: string, sep: string)
    requires parts != []
    ensures Join(parts + [part], sep) == Join(parts, sep) + sep + part
  {
    if |parts| > 1 {
      assert (parts + [part])[1..] == parts[1..] + [part];
      JoinSnoc(parts[1..], part, sep);
    }
  }

  /** The rendering starts with the first part, then the separator when more parts follow. */
  lemma {:induction false} JoinStartsWith(parts: seq<string>, sep: string)
    requires parts != []
    ensures |parts[0]| <= |Join(parts, sep)| && Join(parts, sep)[..|parts[0]|] == parts[0]
    ensures |parts| > 1 ==> Join(parts, sep)[..|parts[0]| + |sep|] == parts[0] + sep
  {
  }

  /** The rendering ends with the last part. */
  lemma {:induction false} JoinEndsWith(parts: seq<string>, sep: string)
    requires parts != []
    ensures var s, last := Join(parts, sep), parts[|parts| - 1];
      |last| <= |s| && s[|s| - |last|..] == last
  {
    var last := parts[|parts| - 1];
    if |parts| > 1 {
      var init := parts[..|parts| - 1];
      assert init + [last] == parts;
      JoinSnoc(init, last, sep);
      var j := Join(init, sep);
      assert (j + sep + last)[|j + sep|..] == last;
    }
  }

  /** `__repr__` of a list of strings: its values head to tail, joined by " -> ". */
  method Render(list: LinkedList<string>) returns (s: string)
    requires list.Valid()
    ensures s == Join(list.contents, Arrow)
  {
    var items := list.Items();
    s := Join(items, Arrow);
  }

  /** Values offered one by one come back from Poll in the same order (FIFO). */
  method OfferThenPollAll<T>(values: seq<T>) returns (polled: seq<T>)
    ensures polled == values
  {
    var queue := new LinkedList<T>();
    var i := 0;
    while i < |values|
      invariant 0 <= i <= |values|
      invariant queue.Valid() && fresh(queue.Repr)
      invariant queue.contents == values[..i]
    {
      queue.Offer(values[i]);
      assert values[..i + 1] == values[..i] + [values[i]];
      i := i + 1;
    }
    polled := [];
    while |polled| < |values|
      invariant queue.Valid() && fresh(queue.Repr)
      invariant polled + queue.contents == values
      decreases |queue.contents|
    {
      var r := queue.Poll();
      polled := polled + [r.value];
    }
  }

  /** Values pushed one by one come back from Pop in reverse order (LIFO). */
  method PushThenPopAll<T>(values: seq<T>) returns (popped: seq<T>)
    ensures popped == Reverse(values)
  {
    var stack := new LinkedList<T>();
    var i := 0;
    ghost var pushed: seq<T> := [];
    while i < |values|
      invariant 0 <= i <= |values| && pushed == values[..i]
      invariant stack.Valid() && fresh(stack.Repr)
      invariant stack.contents == Reverse(pushed)
    {
      stack.Push(values[i]);
      ReverseSnoc(pushed, values[i]);
      pushed := pushed + [values[i]];
      i := i + 1;
    }
    assert pushed == values;
    popped := PopAll(stack);
  }

  /** Pops a valid list until it is empty, collecting the values in the order Pop returns them. */
  method PopAll<T>(stack: LinkedList<T>) returns (popped: seq<T>)
    requires stack.Valid()
    modifies stack
    ensures stack.Valid() && stack.contents == []
    ensures popped == old(stack.contents)
  {
    ghost var stacked := stack.contents;
    popped := [];
    var empty := stack.IsEmpty();
    while !empty
      invariant stack.Valid()
      invariant popped + stack.contents == stacked
      invariant empty <==> stack.contents == []
      decreases |stack.contents|
    {
      var r := stack.Pop();
      popped := popped + [r.value];
      empty := stack.IsEmpty();
    }
  }

  /** The rendering the queue demo expects. */
  lemma JoinQueueDemo()
    ensures Join(["A", "B", "C", "D", "F"], Arrow) == "A -> B -> C -> D -> F"
  {
  }

  /** The renderings the stack demo expects before and after its pop. */
  lemma JoinStackDemo()
    ensures Join(["D", "C", "B", "A"], Arrow) == "D -> C -> B -> A"
    ensures Join(["F", "D", "C", "B", "A"], Arrow) == "F -> D -> C -> B -> A"
  {
    var parts := ["F", "D", "C", "B", "A"];
    assert Join(parts[3..], Arrow) == "B -> A";
    assert Join(parts[1..], Arrow) == "D -> C -> B -> A";
  }

  /** The queue demo: offering A, B, C, D, F renders "A -> B -> C -> D -> F". */
  method QueueDemo() returns (rendered: string)
    ensures rendered == "A -> B -> C -> D -> F"
  {
    var queue := new LinkedList<string>();
    queue.Offer("A");
    queue.Offer("B");
    queue.Offer("C");
    queue.Offer("D");
    queue.Offer("F");
    assert queue.contents == ["A", "B", "C", "D", "F"];
    JoinQueueDemo();
    rendered := Render(queue);
  }

  /**
   * The stack demo: pushing A, B, C, D, F renders "F -> D -> C -> B -> A";
   * Pop then returns "F" and leaves "D -> C -> B -> A".
   */
  method StackDemo() returns (before: string, popped: Removed<string>, after: string)
    ensures before == "F -> D -> C -> B -> A"
    ensures popped == Value("F")
    ensures after == "D -> C -> B -> A"
  {
    var stack := new LinkedList<string>();
    stack.Push("A");
    stack.Push("B");
    stack.Push("C");
    stack.Push("D");
    stack.Push("F");
    assert stack.contents == ["F", "D", "C", "B", "A"];
    JoinStackDemo();
    before := Render(stack);
    popped := stack.Pop();
    assert stack.contents == ["D", "C", "B", "A"];
    after := Render(stack);
  }
}
