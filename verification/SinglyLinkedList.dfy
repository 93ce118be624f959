/** The linked list with head and tail references of SinglyLinkedList.java. */
module SinglyLinkedList {
  import opened Options

  class Node<E> {
    var element: E
    var next: Node?<E>

    constructor (e: E, n: Node?<E>)
      ensures element == e && next == n
    {
      element, next := e, n;
    }
  }

  class List<E> {
    var head: Node?<E>
    var tail: Node?<E>
    var size: int
    ghost var spine: seq<Node<E>>   // the nodes from head on, in order

    /** The chain from head visits the spine, ends in null, and repeats no node; tail is
        its last node, and size its length. */
    ghost predicate Valid()
      reads this, spine
    {
      && size == |spine|
      && (forall i, j :: 0 <= i < j < |spine| ==> spine[i] != spine[j])
      && (forall i :: 0 <= i < |spine| ==> spine[i].next == NodeAt(i + 1))
      && head == NodeAt(0)
      && tail == (if spine == [] then null else spine[|spine| - 1])
    }

    ghost function NodeAt(i: nat): Node?<E>
      reads this
    {
      if i < |spine| then spine[i] else null
    }

    /** The sequence that the list stands for. */
    ghost function Contents(): (s: seq<E>)
      reads this, spine
      ensures |s| == |spine|
    {
      seq(|spine|, i requires 0 <= i < |spine| reads this, spine => spine[i].element)
    }

    constructor ()
      ensures Valid() && Contents() == [] && spine == []
    {
      head, tail, size, spine := null, null, 0, [];
    }

    method Size() returns (n: int)
      requires Valid()
      ensures n == |Contents()|
    {
      n := size;
    }

    method First() returns (e: Option<E>)
      requires Valid()
      ensures e == if Contents() == [] then None else Some(Contents()[0])
    {
      if size == 0 { return None; }
      e := Some(head.element);
    }

    method Last() returns (e: Option<E>)
      requires Valid()
      ensures e == if Contents() == [] then None else Some(Contents()[|Contents()| - 1])
    {
      if size == 0 { return None; }
      e := Some(tail.element);
    }

    method AddFirst(e: E)
      requires Valid()
      modifies this
      ensures Valid() && Contents() == [e] + old(Contents())
      ensures |spine| > 0 && fresh(spine[0]) && spine[1..] == old(spine)
    {
      head := new Node(e, head);
      if size == 0 { tail := head; }
      size := size + 1;
      spine := [head] + spine;
    }

    method AddLast(e: E)
      requires Valid()
      modifies this, spine
      ensures Valid() && Contents() == old(Contents()) + [e]
      ensures |spine| > 0 && fresh(spine[|spine| - 1]) && spine[..|spine| - 1] == old(spine)
    {
      var newest := new Node(e, null);
      if size == 0 { head := newest; } else { tail.next := newest; }
      tail := newest;
      size := size + 1;
      spine := spine + [newest];
    }

    method RemoveFirst() returns (e: Option<E>)
      requires Valid()
      modifies this
      ensures Valid()
      ensures old(Contents()) == [] ==> e == None && spine == old(spine)
      ensures old(Contents()) != [] ==> e == Some(old(Contents())[0]) && spine == old(spine)[1..]
      ensures Contents() == if old(Contents()) == [] then [] else old(Contents())[1..]
    {
      if size == 0 { return None; }
      e := Some(head.element);
      head := head.next;
      size := size - 1;
      if size == 0 { tail := null; }
      spine := spine[1..];
    }
  }

  // ----- whole sessions -----

  datatype Op<E> = AddFirst(e: E) | AddLast(e: E) | RemoveFirst | First | Last

  /** The same operations on a mathematical sequence: the new sequence and the answer. */
  function Apply<E>(s: seq<E>, op: Op<E>): (seq<E>, Option<E>) {
    match op
    case AddFirst(e) => ([e] + s, None)
    case AddLast(e) => (s + [e], None)
    case RemoveFirst => if s == [] then (s, None) else (s[1..], Some(s[0]))
    case First => (s, if s == [] then None else Some(s[0]))
    case Last => (s, if s == [] then None else Some(s[|s| - 1]))
  }

  function ApplyAll<E>(ops: seq<Op<E>>): (seq<E>, seq<Option<E>>) {
    if ops == [] then ([], [])
    else
      var (s, answers) := ApplyAll(ops[..|ops| - 1]);
      var (s', answer) := Apply(s, ops[|ops| - 1]);
      (s', answers + [answer])
  }

  method Perform<E>(list: List<E>, op: Op<E>) returns (answer: Option<E>)
    requires list.Valid()
    modifies list, list.spine
    ensures list.Valid()
    ensures (list.Contents(), answer) == Apply(old(list.Contents()), op)
    ensures forall i :: 0 <= i < |list.spine| ==> list.spine[i] in old(list.spine) || fresh(list.spine[i])
  {
    answer := None;
    match op {
      case AddFirst(e) => list.AddFirst(e);
      case AddLast(e) => list.AddLast(e);
      case RemoveFirst => answer := list.RemoveFirst();
      case First => answer := list.First();
      case Last => answer := list.Last();
    }
  }

  /** Any sequence of operations on a new list gives the answers, and leaves the
      contents, that the sequence operations give. */
  method Session<E>(ops: seq<Op<E>>) returns (list: List<E>, answers: seq<Option<E>>)
    ensures list.Valid()
    ensures (list.Contents(), answers) == ApplyAll(ops)
  {
    list := new List();
    answers := [];
    for i := 0 to |ops|
      invariant fresh(list) && fresh(list.spine)
      invariant list.Valid()
      invariant (list.Contents(), answers) == ApplyAll(ops[..i])
    {
      var answer := Perform(list, ops[i]);
      answers := answers + [answer];
      assert ops[..i + 1][..i] == ops[..i];
    }
    assert ops[..|ops|] == ops;
  }
}
