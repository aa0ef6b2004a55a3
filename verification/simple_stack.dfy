/**
 * `simple_stack::Stack<Value_T>`: a LIFO container kept as a chain of heap
 * nodes, with the top in `head`, the bottom in `tail` and a `size` counter.
 *
 * The heap is an arena owned by the stack; `nextFree` is the allocator's next
 * unused address, so every `new Node` gets an address no live node has.
 * `Contents` reads the chain back as a sequence, top first.
 */
module SimpleStack {
  import opened Results
  import opened NodeChain

  /** The error `head()` throws on an empty stack (`std::out_of_range`). */
  datatype StackError = OutOfRange

  /** The state of a `Stack` object: the fields `size_`, `tail_` and `head_`, plus the nodes it owns. */
  datatype StackState<T> = StackState(size: nat, tail: Option<Handle>, head: Option<Handle>, arena: Arena<T>, nextFree: Handle)

  /** The nodes of the chain hanging from `head`, top first. */
  function Chain<T>(s: StackState<T>): seq<Handle>
  {
    Handles(s.arena, s.head, s.size)
  }

  /** The abstract contents: the stored values, top first. */
  function Contents<T>(s: StackState<T>): seq<T>
  {
    Values(s.arena, s.head, s.size)
  }

  /**
   * The linkage invariant: following `previous` from `head` visits exactly
   * `size` distinct nodes and ends at `tail`; the stack owns exactly those
   * nodes; and the allocator has not yet handed out `nextFree`.
   */
  ghost predicate Valid<T>(s: StackState<T>)
  {
    && Linked(s.arena, s.head, s.size, s.tail)
    && Distinct(Chain(s))
    && (forall h :: h in s.arena <==> h in Chain(s))
    && (forall h :: h in s.arena ==> h < s.nextFree)
  }

  /** What a valid stack's shape promises: one node per element, `head`/`tail` null exactly when empty. */
  lemma ValidShape<T>(s: StackState<T>)
    requires Valid(s)
    ensures |Chain(s)| == s.size == |Contents(s)|
    ensures s.head.None? <==> s.size == 0
    ensures s.tail.None? <==> s.size == 0
    ensures s.size > 0 ==> s.head.value in s.arena && Contents(s)[0] == s.arena[s.head.value].value
  {
    LinkedShape(s.arena, s.head, s.size, s.tail);
  }

  /** `Stack()`: no nodes, size 0, null head and tail. */
  function New<T>(): (r: StackState<T>)
    ensures Valid(r)
    ensures Contents(r) == []
    ensures r.size == 0 && r.head.None? && r.tail.None?
  {
    StackState(0, None, None, map[], 0)
  }

  /** `empty()`: true exactly when the stack holds no element. */
  function Empty<T>(s: StackState<T>): (r: bool)
    requires Valid(s)
    ensures r <==> Contents(s) == []
  {
    ValidShape(s);
    s.size == 0
  }

  /** `size()`: the number of stored elements. */
  function Size<T>(s: StackState<T>): (r: nat)
    requires Valid(s)
    ensures r == |Contents(s)|
  {
    ValidShape(s);
    s.size
  }

  /** `head()`: the top value, or `OutOfRange` when the stack is empty. */
  function Head<T>(s: StackState<T>): (r: Result<T, StackError>)
    requires Valid(s)
    ensures r.Ok? <==> Contents(s) != []
    ensures r.Ok? ==> r.value == Contents(s)[0]
    ensures r.Err? ==> r.error == OutOfRange
  {
    ValidShape(s);
    if s.head.None? then Err(OutOfRange) else Ok(s.arena[s.head.value].value)
  }

  /**
   * A new node `Node(value, head, _)` at address `nextFree` on top of a
   * non-empty stack, with the old nodes' values and `previous` links kept,
   * gives a valid stack whose contents gain `value` on top.
   */
  lemma PushOnto<T>(s: StackState<T>, value: T, arena: Arena<T>)
    requires Valid(s) && s.size > 0
    requires s.nextFree in arena && arena[s.nextFree].value == value && arena[s.nextFree].previous == s.head
    requires SameLinks(s.arena, arena, Chain(s))
    requires arena.Keys == s.arena.Keys + {s.nextFree}
    ensures Valid(StackState(s.size + 1, s.tail, Some(s.nextFree), arena, s.nextFree + 1))
    ensures Contents(StackState(s.size + 1, s.tail, Some(s.nextFree), arena, s.nextFree + 1)) == [value] + Contents(s)
  {
    LinkedShape(s.arena, s.head, s.size, s.tail);
    LinkOnTop(s.arena, arena, s.head, s.size, s.tail, s.nextFree);
    assert s.nextFree !in Chain(s);
  }

  /** `push(const_reference_t)`: allocates the top node but, unlike the other pushes, never sets the old head's `next`. */
  function PushCopy<T>(s: StackState<T>, value: T): (r: StackState<T>)
    requires Valid(s)
    ensures Valid(r)
    ensures Contents(r) == [value] + Contents(s)
    ensures Size(r) == Size(s) + 1
    ensures Head(r) == Ok(value)
    ensures s.size > 0 ==> s.head.Some? && s.head.value in s.arena && s.head.value in r.arena
                           && r.arena[s.head.value].next == s.arena[s.head.value].next
  {
    ValidShape(s);
    var node := s.nextFree;
    if s.size == 0 then
      StackState(1, Some(node), Some(node), s.arena[node := Node(value, None, None)], node + 1)
    else
      var arena := s.arena[node := Node(value, s.head, None)];
      PushOnto(s, value, arena);
      StackState(s.size + 1, s.tail, Some(node), arena, node + 1)
  }

  /** The shared body of `push(rvalue_reference_t)` and `push_emplace`: the old head's `next` is set to the new node. */
  function PushLinked<T>(s: StackState<T>, value: T): (r: StackState<T>)
    requires Valid(s)
    ensures Valid(r)
    ensures Contents(r) == [value] + Contents(s)
    ensures s.size > 0 ==> s.head.Some? && s.head.value in r.arena && r.arena[s.head.value].next == r.head
  {
    ValidShape(s);
    var node := s.nextFree;
    if s.size == 0 then
      StackState(1, Some(node), Some(node), s.arena[node := Node(value, None, None)], node + 1)
    else
      var top := s.head.value;
      var arena := s.arena[node := Node(value, s.head, None)][top := s.arena[top].(next := Some(node))];
      PushOnto(s, value, arena);
      StackState(s.size + 1, s.tail, Some(node), arena, node + 1)
  }

  /** `push(rvalue_reference_t)`: the pushed value becomes the top, everything beneath is kept, and the old head's `next` names the new top. */
  function PushMove<T>(s: StackState<T>, value: T): (r: StackState<T>)
    requires Valid(s)
    ensures Valid(r)
    ensures Contents(r) == [value] + Contents(s)
    ensures Size(r) == Size(s) + 1
    ensures Head(r) == Ok(value)
    ensures s.size > 0 ==> s.head.Some? && s.head.value in r.arena && r.arena[s.head.value].next == r.head
  {
    PushLinked(s, value)
  }

  /** `push_emplace(args...)`: the top node holds the value `construct` builds from `args`; the old head's `next` names it. */
  function PushEmplace<A, T>(s: StackState<T>, construct: A -> T, args: A): (r: StackState<T>)
    requires Valid(s)
    ensures Valid(r)
    ensures Contents(r) == [construct(args)] + Contents(s)
    ensures Size(r) == Size(s) + 1
    ensures Head(r) == Ok(construct(args))
    ensures s.size > 0 ==> s.head.Some? && s.head.value in r.arena && r.arena[s.head.value].next == r.head
  {
    PushLinked(s, construct(args))
  }

  /** Dropping the top node of a stack of at least three leaves its `previous` chain valid. */
  lemma PopDeep<T>(s: StackState<T>)
    requires Valid(s) && s.size >= 3
    ensures s.head.Some? && s.head.value in s.arena
    ensures Valid(StackState(s.size - 1, s.tail, s.arena[s.head.value].previous, s.arena - {s.head.value}, s.nextFree))
    ensures Contents(StackState(s.size - 1, s.tail, s.arena[s.head.value].previous, s.arena - {s.head.value}, s.nextFree)) == Contents(s)[1..]
  {
    var h := s.head.value;
    var below := s.arena[h].previous;
    var arena := s.arena - {h};
    DropTop(s.arena, s.head, s.size, s.tail);
    LinkedFrame(s.arena, arena, below, s.size - 1, s.tail);
  }

  /** Dropping the top of a stack of two leaves just the tail node, whose `next` is cleared. */
  lemma PopToTail<T>(s: StackState<T>)
    requires Valid(s) && s.size == 2
    ensures s.head.Some? && s.tail.Some? && s.tail.value in s.arena
    ensures s.head.value != s.tail.value
    ensures var t := s.tail.value;
      var r := StackState(1, s.tail, s.tail, (s.arena - {s.head.value})[t := s.arena[t].(next := None)], s.nextFree);
      Valid(r) && Contents(r) == Contents(s)[1..]
  {
  }

  /** `pop()`: a no-op on an empty stack; otherwise the top node is deleted and the one beneath becomes the top. */
  function Pop<T>(s: StackState<T>): (r: StackState<T>)
    requires Valid(s)
    ensures Valid(r)
    ensures Contents(s) == [] ==> r == s
    ensures Contents(s) != [] ==> Contents(r) == Contents(s)[1..]
    ensures Size(r) == if Size(s) == 0 then 0 else Size(s) - 1
  {
    ValidShape(s);
    match s.size
    case 0 => s
    case 1 =>
      StackState(0, None, None, s.arena - {s.head.value}, s.nextFree)
    case 2 =>
      PopToTail(s);
      var t := s.tail.value;
      StackState(1, s.tail, s.tail, (s.arena - {s.head.value})[t := s.arena[t].(next := None)], s.nextFree)
    case _ =>
      PopDeep(s);
      StackState(s.size - 1, s.tail, s.arena[s.head.value].previous, s.arena - {s.head.value}, s.nextFree)
  }

  /**
   * The move constructor: the new stack takes over `size`, `tail`, `head`
   * and the nodes; the original is left empty, owning nothing.
   */
  function MoveConstruct<T>(original: StackState<T>): (r: (StackState<T>, StackState<T>))
    requires Valid(original)
    ensures Valid(r.0) && Valid(r.1)
    ensures r.0.size == original.size && r.0.head == original.head && r.0.tail == original.tail
    ensures Contents(r.0) == Contents(original)
    ensures r.1.size == 0 && r.1.head.None? && r.1.tail.None? && Contents(r.1) == []
    ensures r.1.arena.Keys !! r.0.arena.Keys
  {
    (StackState(original.size, original.tail, original.head, original.arena, original.nextFree),
     StackState(0, None, None, map[], original.nextFree))
  }

  /** Move assignment between two distinct stacks: the fields, and with them the nodes, are swapped. */
  function MoveAssign<T>(target: StackState<T>, original: StackState<T>): (r: (StackState<T>, StackState<T>))
    requires Valid(target) && Valid(original)
    ensures Valid(r.0) && Valid(r.1)
    ensures Contents(r.0) == Contents(original) && Contents(r.1) == Contents(target)
    ensures Size(r.0) == Size(original) && Size(r.1) == Size(target)
  {
    (StackState(original.size, original.tail, original.head, original.arena, original.nextFree),
     StackState(target.size, target.tail, target.head, target.arena, target.nextFree))
  }
}
