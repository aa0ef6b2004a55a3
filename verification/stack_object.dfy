/**
 * The C++ object view of `simple_stack::Stack`: a mutable object whose state
 * is the node chain of `SimpleStack`, with the abstract contents (top first)
 * kept in a ghost field and tied to the chain by `Valid()`.
 *
 * Move construction and move assignment live here because they depend on
 * object identity (`&original != this`).
 */
module StackObject {
  import opened Results
  import SimpleStack

  class Stack<T> {
    var state: SimpleStack.StackState<T>
    ghost var contents: seq<T>

    /** The linkage invariant holds and `contents` is what the chain stores. */
    ghost predicate Valid()
      reads this
    {
      SimpleStack.Valid(state) && contents == SimpleStack.Contents(state)
    }

    /** `Stack()`: an empty stack with null head and tail. */
    constructor Init()
      ensures Valid() && contents == []
      ensures state.size == 0 && state.head.None? && state.tail.None?
    {
      state := SimpleStack.New();
      contents := [];
    }

    /** `Stack(Stack&&)`: take over the original's chain and leave it empty. */
    constructor Moved(original: Stack<T>)
      requires original.Valid()
      modifies original
      ensures Valid() && original.Valid()
      ensures contents == old(original.contents) && original.contents == []
      ensures state.size == old(original.state.size)
      ensures state.head == old(original.state.head) && state.tail == old(original.state.tail)
      ensures original.state.size == 0 && original.state.head.None? && original.state.tail.None?
    {
      var pair := SimpleStack.MoveConstruct(original.state);
      state := pair.0;
      contents := original.contents;
      original.state := pair.1;
      original.contents := [];
    }

    /** `operator=(Stack&&)`: swap with a different stack; assigning a stack to itself changes nothing. */
    method MoveAssign(original: Stack<T>)
      requires Valid() && original.Valid()
      modifies this, original
      ensures Valid() && original.Valid()
      ensures original == this ==> state == old(state) && contents == old(contents)
      ensures original != this ==> contents == old(original.contents) && original.contents == old(contents)
    {
      if original != this {
        var pair := SimpleStack.MoveAssign(state, original.state);
        state, original.state := pair.0, pair.1;
        contents, original.contents := original.contents, contents;
      }
    }

    /** `empty()`. */
    function Empty(): (r: bool)
      reads this
      requires Valid()
      ensures r <==> contents == []
    {
      SimpleStack.Empty(state)
    }

    /** `size()`. */
    function Size(): (r: nat)
      reads this
      requires Valid()
      ensures r == |contents|
    {
      SimpleStack.Size(state)
    }

    /** `head() const`: the top value, or the out-of-range error; reads but never changes the stack. */
    function Head(): (r: Result<T, SimpleStack.StackError>)
      reads this
      requires Valid()
      ensures r.Ok? <==> contents != []
      ensures r.Ok? ==> r.value == contents[0]
      ensures r.Err? ==> r.error == SimpleStack.OutOfRange
    {
      SimpleStack.Head(state)
    }

    /** `push(const_reference_t)`. */
    method Push(value: T)
      requires Valid()
      modifies this
      ensures Valid() && contents == [value] + old(contents)
    {
      state := SimpleStack.PushCopy(state, value);
      contents := [value] + contents;
    }

    /** `push(rvalue_reference_t)`. */
    method PushMove(value: T)
      requires Valid()
      modifies this
      ensures Valid() && contents == [value] + old(contents)
    {
      state := SimpleStack.PushMove(state, value);
      contents := [value] + contents;
    }

    /** `push_emplace(args...)`. */
    method PushEmplace<A>(construct: A -> T, args: A)
      requires Valid()
      modifies this
      ensures Valid() && contents == [construct(args)] + old(contents)
    {
      state := SimpleStack.PushEmplace(state, construct, args);
      contents := [construct(args)] + contents;
    }

    /** `pop()`: drops the top element; on an empty stack nothing changes. */
    method Pop()
      requires Valid()
      modifies this
      ensures Valid()
      ensures old(contents) == [] ==> state == old(state) && contents == []
      ensures old(contents) != [] ==> contents == old(contents)[1..]
    {
      state := SimpleStack.Pop(state);
      if contents != [] {
        contents := contents[1..];
      }
    }
  }
}
