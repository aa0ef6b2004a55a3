# simple_stack in Dafny

A model of `simple_stack::Stack<Value_T>` (`include/simple_stack.hpp`), a
generic last-in-first-out container kept as a chain of heap nodes. Each node
holds a value, a `previous` link toward the bottom and a `next` link toward the
top; the stack keeps `head_` (top), `tail_` (bottom) and a `size_` counter.

- `results.dfy` — `Option` (a nullable `Node*`) and `Result` (a value or the
  error `head()` throws).
- `node_chain.dfy` (module `NodeChain`) — the heap as an arena
  `map<Handle, Node<T>>`, the walk along `previous` links (`Handles`, `Values`),
  and the chain predicate `Linked`: from a node, `previous` visits exactly `n`
  allocated nodes and ends at the tail, whose `previous` is null.
- `simple_stack.dfy` (module `SimpleStack`) — the stack's state as an
  immutable datatype `StackState` with the fields `size`, `tail`, `head`, the arena of nodes it owns,
  and the allocator's next unused address `nextFree`. `Contents` reads the
  chain back as a sequence, top first. `Valid` is the linkage invariant:
  `head` is null iff `size` is 0 iff `tail` is null; following `previous` from
  `head` visits exactly `size` distinct nodes and ends at `tail`; the stack
  owns exactly those nodes. Every operation is a function whose contract
  relates the result's `Contents` to the argument's.
- `stack_object.dfy` (module `StackObject`) — the C++ object: a class `Stack`
  holding a `SimpleStack.StackState` and a ghost `contents` sequence tied to it by
  `Valid()`, with methods stated against `contents`. Move assignment lives
  here because it tests object identity (`&original != this`).
- `stack_properties.dfy` (module `StackProperties`) — properties relating
  several calls: push/pop round trips, LIFO order over `N` pushes and `N` pops,
  repeated pop on an empty stack, agreement of the three push variants.
- `stack_scenarios.dfy` (module `StackScenarios`) — the unit tests of
  `tests/simple_stack_test.cpp` replayed on the model, each returning what
  the test observes.
- `release.dfy` (module `Release`) — the destructor as a walk that deletes
  nodes, and the two defects it exposes (see Findings).

The `next` links are modelled exactly as the code writes them, but `Valid`
does not constrain them: the code does not keep them consistent.
`push(const_reference_t)` never sets the old head's `next` (line 116, unlike
lines 130 and 143). The size-3-or-more branch of `pop` leaves the new head's
`next` unchanged (lines 169-175): after a push through the `value_t&`
overload or `push_emplace`, it still names the deleted node; after a
copy-push it stays null. No public operation
reads `next`; only the destructor does.

The header keeps `tail_` and `next` besides the `previous` chain, and uses
them: the size-2 branch of `pop` promotes `tail_`, and the destructor walks
`next` from `tail_`. The model keeps all three links, since a `previous`
chain alone could not show either behaviour. Line 76,
`::std::exchange(original.tail_), nullptr`, is ill-formed C++ (it passes one
argument to `exchange`). `MoveConstruct` models the evident intent: take
`tail_` and leave null in the original.

## Model

| member | source | states |
|---|---|---|
| SimpleStack.ValidShape | include/simple_stack.hpp:50-57 | under the linkage invariant, the chain has one node per element, and `head` and `tail` are null exactly when `size` is 0 |
| SimpleStack.New | include/simple_stack.hpp:60-61 | a new stack is valid, holds nothing, has size 0 and null head and tail |
| SimpleStack.Empty | include/simple_stack.hpp:90-93 | `empty()` is true exactly when the stack holds no element |
| SimpleStack.Size | include/simple_stack.hpp:95-98 | `size()` equals the number of stored elements |
| SimpleStack.Head | include/simple_stack.hpp:100-106 | `head()` fails with out-of-range exactly when the stack is empty; otherwise it returns the top element |
| SimpleStack.PushCopy | include/simple_stack.hpp:108-119 | copy-push keeps the invariant, puts the value on top of the unchanged old contents, grows the size by one, makes `head()` return the value, and leaves the old head's `next` as it was (line 116) |
| SimpleStack.PushMove | include/simple_stack.hpp:121-133 | the reference-taking push keeps the invariant, puts the value on top of the old contents, grows the size by one, makes `head()` return the value, and sets the old head's `next` to the new top (line 130) |
| SimpleStack.PushEmplace | include/simple_stack.hpp:135-146 | `push_emplace` keeps the invariant, puts the value built from the arguments on top, grows the size by one, makes `head()` return that value, and sets the old head's `next` to the new top (line 143) |
| SimpleStack.PopToTail | include/simple_stack.hpp:161-167 | the size-2 branch, which promotes `tail_`, leaves a valid one-node stack holding the old second element |
| SimpleStack.PopDeep | include/simple_stack.hpp:169-175 | the size-3-or-more branch, which follows `previous`, leaves a valid stack holding everything but the old top |
| SimpleStack.Pop | include/simple_stack.hpp:148-177 | `pop()` leaves an empty stack unchanged; otherwise it removes exactly the top element and shrinks the size by one, in every branch |
| SimpleStack.MoveConstruct | include/simple_stack.hpp:73-77 | the moved-to stack takes the original's size, head, tail and contents; the original is left valid and empty with null head and tail |
| SimpleStack.MoveAssign | include/simple_stack.hpp:79-88 | move assignment between two stacks swaps their contents and sizes and keeps both valid |
| StackObject.Stack.Init | include/simple_stack.hpp:60-61 | the default constructor makes a valid object holding nothing, with size 0 and null head and tail |
| StackObject.Stack.Moved | include/simple_stack.hpp:73-77 | the move constructor takes over the original's contents, size, head and tail, and leaves the original valid, empty and with null links |
| StackObject.Stack.Empty | include/simple_stack.hpp:90-93 | the object's `empty()` is true exactly when its contents are empty |
| StackObject.Stack.Size | include/simple_stack.hpp:95-98 | the object's `size()` is the length of its contents |
| StackObject.Stack.Push | include/simple_stack.hpp:108-119 | on the object, copy-push keeps the invariant and puts the value in front of the old contents |
| StackObject.Stack.PushMove | include/simple_stack.hpp:121-133 | on the object, the reference-taking push keeps the invariant and puts the value in front of the old contents |
| StackObject.Stack.PushEmplace | include/simple_stack.hpp:135-146 | on the object, `push_emplace` keeps the invariant and puts the constructed value in front of the old contents |
| StackObject.Stack.MoveAssign | include/simple_stack.hpp:79-88 | on the object, self-assignment changes nothing; otherwise the two objects' contents are swapped |
| StackObject.Stack.Head | include/simple_stack.hpp:100-106 | the object's `head()` reads but does not modify the stack, and fails exactly when it is empty |
| StackObject.Stack.Pop | include/simple_stack.hpp:148-177 | on the object, `pop()` of an empty stack leaves its state unchanged; otherwise it drops the first element of `contents` |
| StackProperties.PushAll | include/simple_stack.hpp:108-133 | pushing `vs` first to last, through either `push` overload, leaves `Reverse(vs)` above the old contents |
| StackProperties.Drain | tests/simple_stack_test.cpp:163-175 | `n` rounds of head-then-pop read the elements top first, then the out-of-range error once the stack is empty, and leave what lay below |
| StackProperties.PushPopRoundTrip | include/simple_stack.hpp:108-177 | each push variant followed by a pop restores the previous contents and the previous `head()` |
| StackProperties.LifoRoundTrip | include/simple_stack.hpp:108-177 | `N` pushes through either `push` overload followed by `N` head-then-pop rounds read the values newest first and restore the previous contents |
| StackProperties.PopOnEmptyForever | include/simple_stack.hpp:150-152 | on an empty stack any number of pops changes nothing, and every `head()` reports the error |
| StackProperties.PushVariantsAgree | include/simple_stack.hpp:108-146 | the three push variants give the same contents and head; `push_emplace` of the identity builds exactly the reference push's state, and the copy-push state differs from it only in the old head's node, whose `next` copy-push leaves unset |
| StackProperties.MoveAssignTwiceRestores | include/simple_stack.hpp:79-88 | move-assigning back and forth restores both stacks' contents |
| StackScenarios.SizeAndEmptyTrace | tests/simple_stack_test.cpp:42-91 | three pushes then three pops give sizes 0,1,2,3,2,1,0, and `empty()` is true only at both ends |
| StackScenarios.PushTrace | tests/simple_stack_test.cpp:93-143 | pushing a named (non-const) variable selects the reference overload, pushing a braced temporary selects the const-reference overload, and `push_emplace` builds in place; in all three tests, four pushes each show the value just pushed on top |
| StackScenarios.PopEmptyTrace | tests/simple_stack_test.cpp:145-148 | popping a new stack is tolerated and leaves it empty |
| StackScenarios.PopNotEmptyTrace | tests/simple_stack_test.cpp:150-176 | the test's push/pop sequence reads error, 7, the later 3, the earlier 3, 1, error |
| Release.Destroy | include/simple_stack.hpp:63-71 | the corrected destructor deletes every node the stack owns exactly once, top first, and never touches a deleted node |
| Release.DestroyAsWritten | include/simple_stack.hpp:63-71 | the destructor as written frees nothing on an empty stack; when its walk along `next` from `tail_` ends at a null link, it has deleted only nodes the stack owns, each once, starting with the tail |
| Release.CopyPushesLeakTop | include/simple_stack.hpp:64-71 | after two copy-pushes the destructor as written deletes only the bottom node, which leaks the top one |
| Release.DeepPopLeavesDanglingNext | include/simple_stack.hpp:169-175 | after three reference pushes and one pop, the destructor as written reaches the deleted node through the new head's `next` |

## Findings

| source | as written | input that shows it | evidently intended | confidence | as-written member | corrected member |
|---|---|---|---|---|---|---|
| include/simple_stack.hpp:64-71 | the destructor starts at `tail_` and follows `next`, but `push(const_reference_t)` (line 116) never sets the old head's `next` | `push(123)` then `push(456)` through the const-reference overload, then destroy: only the node of 123 is deleted (the test `push__rvalue_ref`, tests/simple_stack_test.cpp:113-127, pushes four braced temporaries this way) | every node the stack owns is deleted exactly once | high (not executed) | Release.CopyPushesLeakTop | Release.Destroy |
| include/simple_stack.hpp:169-175 | the size-3-or-more branch of `pop` deletes the old head but leaves the new head's `next` unchanged, so after a push through the `value_t&` overload or `push_emplace` it still names the deleted node | three pushes through `push(rvalue_reference_t)`, one `pop`, then destroy: the walk reaches the deleted third node | the destructor never dereferences a deleted node | high (not executed) | Release.DeepPopLeavesDanglingNext | Release.Destroy |

`Release.Destroy` walks `previous` from `head_`, which the linkage invariant
keeps consistent. Resetting `next` in copy-push and in the deep pop branch
would repair the walk along `next` as well.

## Left out

- Heap allocation failure: `new` is modelled as always handing out the unused address `nextFree`.
- The `size_t` width of `size_`: sizes are unbounded naturals, since allocation fails long before the counter could wrap.
- C++ value categories: `std::move`, `std::forward`, the `rvalue_reference_t` typedef being an lvalue reference (line 19), and the moved-from state of pushed values. Every push simply stores a value.
- The `static_assert` checks at lines 110 and 123: they are compile-time checks with no runtime effect.
- `push_emplace`'s variadic constructor forwarding: modelled as a constructor function applied to one argument value.
- Exceptions as a mechanism: `head()` returns `Err(OutOfRange)` instead of throwing `std::out_of_range`.
- The deleted copy constructor and copy assignment (lines 27-29): there is no copy operation to model.
- The destructor's actual deallocation and the surrounding object lifetime: `Release` models only which nodes the walk deletes, and in what order.
- `Release.CopyPushesLeakTop` and `Release.DeepPopLeavesDanglingNext` exhibit one input each; the model does not characterise every sequence of calls after which the destructor as written misbehaves.
- Release.DestroyAsWritten: its contract describes only walks that end at a null link; walks that reach a deleted node are shown on one input by `Release.DeepPopLeavesDanglingNext`, not characterised in general.
- Node sharing between two stacks: each `StackState` carries its own arena, so the model cannot state that two live stacks never share a node; `SimpleStack.MoveConstruct` states only that the moved-to stack takes over the whole chain and the original is left valid and empty.
- Self-assignment in the functional model: `SimpleStack.MoveAssign` cannot observe aliasing, so self-assignment is stated only for the object, in `StackObject.Stack.MoveAssign`.
