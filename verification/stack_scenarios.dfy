/**
 * The scenarios of the repository's unit tests, replayed on the model:
 * each method performs the test's calls and returns what the test observes.
 */
module StackScenarios {
  import opened Results
  import opened SimpleStack

  /** The test suite's element type: a number and a name, compared field by field. */
  datatype Entry = Entry(intValue: int, stringValue: string)

  /** Builds an `Entry` from constructor arguments, as `push_emplace` does. */
  function MakeEntry(args: (int, string)): Entry
  {
    Entry(args.0, args.1)
  }

  /** Three pushes then three pops: `size()` and `empty()` after each call. */
  method SizeAndEmptyTrace() returns (sizes: seq<nat>, empties: seq<bool>)
    ensures sizes == [0, 1, 2, 3, 2, 1, 0]
    ensures empties == [true, false, false, false, false, false, true]
  {
    var s0 := New<Entry>();
    var s1 := PushCopy(s0, Entry(123, "hello"));
    var s2 := PushCopy(s1, Entry(456, "world"));
    var s3 := PushCopy(s2, Entry(3478, "!!!"));
    var s4 := Pop(s3);
    var s5 := Pop(s4);
    var s6 := Pop(s5);
    sizes := [Size(s0), Size(s1), Size(s2), Size(s3), Size(s4), Size(s5), Size(s6)];
    empties := [Empty(s0), Empty(s1), Empty(s2), Empty(s3), Empty(s4), Empty(s5), Empty(s6)];
  }

  /**
   * The three push tests: `head()` after each push. A named, non-const
   * `Entry` binds to `push(value_t&)`, the `rvalue_reference_t` overload; a
   * braced temporary can bind only to `push(const_reference_t)`.
   */
  method PushTrace() returns (byLvalue: seq<Result<Entry, StackError>>, byTemporary: seq<Result<Entry, StackError>>, emplaced: seq<Result<Entry, StackError>>)
    ensures byLvalue == byTemporary == emplaced
    ensures byLvalue == [Ok(Entry(12, "twelve")), Ok(Entry(96, "ninety six")), Ok(Entry(0xCAFE, "Ja")), Ok(Entry(0xBABE, "Va"))]
  {
    var l1 := PushMove(New<Entry>(), Entry(12, "twelve"));
    var l2 := PushMove(l1, Entry(96, "ninety six"));
    var l3 := PushMove(l2, Entry(0xCAFE, "Ja"));
    var l4 := PushMove(l3, Entry(0xBABE, "Va"));
    byLvalue := [Head(l1), Head(l2), Head(l3), Head(l4)];
    var t1 := PushCopy(New<Entry>(), Entry(12, "twelve"));
    var t2 := PushCopy(t1, Entry(96, "ninety six"));
    var t3 := PushCopy(t2, Entry(0xCAFE, "Ja"));
    var t4 := PushCopy(t3, Entry(0xBABE, "Va"));
    byTemporary := [Head(t1), Head(t2), Head(t3), Head(t4)];
    var e1 := PushEmplace(New<Entry>(), MakeEntry, (12, "twelve"));
    var e2 := PushEmplace(e1, MakeEntry, (96, "ninety six"));
    var e3 := PushEmplace(e2, MakeEntry, (0xCAFE, "Ja"));
    var e4 := PushEmplace(e3, MakeEntry, (0xBABE, "Va"));
    emplaced := [Head(e1), Head(e2), Head(e3), Head(e4)];
  }

  /** Pop on a fresh stack is tolerated and leaves it empty. */
  method PopEmptyTrace() returns (size: nat, empty: bool)
    ensures size == 0 && empty
  {
    var s := Pop(New<Entry>());
    size, empty := Size(s), Empty(s);
  }

  /** Push and pop down to empty, refill, then read `head()` before each pop until empty. */
  method PopNotEmptyTrace() returns (observed: seq<Result<Entry, StackError>>)
    ensures observed == [Err(OutOfRange), Ok(Entry(7, "me")), Ok(Entry(3, "told")),
                         Ok(Entry(3, "once")), Ok(Entry(1, "somebody")), Err(OutOfRange)]
  {
    var s := New<Entry>();
    s := PushCopy(s, Entry(1, "somebody"));
    s := Pop(s);
    var drained := Head(s);
    s := PushCopy(s, Entry(1, "somebody"));
    s := PushCopy(s, Entry(3, "once"));
    s := PushCopy(s, Entry(3, "told"));
    s := PushCopy(s, Entry(7, "me"));
    var top4 := Head(s);
    s := Pop(s);
    var top3 := Head(s);
    s := Pop(s);
    var top2 := Head(s);
    s := Pop(s);
    var top1 := Head(s);
    s := Pop(s);
    var top0 := Head(s);
    observed := [drained, top4, top3, top2, top1, top0];
  }
}
