/**
 * The destructor `~Stack()`: deleting every node the stack owns.
 *
 * `FreeAlong` models a deletion walk: each node reached is deleted, and the
 * walk continues along one of its links. Reaching an address that is no
 * longer allocated is a use after free; nodes never reached are leaked.
 */
module Release {
  import opened Results
  import opened NodeChain
  import opened SimpleStack

  /** How a deletion walk ends: the addresses deleted in order, or the dangling address it dereferenced. */
  datatype Outcome = Freed(order: seq<Handle>) | UseAfterFree(at: Handle)

  /** Which link of a node the walk follows. */
  datatype Direction = TowardTop | TowardBottom

  function Link<T>(node: Node<T>, d: Direction): Option<Handle>
  {
    match d
    case TowardTop => node.next
    case TowardBottom => node.previous
  }

  /** Delete `cur`, then continue along its `d` link, until a null link. */
  function FreeAlong<T>(arena: Arena<T>, cur: Option<Handle>, d: Direction, freed: seq<Handle>): Outcome
    decreases arena.Keys
  {
    match cur
    case None => Freed(freed)
    case Some(h) =>
      if h !in arena then UseAfterFree(h)
      else FreeAlong(arena - {h}, Link(arena[h], d), d, freed + [h])
  }

  /**
   * A deletion walk that ends at a null link has deleted, after the nodes
   * already in `freed`, only nodes of `arena`, none of them twice, and the
   * first of them is the one it started at.
   */
  lemma {:induction false} FreeAlongOwned<T>(arena: Arena<T>, cur: Option<Handle>, d: Direction, freed: seq<Handle>)
    requires Distinct(freed)
    requires forall h :: h in freed ==> h !in arena
    ensures var r := FreeAlong(arena, cur, d, freed);
      r.Freed? ==>
        && |freed| <= |r.order|
        && r.order[..|freed|] == freed
        && Distinct(r.order)
        && (forall i :: |freed| <= i < |r.order| ==> r.order[i] in arena)
        && (|freed| < |r.order| ==> cur == Some(r.order[|freed|]))
    decreases arena.Keys
  {
    if cur.Some? && cur.value in arena {
      var h := cur.value;
      var more := freed + [h];
      assert Distinct(more) by {
        forall i, j | 0 <= i < j < |more|
          ensures more[i] != more[j]
        {
          if j == |freed| {
            assert more[i] == freed[i];
          } else {
            assert more[i] == freed[i] && more[j] == freed[j];
          }
        }
      }
      FreeAlongOwned(arena - {h}, Link(arena[h], d), d, more);
      var r := FreeAlong(arena - {h}, Link(arena[h], d), d, more);
      if r.Freed? {
        assert r.order[..|more|] == more;
        assert r.order[..|freed|] == more[..|freed|] == freed;
        assert r.order[|freed|] == more[|freed|] == h;
      }
    }
  }

  /**
   * The destructor as written: start at `tail_` and follow `next`. An empty
   * stack frees nothing; a walk that ends normally deletes only owned nodes,
   * each once, beginning with the tail.
   */
  function DestroyAsWritten<T>(s: StackState<T>): (r: Outcome)
    ensures s.tail.None? ==> r == Freed([])
    ensures r.Freed? ==> Distinct(r.order) && forall h :: h in r.order ==> h in s.arena
    ensures r.Freed? && r.order != [] ==> s.tail == Some(r.order[0])
  {
    FreeAlongOwned(s.arena, s.tail, TowardTop, []);
    FreeAlong(s.arena, s.tail, TowardTop, [])
  }

  /**
   * Walking `previous` from the top of a linked chain deletes exactly the
   * chain's nodes, top first, provided nothing else in the arena is reachable.
   */
  lemma {:induction false} FreeChain<T>(arena: Arena<T>, p: Option<Handle>, n: nat, tail: Option<Handle>, freed: seq<Handle>)
    requires Linked(arena, p, n, tail)
    requires Distinct(Handles(arena, p, n))
    ensures FreeAlong(arena, p, TowardBottom, freed) == Freed(freed + Handles(arena, p, n))
    decreases n
  {
    LinkedShape(arena, p, n, tail);
    if n > 0 {
      var h := p.value;
      var below := arena[h].previous;
      var rest := arena - {h};
      if n == 1 {
        assert FreeAlong(rest, below, TowardBottom, freed + [h]) == Freed(freed + [h]);
      } else {
        var hs := Handles(arena, below, n - 1);
        DropTop(arena, p, n, tail);
        LinkedFrame(arena, rest, below, n - 1, tail);
        FreeChain(rest, below, n - 1, tail, freed + [h]);
        assert freed + [h] + hs == freed + ([h] + hs);
      }
    }
  }

  /**
   * The destructor as the design intends it: start at `head_` and follow
   * `previous`. Every owned node is deleted exactly once and nothing dangles.
   */
  function Destroy<T>(s: StackState<T>): (r: Outcome)
    requires Valid(s)
    ensures r.Freed?
    ensures r.order == Chain(s)
    ensures |r.order| == Size(s)
    ensures Distinct(r.order)
    ensures forall h :: h in s.arena <==> h in r.order
  {
    FreeChain(s.arena, s.head, s.size, s.tail, []);
    ValidShape(s);
    FreeAlong(s.arena, s.head, TowardBottom, [])
  }

  /**
   * Two copy-pushes leave the bottom node's `next` null, so the destructor
   * as written deletes the bottom node only and leaks the top one.
   */
  lemma CopyPushesLeakTop()
    ensures var s := PushCopy(PushCopy(New<int>(), 123), 456);
      && Size(s) == 2
      && DestroyAsWritten(s) == Freed([0])
      && Destroy(s) == Freed([1, 0])
  {
    var s0 := New<int>();
    var s1 := PushCopy(s0, 123);
    var s := PushCopy(s1, 456);
    assert s1 == StackState(1, Some(0), Some(0), map[0 := Node(123, None, None)], 1);
    assert s == StackState(2, Some(0), Some(1), map[0 := Node(123, None, None), 1 := Node(456, Some(0), None)], 2);
    assert Chain(s) == [1, 0];
  }

  /** The state after three linked pushes of `a`, `b`, `c`: every node's `next` names the node above it. */
  lemma ThreeLinkedPushes<T>(a: T, b: T, c: T)
    ensures PushMove(PushMove(PushMove(New<T>(), a), b), c)
      == StackState(3, Some(0), Some(2), map[0 := Node(a, None, Some(1)), 1 := Node(b, Some(0), Some(2)), 2 := Node(c, Some(1), None)], 3)
  {
    var s1 := PushMove(New<T>(), a);
    assert s1 == StackState(1, Some(0), Some(0), map[0 := Node(a, None, None)], 1);
    var s2 := PushMove(s1, b);
    assert s2.arena == map[0 := Node(a, None, Some(1)), 1 := Node(b, Some(0), None)];
    assert s2 == StackState(2, Some(0), Some(1), s2.arena, 2);
    var s3 := PushMove(s2, c);
    assert s3.arena == map[0 := Node(a, None, Some(1)), 1 := Node(b, Some(0), Some(2)), 2 := Node(c, Some(1), None)];
  }

  /** Popping from the size-3 branch deletes node 2 but leaves node 1's `next` pointing at it. */
  lemma DeepPopState<T>(a: T, b: T, c: T)
    ensures Pop(PushMove(PushMove(PushMove(New<T>(), a), b), c))
      == StackState(2, Some(0), Some(1), map[0 := Node(a, None, Some(1)), 1 := Node(b, Some(0), Some(2))], 3)
  {
    ThreeLinkedPushes(a, b, c);
    var s3 := PushMove(PushMove(PushMove(New<T>(), a), b), c);
    assert Pop(s3) == s3.(size := 2, head := Some(1), arena := s3.arena - {2});
    assert s3.arena - {2} == map[0 := Node(a, None, Some(1)), 1 := Node(b, Some(0), Some(2))];
  }

  /** Walking `next` from node 0 reaches node 1 and then the deleted node 2. */
  lemma DanglingWalk<T>(a: T, b: T)
    ensures FreeAlong(map[0 := Node(a, None, Some(1)), 1 := Node(b, Some(0), Some(2))], Some(0), TowardTop, [])
      == UseAfterFree(2)
  {
    var arena := map[0 := Node(a, None, Some(1)), 1 := Node(b, Some(0), Some(2))];
    var upper := arena - {0};
    assert upper == map[1 := Node(b, Some(0), Some(2))];
    assert FreeAlong(upper - {1}, Some(2), TowardTop, [0, 1]) == UseAfterFree(2);
    assert FreeAlong(upper, Some(1), TowardTop, [0]) == UseAfterFree(2);
    assert [] + [0] == [0];
  }

  /**
   * After three linked pushes and a pop from the size-3 branch, the new top's
   * `next` still holds the deleted node, which the destructor as written dereferences.
   */
  lemma DeepPopLeavesDanglingNext<T>(a: T, b: T, c: T)
    ensures var s := Pop(PushMove(PushMove(PushMove(New<T>(), a), b), c));
      && Size(s) == 2
      && DestroyAsWritten(s) == UseAfterFree(2)
      && Destroy(s) == Freed([1, 0])
  {
    DeepPopState(a, b, c);
    DanglingWalk(a, b);
    var s := StackState(2, Some(0), Some(1), map[0 := Node(a, None, Some(1)), 1 := Node(b, Some(0), Some(2))], 3);
    assert Chain(s) == [1, 0];
  }
}
