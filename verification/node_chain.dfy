/**
 * The heap nodes of `simple_stack::Stack` and the chains they form.
 *
 * A `Node*` of the C++ class becomes a `Handle` into an arena map; following
 * `previous` from a handle walks from the top of the stack toward its bottom.
 */
module NodeChain {
  import opened Results

  /** The address of a heap node. */
  type Handle = nat

  /** One heap node: the stored value, the link toward the bottom and the link toward the top. */
  datatype Node<T> = Node(value: T, previous: Option<Handle>, next: Option<Handle>)

  /** The nodes currently allocated, by address. */
  type Arena<T> = map<Handle, Node<T>>

  /** The handles visited when following `previous` from `p` for at most `n` nodes, top first. */
  function Handles<T>(arena: Arena<T>, p: Option<Handle>, n: nat): seq<Handle>
    decreases n
  {
    if n == 0 || p.None? || p.value !in arena then []
    else [p.value] + Handles(arena, arena[p.value].previous, n - 1)
  }

  /** The values stored along the same walk, top first. */
  function Values<T>(arena: Arena<T>, p: Option<Handle>, n: nat): seq<T>
    decreases n
  {
    if n == 0 || p.None? || p.value !in arena then []
    else [arena[p.value].value] + Values(arena, arena[p.value].previous, n - 1)
  }

  /**
   * Following `previous` from `p` visits exactly `n` allocated nodes, the last
   * of which is `tail` and has no `previous`; an empty chain has neither end.
   */
  ghost predicate Linked<T>(arena: Arena<T>, p: Option<Handle>, n: nat, tail: Option<Handle>)
    decreases n
  {
    if n == 0 then p.None? && tail.None?
    else
      && p.Some?
      && p.value in arena
      && if n == 1 then arena[p.value].previous.None? && tail == p
         else Linked(arena, arena[p.value].previous, n - 1, tail)
  }

  /** No handle occurs twice: the chain has no cycle. */
  ghost predicate Distinct(hs: seq<Handle>)
  {
    forall i, j :: 0 <= i < j < |hs| ==> hs[i] != hs[j]
  }

  /** `a` and `b` hold every handle of `hs` with the same value and `previous` link; `next` may differ. */
  ghost predicate SameLinks<T>(a: Arena<T>, b: Arena<T>, hs: seq<Handle>)
  {
    forall h :: h in hs ==> h in a && h in b && a[h].value == b[h].value && a[h].previous == b[h].previous
  }

  /** A linked chain of `n` nodes lists `n` allocated handles and `n` values, and its ends agree with `n`. */
  lemma {:induction false} LinkedShape<T>(arena: Arena<T>, p: Option<Handle>, n: nat, tail: Option<Handle>)
    requires Linked(arena, p, n, tail)
    ensures |Handles(arena, p, n)| == n
    ensures |Values(arena, p, n)| == n
    ensures forall h :: h in Handles(arena, p, n) ==> h in arena
    ensures p.None? <==> n == 0
    ensures tail.None? <==> n == 0
    decreases n
  {
    if n > 1 {
      LinkedShape(arena, arena[p.value].previous, n - 1, tail);
    }
  }

  /** Changing anything but the values and `previous` links of a chain's own nodes leaves the chain intact. */
  lemma {:induction false} LinkedFrame<T>(a: Arena<T>, b: Arena<T>, p: Option<Handle>, n: nat, tail: Option<Handle>)
    requires Linked(a, p, n, tail)
    requires SameLinks(a, b, Handles(a, p, n))
    ensures Linked(b, p, n, tail)
    ensures Handles(b, p, n) == Handles(a, p, n)
    ensures Values(b, p, n) == Values(a, p, n)
    decreases n
  {
    if n > 0 {
      var h := p.value;
      assert h in Handles(a, p, n);
      if n > 1 {
        assert Handles(a, p, n) == [h] + Handles(a, a[h].previous, n - 1);
        LinkedFrame(a, b, a[h].previous, n - 1, tail);
      }
    }
  }

  /** A distinct chain of two or more nodes is its top node followed by a distinct chain that avoids the top. */
  lemma DropTop<T>(arena: Arena<T>, p: Option<Handle>, n: nat, tail: Option<Handle>)
    requires Linked(arena, p, n, tail) && Distinct(Handles(arena, p, n)) && n >= 2
    ensures p.Some? && p.value in arena
    ensures Linked(arena, arena[p.value].previous, n - 1, tail)
    ensures Handles(arena, p, n) == [p.value] + Handles(arena, arena[p.value].previous, n - 1)
    ensures Values(arena, p, n) == [arena[p.value].value] + Values(arena, arena[p.value].previous, n - 1)
    ensures p.value !in Handles(arena, arena[p.value].previous, n - 1)
    ensures Distinct(Handles(arena, arena[p.value].previous, n - 1))
  {
    var all := Handles(arena, p, n);
    var rest := Handles(arena, arena[p.value].previous, n - 1);
    assert all == [p.value] + rest;
    forall j | 0 <= j < |rest|
      ensures rest[j] != p.value
    {
      assert all[0] == p.value && rest[j] == all[j + 1];
    }
    forall i, j | 0 <= i < j < |rest|
      ensures rest[i] != rest[j]
    {
      assert rest[i] == all[i + 1] && rest[j] == all[j + 1];
    }
  }

  /** Putting a new node above a chain, without disturbing the chain's own links, extends the chain by one. */
  lemma LinkOnTop<T>(a: Arena<T>, b: Arena<T>, p: Option<Handle>, n: nat, tail: Option<Handle>, h: Handle)
    requires Linked(a, p, n, tail) && n > 0
    requires SameLinks(a, b, Handles(a, p, n))
    requires h in b && b[h].previous == p
    ensures Linked(b, Some(h), n + 1, tail)
    ensures Handles(b, Some(h), n + 1) == [h] + Handles(a, p, n)
    ensures Values(b, Some(h), n + 1) == [b[h].value] + Values(a, p, n)
  {
    LinkedFrame(a, b, p, n, tail);
  }
}
