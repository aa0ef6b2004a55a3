/**
 * Properties of `simple_stack::Stack` that relate several operations:
 * push/pop round trips, LIFO order over many pushes, the tolerated pop on an
 * empty stack, and the agreement of the three push variants.
 */
module StackProperties {
  import opened Results
  import opened NodeChain
  import opened SimpleStack

  /** `xs` back to front. */
  function Reverse<T>(xs: seq<T>): (r: seq<T>)
    ensures |r| == |xs|
    ensures forall i :: 0 <= i < |xs| ==> r[i] == xs[|xs| - 1 - i]
  {
    if xs == [] then [] else Reverse(xs[1..]) + [xs[0]]
  }

  /** What `head()` reports for each of `xs`, read in order. */
  function Observed<T>(xs: seq<T>): seq<Result<T, StackError>>
  {
    seq(|xs|, i requires 0 <= i < |xs| => Ok(xs[i]))
  }

  /** Pushing `vs[0]` and then the rest of `vs` stacks the values in the order `Reverse(vs)` puts them. */
  lemma ReverseStep<T>(vs: seq<T>, below: seq<T>)
    requires vs != []
    ensures Reverse(vs[1..]) + ([vs[0]] + below) == Reverse(vs) + below
  {
  }

  /**
   * The `push` overload a call selects: `push(const_reference_t)` for a
   * braced temporary, `push(value_t&)` for a named non-const value.
   * `push_emplace` with the identity constructor builds the same state as
   * the latter (`PushVariantsAgree`).
   */
  datatype Overload = ConstReference | Reference

  /** One push through the overload `o`. */
  function PushBy<T>(o: Overload, s: StackState<T>, value: T): (r: StackState<T>)
    requires Valid(s)
    ensures Valid(r)
    ensures Contents(r) == [value] + Contents(s)
  {
    match o
    case ConstReference => PushCopy(s, value)
    case Reference => PushMove(s, value)
  }

  /** Push the values of `vs` one after another, first to last, all through the overload `o`. */
  function PushAll<T>(s: StackState<T>, vs: seq<T>, o: Overload): (r: StackState<T>)
    requires Valid(s)
    ensures Valid(r)
    ensures Contents(r) == Reverse(vs) + Contents(s)
    decreases |vs|
  {
    if vs == [] then s
    else
      ReverseStep(vs, Contents(s));
      PushAll(PushBy(o, s, vs[0]), vs[1..], o)
  }

  /** What `head()` reports at read number `i` while draining a stack holding `c`. */
  function HeadAt<T>(c: seq<T>, i: nat): Result<T, StackError>
  {
    if i < |c| then Ok(c[i]) else Err(OutOfRange)
  }

  /** One round of "read, then pop" followed by `n - 1` more rounds reads what `n` rounds read. */
  lemma DrainStep<T>(c: seq<T>, below: seq<T>, n: nat, first: Result<T, StackError>, rest: seq<Result<T, StackError>>)
    requires n > 0
    requires below == if c == [] then [] else c[1..]
    requires first == HeadAt(c, 0)
    requires |rest| == n - 1
    requires forall i :: 0 <= i < n - 1 ==> rest[i] == HeadAt(below, i)
    ensures forall i :: 0 <= i < n ==> ([first] + rest)[i] == HeadAt(c, i)
    ensures (if n - 1 <= |below| then below[n - 1..] else []) == (if n <= |c| then c[n..] else [])
  {
  }

  /**
   * `n` rounds of "read `head()`, then `pop()`": what each `head()` reported,
   * and the stack left at the end.
   */
  function Drain<T>(s: StackState<T>, n: nat): (r: (seq<Result<T, StackError>>, StackState<T>))
    requires Valid(s)
    ensures Valid(r.1)
    ensures |r.0| == n
    ensures forall i :: 0 <= i < n ==> r.0[i] == HeadAt(Contents(s), i)
    ensures Contents(r.1) == if n <= |Contents(s)| then Contents(s)[n..] else []
    decreases n
  {
    if n == 0 then ([], s)
    else
      var rest := Drain(Pop(s), n - 1);
      DrainStep(Contents(s), Contents(Pop(s)), n, Head(s), rest.0);
      ([Head(s)] + rest.0, rest.1)
  }

  /** A push of any kind immediately followed by a pop restores the previous contents, and `head()` again reports the old top. */
  lemma PushPopRoundTrip<T>(s: StackState<T>, value: T)
    requires Valid(s)
    ensures Contents(Pop(PushCopy(s, value))) == Contents(s)
    ensures Contents(Pop(PushMove(s, value))) == Contents(s)
    ensures Contents(Pop(PushEmplace(s, (x: T) => x, value))) == Contents(s)
    ensures Head(Pop(PushCopy(s, value))) == Head(Pop(PushMove(s, value))) == Head(s)
    ensures Head(Pop(PushEmplace(s, (x: T) => x, value))) == Head(s)
  {
  }

  /** Draining `|xs|` reads from a stack holding `xs` above anything reports exactly `xs`. */
  lemma DrainedPrefix<T>(xs: seq<T>, below: seq<T>, heads: seq<Result<T, StackError>>)
    requires |heads| == |xs|
    requires forall i :: 0 <= i < |xs| ==> heads[i] == HeadAt(xs + below, i)
    ensures heads == Observed(xs)
    ensures (xs + below)[|xs|..] == below
  {
  }

  /** N pushes through either overload followed by N pops report the values newest first and leave the stack as it was. */
  lemma LifoRoundTrip<T>(s: StackState<T>, vs: seq<T>, o: Overload)
    requires Valid(s)
    ensures Drain(PushAll(s, vs, o), |vs|).0 == Observed(Reverse(vs))
    ensures Contents(Drain(PushAll(s, vs, o), |vs|).1) == Contents(s)
  {
    var full := PushAll(s, vs, o);
    DrainedPrefix(Reverse(vs), Contents(s), Drain(full, |vs|).0);
  }

  /** Once empty, any number of further pops changes nothing and every `head()` reports the error. */
  lemma {:induction false} PopOnEmptyForever<T>(s: StackState<T>, n: nat)
    requires Valid(s) && Empty(s)
    ensures Drain(s, n).1 == s
    ensures forall i :: 0 <= i < n ==> Drain(s, n).0[i] == Err(OutOfRange)
    decreases n
  {
    if n > 0 {
      assert Pop(s) == s;
      PopOnEmptyForever(s, n - 1);
    }
  }

  /**
   * The three push variants agree on everything a caller can observe.
   * `push_emplace` of the identity builds exactly the state of the reference
   * push; the copy-push state differs from it at most in the node that was
   * the head, whose `next` link copy-push leaves as it was.
   */
  lemma PushVariantsAgree<T>(s: StackState<T>, value: T)
    requires Valid(s)
    ensures Contents(PushCopy(s, value)) == Contents(PushMove(s, value)) == Contents(PushEmplace(s, (x: T) => x, value))
    ensures Head(PushCopy(s, value)) == Head(PushMove(s, value)) == Ok(value)
    ensures var c := PushCopy(s, value); var m := PushMove(s, value);
      && c.size == m.size && c.head == m.head && c.tail == m.tail && c.nextFree == m.nextFree
      && c.arena.Keys == m.arena.Keys
      && SameLinks(c.arena, m.arena, Chain(c))
    ensures PushEmplace(s, (x: T) => x, value) == PushMove(s, value)
    ensures var c := PushCopy(s, value); var m := PushMove(s, value);
      forall h :: h in c.arena && Some(h) != s.head ==> h in m.arena && c.arena[h] == m.arena[h]
  {
    ValidShape(s);
  }

  /** Moving a stack out and back again restores both stacks' contents. */
  lemma MoveAssignTwiceRestores<T>(a: StackState<T>, b: StackState<T>)
    requires Valid(a) && Valid(b)
    ensures var once := MoveAssign(a, b); var twice := MoveAssign(once.0, once.1);
      Contents(twice.0) == Contents(a) && Contents(twice.1) == Contents(b)
  {
  }
}
