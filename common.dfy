/** Sequence helpers shared by every screen: an optional value, the
    order-preserving `Array.prototype.filter`, reversal and removal by index. */
module Common {

  datatype Option<+T> = None | Some(value: T)

  /** `xs.filter(p)`: the elements of `xs` that satisfy `p`, in their order. */
  function Filter<T(!new)>(xs: seq<T>, p: T -> bool): (r: seq<T>)
    ensures |r| <= |xs|
    ensures forall x :: x in r <==> x in xs && p(x)
  {
    if xs == [] then []
    else (if p(xs[0]) then [xs[0]] else []) + Filter(xs[1..], p)
  }

  /** Filtering distributes over concatenation: this is what "keeps the
      survivors in their original order" means. */
  lemma {:induction false} FilterConcat<T(!new)>(a: seq<T>, b: seq<T>, p: T -> bool)
    ensures Filter(a + b, p) == Filter(a, p) + Filter(b, p)
  {
    if a == [] {
      assert a + b == b;
    } else {
      assert (a + b)[1..] == a[1..] + b;
      FilterConcat(a[1..], b, p);
    }
  }

  /** Filtering by `p` and by its negation `q` splits a sequence into two
      parts whose elements, counted with multiplicity, add up to the original. */
  lemma {:induction false} FilterPartition<T(!new)>(xs: seq<T>, p: T -> bool, q: T -> bool)
    requires forall x :: q(x) == !p(x)
    ensures multiset(Filter(xs, p)) + multiset(Filter(xs, q)) == multiset(xs)
    ensures |Filter(xs, p)| + |Filter(xs, q)| == |xs|
  {
    if xs != [] {
      FilterPartition(xs[1..], p, q);
      assert xs == [xs[0]] + xs[1..];
    }
  }

  /** The reverse of a sequence: element `i` is the input's element `|xs| - 1 - i`. */
  function Reverse<T>(xs: seq<T>): (r: seq<T>)
    ensures |r| == |xs|
    ensures forall i :: 0 <= i < |xs| ==> r[i] == xs[|xs| - 1 - i]
  {
    seq(|xs|, i requires 0 <= i < |xs| => xs[|xs| - 1 - i])
  }

  /** Reversing twice gives back the original sequence. */
  lemma ReverseInvolution<T>(xs: seq<T>)
    ensures Reverse(Reverse(xs)) == xs
  {
    var r := Reverse(Reverse(xs));
    assert forall i :: 0 <= i < |xs| ==> r[i] == xs[i];
  }

  /** `xs.filter((_, j) => j !== i)`: drops the element at index `i`, or
      nothing when `i` is not an index of `xs`. */
  function RemoveAt<T>(xs: seq<T>, i: int): (r: seq<T>)
    ensures 0 <= i < |xs| ==> |r| == |xs| - 1
    ensures 0 <= i < |xs| ==> forall j :: 0 <= j < |r| ==> r[j] == xs[if j < i then j else j + 1]
    ensures !(0 <= i < |xs|) ==> r == xs
  {
    if 0 <= i < |xs| then xs[..i] + xs[i + 1..] else xs
  }

  /** Removing entry `i` of the reversed list is removing the mirrored entry
      of the list itself. */
  lemma ReverseRemoveAt<T>(xs: seq<T>, i: int)
    requires 0 <= i < |xs|
    ensures Reverse(RemoveAt(Reverse(xs), i)) == RemoveAt(xs, |xs| - 1 - i)
  {
    var r, e := Reverse(RemoveAt(Reverse(xs), i)), RemoveAt(xs, |xs| - 1 - i);
    assert |r| == |xs| - 1;
    assert |e| == |xs| - 1;
  }
}
