/** Values shared by every component of the auction client. */
module Common {

  datatype Option<+T> = None | Some(value: T)

  /** A signer handed out by the wallet agent. `handle` stands for the identity of the
      JavaScript object, so two signers for the same address are still different values. */
  datatype Signer = Signer(handle: nat, address: string)

  /** Outcome of `parseEther` on a decimal string: an amount in wei, or the thrown message. */
  datatype Parsed = Wei(amount: int) | Unparsable(message: string)

  /** Outcome of sending a transaction and awaiting `tx.wait()`: mined, or the thrown message. */
  datatype TxResult = Mined | Failed(message: string)

  /** `Array.prototype.filter`: the elements satisfying `p`, in their original order. */
  function Filter<T(!new)>(s: seq<T>, p: T -> bool): (r: seq<T>)
    ensures |r| <= |s|
  {
    if s == [] then [] else (if p(s[0]) then [s[0]] else []) + Filter(s[1..], p)
  }

  /** The kept elements are exactly the elements of `s` that satisfy `p`. */
  lemma {:induction false} FilterMembers<T(!new)>(s: seq<T>, p: T -> bool)
    ensures forall x :: x in Filter(s, p) <==> x in s && p(x)
  {
    if s != [] {
      FilterMembers(s[1..], p);
      assert s == [s[0]] + s[1..];
    }
  }

  /** Filtering distributes over concatenation: the kept elements keep their relative order. */
  lemma {:induction false} FilterAppend<T(!new)>(a: seq<T>, b: seq<T>, p: T -> bool)
    ensures Filter(a + b, p) == Filter(a, p) + Filter(b, p)
  {
    if a == [] {
      assert a + b == b;
    } else {
      assert (a + b)[0] == a[0];
      assert (a + b)[1..] == a[1..] + b;
      FilterAppend(a[1..], b, p);
      assert Filter(a + b, p) == (if p(a[0]) then [a[0]] else []) + Filter(a[1..] + b, p);
    }
  }

  /** Filtering by a predicate and by its negation splits a sequence into two parts
      that together hold every element exactly as often as the sequence does. */
  lemma {:induction false} FilterComplement<T(!new)>(s: seq<T>, p: T -> bool, q: T -> bool)
    requires forall x :: q(x) == !p(x)
    ensures multiset(Filter(s, p)) + multiset(Filter(s, q)) == multiset(s)
  {
    if s != [] {
      FilterComplement(s[1..], p, q);
      ComplementStep(s, p, q);
      assert s == [s[0]] + s[1..];
    }
  }

  /** The first element goes to exactly one of the two parts. */
  lemma ComplementStep<T(!new)>(s: seq<T>, p: T -> bool, q: T -> bool)
    requires s != [] && q(s[0]) == !p(s[0])
    ensures multiset(Filter(s, p)) + multiset(Filter(s, q))
      == multiset{s[0]} + (multiset(Filter(s[1..], p)) + multiset(Filter(s[1..], q)))
  {
    if p(s[0]) {
      assert Filter(s, p) == [s[0]] + Filter(s[1..], p);
    } else {
      assert Filter(s, q) == [s[0]] + Filter(s[1..], q);
    }
  }

  /** A predicate that holds everywhere keeps the whole sequence. */
  lemma {:induction false} FilterAll<T(!new)>(s: seq<T>, p: T -> bool)
    requires forall x :: p(x)
    ensures Filter(s, p) == s
  {
    if s != [] {
      FilterAll(s[1..], p);
      assert s == [s[0]] + s[1..];
    }
  }
}
