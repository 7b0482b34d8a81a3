/**
  The lists the views build by iterating over the graph, as multisets: the
  graph's iteration order is not part of the model, how often each entry
  occurs is.
*/
module Bags {
  /** Some element of a non-empty set; which one is left unspecified. */
  ghost function Any<T>(s: set<T>): (x: T)
    requires s != {}
    ensures x in s
  {
    var x :| x in s; x
  }

  /** `[f(x) for x in s]`, in whatever order `s` is iterated. */
  ghost function Bag<T, U>(s: set<T>, f: T -> U): (b: multiset<U>)
    ensures |b| == |s|
    decreases s
  {
    if s == {} then multiset{} else
      var x := Any(s);
      multiset{f(x)} + Bag(s - {x}, f)
  }

  /** The elements of `s` that `f` maps to `u`. */
  function Preimage<T, U(==)>(s: set<T>, f: T -> U, u: U): set<T> {
    set x | x in s && f(x) == u
  }

  /** Each value occurs once per element it is the image of. */
  lemma {:induction false} BagCount<T, U>(s: set<T>, f: T -> U, u: U)
    ensures Bag(s, f)[u] == |Preimage(s, f, u)|
    decreases s
  {
    if s != {} {
      var x := Any(s);
      BagCount(s - {x}, f, u);
      var before := Preimage(s - {x}, f, u);
      var all := Preimage(s, f, u);
      if f(x) == u {
        assert all == before + {x};
      } else {
        assert all == before;
      }
    }
  }

  lemma BagHas<T, U>(s: set<T>, f: T -> U, u: U)
    ensures u in Bag(s, f) <==> exists x | x in s :: f(x) == u
  {
    BagCount(s, f, u);
    var images := Preimage(s, f, u);
    if exists x | x in s :: f(x) == u {
      var x :| x in s && f(x) == u;
      assert x in images;
    } else {
      assert images == {};
    }
  }

  lemma BagSingle<T, U>(x: T, f: T -> U)
    ensures Bag({x}, f) == multiset{f(x)}
  {
    assert {x} - {x} == {};
  }

  /** Adding an element `f` maps to `u` adds one to the count of `u`, unless it was there. */
  lemma PreimageInsert<T, U>(s: set<T>, f: T -> U, x: T)
    ensures |Preimage(s + {x}, f, f(x))| == |Preimage(s, f, f(x))| + (if x in s then 0 else 1)
  {
    if x !in s {
      assert Preimage(s + {x}, f, f(x)) == Preimage(s, f, f(x)) + {x};
    } else {
      assert s + {x} == s;
    }
  }

  /** Removing an element `f` maps to `u` takes one from the count of `u`, when it was there. */
  lemma PreimageDelete<T, U>(s: set<T>, f: T -> U, x: T)
    ensures |Preimage(s - {x}, f, f(x))| + (if x in s then 1 else 0) == |Preimage(s, f, f(x))|
  {
    if x in s {
      assert Preimage(s, f, f(x)) == Preimage(s - {x}, f, f(x)) + {x};
    } else {
      assert s - {x} == s;
    }
  }

  /** A new element adds its image once. */
  lemma BagInsert<T, U>(s: set<T>, f: T -> U, x: T)
    requires x !in s
    ensures Bag(s + {x}, f) == Bag(s, f) + multiset{f(x)}
  {
    BagRemove(s + {x}, f, x);
    assert (s + {x}) - {x} == s;
  }

  /** Any element can be taken out first: the bag does not depend on which one `Any` picks. */
  lemma {:induction false} BagRemove<T, U>(s: set<T>, f: T -> U, y: T)
    requires y in s
    ensures Bag(s, f) == multiset{f(y)} + Bag(s - {y}, f)
    decreases s
  {
    var z := Any(s);
    if z != y {
      BagRemove(s - {z}, f, y);
      BagRemove(s - {y}, f, z);
      assert s - {z} - {y} == s - {y} - {z};
    }
  }

  /** Two maps that agree on the set give the same bag. */
  lemma {:induction false} BagAgree<T, U>(s: set<T>, f: T -> U, f2: T -> U)
    requires forall x | x in s :: f(x) == f2(x)
    ensures Bag(s, f) == Bag(s, f2)
    decreases s
  {
    if s != {} {
      BagAgree(s - {Any(s)}, f, f2);
    }
  }
}
