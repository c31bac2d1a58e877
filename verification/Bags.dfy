/** Finite multisets of values and the buckets that hold them: the image of a
    multiset under a function, and the contents of an index of buckets. */
module Bags {

  ghost function Pick<A>(bag: multiset<A>): (a: A)
    requires bag != multiset{}
    ensures a in bag
  {
    var a :| a in bag; a
  }

  /** The multiset obtained by applying `f` to every occurrence in `bag`. */
  ghost function Image<A, B>(bag: multiset<A>, f: A -> B): (r: multiset<B>)
    ensures |r| == |bag|
    decreases |bag|
  {
    if bag == multiset{} then multiset{}
    else
      var a := Pick(bag);
      Image(bag - multiset{a}, f) + multiset{f(a)}
  }

  /** The occurrence removed first does not matter. */
  lemma {:induction false} ImageAdd<A, B>(bag: multiset<A>, a: A, f: A -> B)
    ensures Image(bag + multiset{a}, f) == Image(bag, f) + multiset{f(a)}
    decreases |bag|
  {
    var whole := bag + multiset{a};
    assert a in whole;
    var b := Pick(whole);
    if b == a {
      assert whole - multiset{a} == bag;
    } else {
      var rest := bag - multiset{b};
      assert bag == rest + multiset{b};
      calc {
        Image(whole, f);
        Image(whole - multiset{b}, f) + multiset{f(b)};
        { assert whole - multiset{b} == rest + multiset{a}; }
        Image(rest + multiset{a}, f) + multiset{f(b)};
        { ImageAdd(rest, a, f); }
        Image(rest, f) + multiset{f(a)} + multiset{f(b)};
        Image(rest, f) + multiset{f(b)} + multiset{f(a)};
        { ImageAdd(rest, b, f); }
        Image(rest + multiset{b}, f) + multiset{f(a)};
      }
    }
  }

  lemma {:induction false} ImageUnion<A, B>(left: multiset<A>, right: multiset<A>, f: A -> B)
    ensures Image(left + right, f) == Image(left, f) + Image(right, f)
    decreases |right|
  {
    if right == multiset{} {
      assert left + right == left;
    } else {
      var a :| a in right;
      var rest := right - multiset{a};
      assert right == rest + multiset{a};
      assert left + right == (left + rest) + multiset{a};
      ImageUnion(left, rest, f);
      ImageAdd(left + rest, a, f);
      ImageAdd(rest, a, f);
    }
  }

  function MapSeq<A, B>(s: seq<A>, f: A -> B): (r: seq<B>)
  {
    seq(|s|, i requires 0 <= i < |s| => f(s[i]))
  }

  lemma {:induction false} ImageSeq<A, B>(s: seq<A>, f: A -> B)
    ensures Image(multiset(s), f) == multiset(MapSeq(s, f))
  {
    if s == [] {
    } else {
      var front, last := s[..|s| - 1], s[|s| - 1];
      assert s == front + [last];
      assert MapSeq(s, f) == MapSeq(front, f) + [f(last)];
      ImageSeq(front, f);
      ImageAdd(multiset(front), last, f);
    }
  }

  /** Image depends only on the values of `f` on the multiset. */
  lemma {:induction false} ImageAgree<A, B>(bag: multiset<A>, f: A -> B, g: A -> B)
    requires forall a :: a in bag ==> f(a) == g(a)
    ensures Image(bag, f) == Image(bag, g)
    decreases |bag|
  {
    if bag != multiset{} {
      var a :| a in bag;
      var rest := bag - multiset{a};
      assert bag == rest + multiset{a};
      ImageAgree(rest, f, g);
      ImageAdd(rest, a, f);
      ImageAdd(rest, a, g);
    }
  }

  /** A function that moves no element leaves the multiset. */
  lemma {:induction false} ImageFixed<A>(bag: multiset<A>, f: A -> A)
    requires forall a :: a in bag ==> f(a) == a
    ensures Image(bag, f) == bag
    decreases |bag|
  {
    if bag != multiset{} {
      var a :| a in bag;
      var rest := bag - multiset{a};
      assert bag == rest + multiset{a};
      assert forall x :: x in rest ==> x in bag;
      ImageFixed(rest, f);
      ImageAdd(rest, a, f);
    }
  }

  function Then<A, B, C>(f: A -> B, g: B -> C): A -> C {
    a => g(f(a))
  }

  lemma {:induction false} ImageCompose<A, B, C>(bag: multiset<A>, f: A -> B, g: B -> C)
    ensures Image(Image(bag, f), g) == Image(bag, Then(f, g))
    decreases |bag|
  {
    if bag != multiset{} {
      var a :| a in bag;
      var rest := bag - multiset{a};
      assert bag == rest + multiset{a};
      ImageCompose(rest, f, g);
      ImageAdd(rest, a, f);
      ImageAdd(Image(rest, f), f(a), g);
      ImageAdd(rest, a, Then(f, g));
    }
  }

  /** Membership in an image, with the preimage named. */
  lemma {:induction false} ImageMember<A, B>(bag: multiset<A>, f: A -> B, b: B) returns (a: A)
    requires b in Image(bag, f)
    ensures a in bag && f(a) == b
    decreases |bag|
  {
    a := Pick(bag);
    if f(a) != b {
      a := ImageMember(bag - multiset{a}, f, b);
    }
  }

  lemma ImageContains<A, B>(bag: multiset<A>, f: A -> B, a: A)
    requires a in bag
    ensures f(a) in Image(bag, f)
  {
    assert bag == (bag - multiset{a}) + multiset{a};
    ImageAdd(bag - multiset{a}, a, f);
  }

  /** An element no other is identified with keeps its multiplicity. */
  lemma {:induction false} ImageCount<A(!new), B>(bag: multiset<A>, f: A -> B, a: A)
    requires forall b :: f(b) == f(a) ==> b == a
    ensures Image(bag, f)[f(a)] == bag[a]
    decreases |bag|
  {
    if bag != multiset{} {
      var b := Pick(bag);
      var rest := bag - multiset{b};
      assert bag == rest + multiset{b};
      ImageAdd(rest, b, f);
      ImageCount(rest, f, a);
    }
  }

  ghost predicate NoDuplicates<A(!new)>(bag: multiset<A>) {
    forall a :: bag[a] <= 1
  }

  ghost predicate InjectiveOn<A(!new), B>(bag: multiset<A>, f: A -> B) {
    forall a, b :: a in bag && b in bag && f(a) == f(b) ==> a == b
  }

  /** An image of a duplicate-free multiset is duplicate-free exactly when no
      two of its elements are identified. */
  lemma ImageNoDuplicates<A(!new), B(!new)>(bag: multiset<A>, f: A -> B)
    requires NoDuplicates(bag)
    ensures NoDuplicates(Image(bag, f)) <==> InjectiveOn(bag, f)
  {
    if InjectiveOn(bag, f) {
      InjectiveImage(bag, f);
    } else {
      var a, b :| a in bag && b in bag && f(a) == f(b) && a != b;
      var rest := bag - multiset{a} - multiset{b};
      assert bag == rest + multiset{b} + multiset{a};
      ImageAdd(rest + multiset{b}, a, f);
      ImageAdd(rest, b, f);
      assert Image(bag, f)[f(a)] >= 2;
    }
  }

  lemma {:induction false} InjectiveImage<A(!new), B(!new)>(bag: multiset<A>, f: A -> B)
    requires NoDuplicates(bag) && InjectiveOn(bag, f)
    ensures NoDuplicates(Image(bag, f))
    decreases |bag|
  {
    if bag != multiset{} {
      var a :| a in bag;
      var rest := bag - multiset{a};
      assert bag == rest + multiset{a};
      assert bag[a] == 1;
      assert forall x :: x in rest ==> x in bag;
      assert forall x :: rest[x] <= bag[x];
      InjectiveImage(rest, f);
      ImageAdd(rest, a, f);
      if f(a) in Image(rest, f) {
        var b := ImageMember(rest, f, f(a));
        assert false;
      }
    }
  }

  /** All values held in the buckets of an index, with multiplicity. */
  ghost function Flat<K, V>(m: map<K, seq<V>>): (r: multiset<V>)
    decreases |m.Keys|
  {
    if m.Keys == {} then multiset{}
    else
      var k :| k in m.Keys;
      assert (m - {k}).Keys == m.Keys - {k};
      multiset(m[k]) + Flat(m - {k})
  }

  /** Any bucket may be taken out first. */
  lemma {:induction false} FlatRemove<K, V>(m: map<K, seq<V>>, k: K)
    requires k in m
    ensures Flat(m) == multiset(m[k]) + Flat(m - {k})
    decreases |m.Keys|
  {
    var j :| j in m.Keys && Flat(m) == multiset(m[j]) + Flat(m - {j});
    if j != k {
      assert (m - {j}).Keys == m.Keys - {j};
      assert (m - {k}).Keys == m.Keys - {k};
      assert m - {j} - {k} == m - {k} - {j};
      FlatRemove(m - {j}, k);
      FlatRemove(m - {k}, j);
    }
  }

  lemma FlatPut<K, V>(m: map<K, seq<V>>, k: K, s: seq<V>)
    ensures Flat(m[k := s]) == multiset(s) + Flat(m - {k})
  {
    FlatRemove(m[k := s], k);
    assert m[k := s] - {k} == m - {k};
  }

  function MapIndex<K, A, B>(m: map<K, seq<A>>, f: A -> B): (r: map<K, seq<B>>)
  {
    map k | k in m :: MapSeq(m[k], f)
  }

  lemma {:induction false} FlatMap<K, A, B>(m: map<K, seq<A>>, f: A -> B)
    ensures Flat(MapIndex(m, f)) == Image(Flat(m), f)
    decreases |m.Keys|
  {
    if m.Keys != {} {
      var k :| k in m.Keys;
      var rest := m - {k};
      assert rest.Keys == m.Keys - {k};
      assert MapIndex(m, f) - {k} == MapIndex(rest, f);
      FlatMap(rest, f);
      FlatRemove(m, k);
      FlatRemove(MapIndex(m, f), k);
      ImageSeq(m[k], f);
      ImageUnion(multiset(m[k]), Flat(rest), f);
    }
  }

  /** A value is held by an index iff some bucket lists it. */
  lemma {:induction false} FlatMember<K(!new), V>(m: map<K, seq<V>>, v: V)
    ensures v in Flat(m) <==> exists k :: k in m && v in m[k]
    decreases |m.Keys|
  {
    if m.Keys != {} {
      var k :| k in m.Keys;
      var rest := m - {k};
      assert rest.Keys == m.Keys - {k};
      FlatRemove(m, k);
      FlatMember(rest, v);
      assert forall j :: j in rest ==> rest[j] == m[j];
      if v in m[k] {
        assert v in multiset(m[k]);
      }
      if v in Flat(rest) {
        var j :| j in rest && v in rest[j];
        assert j in m && v in m[j];
      }
      if j :| j in m && v in m[j] {
        if j != k {
          assert j in rest && v in rest[j];
        }
      }
    }
  }
}
