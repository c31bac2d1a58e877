/** Lists picked from other lists. */
module Lists {
  ghost predicate GivesSome<S, T(!new)>(s: S, gives: (S, T) -> bool) { exists t :: gives(s, t) }

  /** `to` holds what the elements of `from` give, in their order; an element
      may give nothing. */
  ghost predicate InOrder<S, T(!new)>(from: seq<S>, to: seq<T>, gives: (S, T) -> bool) {
    if from == [] then to == []
    else
      var n, m := |from| - 1, |to| - 1;
      if GivesSome(from[n], gives) then m >= 0 && gives(from[n], to[m]) && InOrder(from[..n], to[..m], gives)
      else InOrder(from[..n], to, gives)
  }

  lemma InOrderTake<S, T(!new)>(from: seq<S>, to: seq<T>, s: S, t: T, gives: (S, T) -> bool)
    requires InOrder(from, to, gives) && gives(s, t)
    ensures InOrder(from + [s], to + [t], gives)
  {
    assert (from + [s])[..|from|] == from && (to + [t])[..|to|] == to;
  }

  lemma InOrderSkip<S, T(!new)>(from: seq<S>, to: seq<T>, s: S, gives: (S, T) -> bool)
    requires InOrder(from, to, gives) && !GivesSome(s, gives)
    ensures InOrder(from + [s], to, gives)
  {
    assert (from + [s])[..|from|] == from;
  }

  /** No element gives two different things. */
  ghost predicate Functional<S(!new), T(!new)>(gives: (S, T) -> bool) {
    forall s, t, u :: gives(s, t) && gives(s, u) ==> t == u
  }

  /** What is picked is what some element gives. */
  lemma {:induction false} InOrderMember<S(!new), T(!new)>(from: seq<S>, to: seq<T>, gives: (S, T) -> bool, t: T)
    requires InOrder(from, to, gives) && Functional(gives)
    ensures t in to <==> exists i :: 0 <= i < |from| && gives(from[i], t)
  {
    if from != [] {
      var n, m := |from| - 1, |to| - 1;
      var front := from[..n];
      assert forall i :: 0 <= i < n ==> front[i] == from[i];
      if GivesSome(from[n], gives) {
        InOrderMember(front, to[..m], gives, t);
        assert to == to[..m] + [to[m]];
        assert gives(from[n], t) <==> t == to[m];
      } else {
        InOrderMember(front, to, gives, t);
      }
    }
  }

  /** The picked list is determined. */
  lemma {:induction false} InOrderUnique<S(!new), T(!new)>(from: seq<S>, to: seq<T>, other: seq<T>,
                                                           gives: (S, T) -> bool)
    requires InOrder(from, to, gives) && InOrder(from, other, gives) && Functional(gives)
    ensures to == other
  {
    if from != [] {
      var n, m, k := |from| - 1, |to| - 1, |other| - 1;
      if GivesSome(from[n], gives) {
        InOrderUnique(from[..n], to[..m], other[..k], gives);
        assert to == to[..m] + [to[m]] && other == other[..k] + [other[k]];
      } else {
        InOrderUnique(from[..n], to, other, gives);
      }
    }
  }

  lemma {:induction false} InOrderConcat<S, T(!new)>(from: seq<S>, to: seq<T>, from': seq<S>, to': seq<T>,
                                                     gives: (S, T) -> bool)
    requires InOrder(from, to, gives) && InOrder(from', to', gives)
    ensures InOrder(from + from', to + to', gives)
    decreases |from'|
  {
    if from' == [] {
      assert from + from' == from && to + to' == to;
    } else {
      var n, m := |from'| - 1, |to'| - 1;
      assert (from + from')[..|from + from'| - 1] == from + from'[..n];
      if GivesSome(from'[n], gives) {
        InOrderConcat(from, to, from'[..n], to'[..m], gives);
        assert (to + to')[..|to + to'| - 1] == to + to'[..m];
      } else {
        InOrderConcat(from, to, from'[..n], to', gives);
      }
    }
  }

  /** All elements of the inner lists, in order. */
  function Flatten<T>(lists: seq<seq<T>>): seq<T> {
    if lists == [] then [] else Flatten(lists[..|lists| - 1]) + lists[|lists| - 1]
  }

  lemma {:induction false} FlattenMember<T(!new)>(lists: seq<seq<T>>, t: T)
    ensures t in Flatten(lists) <==> exists list :: list in lists && t in list
  {
    if lists != [] {
      var n := |lists| - 1;
      assert lists == lists[..n] + [lists[n]];
      FlattenMember(lists[..n], t);
    }
  }
}
