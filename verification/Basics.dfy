/** Small shared definitions. */
module Basics {
  datatype Option<+T> = None | Some(value: T)

  function Max(a: int, b: int): int {
    if a < b then b else a
  }

  function Min(a: int, b: int): int {
    if a < b then a else b
  }

  /** `order` has every element of `all` once, and no other. */
  ghost predicate Lists<T>(order: seq<T>, all: set<T>) {
    && (forall x :: x in order ==> x in all)
    && (forall x :: x in all ==> x in order)
    && (forall i, j :: 0 <= i < j < |order| ==> order[i] != order[j])
  }

  lemma Inhabited<T>(s: set<T>) returns (x: T)
    requires s != {}
    ensures x in s
  {
    x :| x in s;
  }

  lemma BagSnoc<T>(s: seq<T>, x: T)
    ensures multiset(s + [x]) == multiset(s) + multiset{x}
  {
  }

  lemma BagLast<T>(s: seq<T>)
    requires s != []
    ensures multiset(s) == multiset(s[..|s| - 1]) + multiset{s[|s| - 1]}
  {
    assert s == s[..|s| - 1] + [s[|s| - 1]];
  }

  /** One more element in one of three bags is one more in their sum. */
  lemma BagsGrow<T>(a: multiset<T>, b: multiset<T>, c: multiset<T>, x: T)
    ensures (a + multiset{x}) + b + c == (a + b + c) + multiset{x}
    ensures a + (b + multiset{x}) + c == (a + b + c) + multiset{x}
    ensures a + b + (c + multiset{x}) == (a + b + c) + multiset{x}
  {
  }
}
