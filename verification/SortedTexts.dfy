// Sorting strings by code point: one result, whatever the order of the input.
module SortedTexts {
  import opened Texts

  predicate Ascending(xs: seq<string>) {
    forall i, j :: 0 <= i < j < |xs| ==> LexLeq(xs[i], xs[j])
  }

  lemma AscendingSnoc(xs: seq<string>, x: string)
    requires Ascending(xs) && (xs != [] ==> LexLeq(xs[|xs| - 1], x))
    ensures Ascending(xs + [x])
  {
    var r := xs + [x];
    forall i, j | 0 <= i < j < |r| ensures LexLeq(r[i], r[j]) {
      if j == |xs| && i < |xs| - 1 {
        LexTransitive(r[i], xs[|xs| - 1], x);
      }
    }
  }

  lemma {:induction false} LastIsGreatest(xs: seq<string>, x: string)
    requires Ascending(xs) && x in xs
    ensures LexLeq(x, xs[|xs| - 1])
  {
    var i :| 0 <= i < |xs| && xs[i] == x;
    LexTotal(x, x);
  }

  function Insert(xs: seq<string>, x: string): (r: seq<string>)
    requires Ascending(xs)
    ensures Ascending(r) && multiset(r) == multiset(xs) + multiset{x}
  {
    if xs == [] || LexLeq(xs[|xs| - 1], x) then
      AscendingSnoc(xs, x);
      xs + [x]
    else
      var front, last := xs[..|xs| - 1], xs[|xs| - 1];
      var r := Insert(front, x);
      InsertLast(xs, x, r);
      r + [last]
  }

  lemma InsertLast(xs: seq<string>, x: string, r: seq<string>)
    requires xs != [] && Ascending(xs) && !LexLeq(xs[|xs| - 1], x)
    requires Ascending(r) && multiset(r) == multiset(xs[..|xs| - 1]) + multiset{x}
    ensures Ascending(r + [xs[|xs| - 1]]) && multiset(r + [xs[|xs| - 1]]) == multiset(xs) + multiset{x}
  {
    var front, last := xs[..|xs| - 1], xs[|xs| - 1];
    assert xs == front + [last];
    LexTotal(x, last);
    if r != [] {
      assert r[|r| - 1] in multiset(r);
      if r[|r| - 1] != x {
        assert r[|r| - 1] in multiset(front);
        LastIsGreatest(xs, r[|r| - 1]);
      }
    }
    AscendingSnoc(r, last);
  }

  function Sorted(xs: seq<string>): (r: seq<string>)
    ensures Ascending(r) && multiset(r) == multiset(xs)
  {
    if xs == [] then []
    else
      assert xs == xs[..|xs| - 1] + [xs[|xs| - 1]];
      Insert(Sorted(xs[..|xs| - 1]), xs[|xs| - 1])
  }

  lemma SameLast(a: seq<string>, b: seq<string>)
    requires Ascending(a) && Ascending(b) && multiset(a) == multiset(b) && a != []
    ensures b != [] && a[|a| - 1] == b[|b| - 1]
  {
    var x := a[|a| - 1];
    assert x in multiset(b);
    var y := b[|b| - 1];
    assert y in multiset(a);
    LastIsGreatest(a, y);
    LastIsGreatest(b, x);
    LexAntisymmetric(x, y);
  }

  lemma WithoutLast(a: seq<string>)
    requires a != []
    ensures multiset(a[..|a| - 1]) == multiset(a) - multiset{a[|a| - 1]}
    ensures a == a[..|a| - 1] + [a[|a| - 1]]
  {
    assert a == a[..|a| - 1] + [a[|a| - 1]];
  }

  // Two ascending lists of the same strings are the same list.
  lemma {:induction false} AscendingIsUnique(a: seq<string>, b: seq<string>)
    requires Ascending(a) && Ascending(b) && multiset(a) == multiset(b)
    ensures a == b
  {
    if a == [] {
      assert |multiset(b)| == |b|;
    } else {
      SameLast(a, b);
      WithoutLast(a);
      WithoutLast(b);
      AscendingIsUnique(a[..|a| - 1], b[..|b| - 1]);
    }
  }

  lemma SortedAgain(xs: seq<string>)
    requires Ascending(xs)
    ensures Sorted(xs) == xs
  {
    AscendingIsUnique(Sorted(xs), xs);
  }
}
