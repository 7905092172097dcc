// Facts about sequence slices that loops over a list need.
module Sequences {
  // The first i + 1 elements are the first i and the next one.
  lemma Snoc<T>(s: seq<T>, i: nat)
    requires i < |s|
    ensures s[..i + 1] != [] && |s[..i + 1]| == i + 1
    ensures s[..i + 1][..i] == s[..i] && s[..i + 1][i] == s[i]
    ensures s[..i + 1] == s[..i] + [s[i]]
  {
  }

  lemma Whole<T>(s: seq<T>)
    ensures s[..|s|] == s
  {
  }

  predicate NoRepeats<T(==)>(s: seq<T>) {
    forall i, j :: 0 <= i < j < |s| ==> s[i] != s[j]
  }

  lemma OnceEach<T>(s: seq<T>, x: T)
    requires NoRepeats(s)
    ensures multiset(s)[x] <= 1
  {
    if x in s {
      var k :| 0 <= k < |s| && s[k] == x;
      assert s == s[..k] + [x] + s[k + 1..];
      assert x !in s[..k] && x !in s[k + 1..];
    }
  }

  // A reordering of a list without repeats has none.
  lemma StillOnce<T>(s: seq<T>, t: seq<T>)
    requires NoRepeats(s) && multiset(t) == multiset(s)
    ensures NoRepeats(t)
  {
    forall i, j | 0 <= i < j < |t| ensures t[i] != t[j] {
      if t[i] == t[j] {
        var front, back := t[..j], t[j..];
        assert t == front + back && front[i] == t[i] && back[0] == t[i];
        assert multiset(front)[t[i]] >= 1 && multiset(back)[t[i]] >= 1;
        OnceEach(s, t[i]);
      }
    }
  }

  lemma OneLonger<T>(p: seq<T>, q: seq<T>, x: T)
    requires |p| == |q| + 1 && p[|q|] == x && forall i :: 0 <= i < |q| ==> p[i] == q[i]
    ensures p == q + [x]
  {
  }

  // at lists the positions of the flags that are set, in order.
  ghost predicate Marks(at: seq<nat>, flags: seq<bool>) {
    && (forall j :: 0 <= j < |at| ==> at[j] < |flags|)
    && (forall j, l :: 0 <= j < l < |at| ==> at[j] < at[l])
    && forall n: nat :: n < |flags| ==> (n in at <==> flags[n])
  }

  lemma MarksSnoc(at: seq<nat>, flags: seq<bool>, flag: bool)
    requires Marks(at, flags)
    ensures Marks(if flag then at + [|flags|] else at, flags + [flag])
  {
    var more := at + [|flags|];
    forall n: nat | n < |flags| ensures n in more <==> n in at {
    }
    assert more[|at|] == |flags|;
  }

  // vals are the elements of all at these positions.
  ghost predicate Picked<T>(at: seq<nat>, vals: seq<T>, all: seq<T>) {
    |at| == |vals| && forall j :: 0 <= j < |at| ==> at[j] < |all| && vals[j] == all[at[j]]
  }

  lemma PickedSnoc<T>(at: seq<nat>, vals: seq<T>, all: seq<T>, x: T, flag: bool)
    requires Picked(at, vals, all)
    ensures Picked(if flag then at + [|all|] else at, if flag then vals + [x] else vals, all + [x])
  {
  }
}
