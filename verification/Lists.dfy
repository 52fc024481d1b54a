/** List edits that several parts of the program share. */
module Lists {

  datatype Option<+T> = None | Some(value: T)

  /** The elements of `s` that satisfy `p`, in order. */
  function Filter<T>(s: seq<T>, p: T -> bool): (r: seq<T>)
    ensures |r| <= |s|
  {
    if s == [] then [] else
      var init, last := s[..|s| - 1], s[|s| - 1];
      if p(last) then Filter(init, p) + [last] else Filter(init, p)
  }

  lemma {:induction false} FilterMember<T(!new)>(s: seq<T>, p: T -> bool)
    ensures forall x :: x in Filter(s, p) <==> x in s && p(x)
  {
    if s != [] {
      FilterMember(s[..|s| - 1], p);
      assert s == s[..|s| - 1] + [s[|s| - 1]];
    }
  }

  lemma FilterSnoc<T>(s: seq<T>, x: T, p: T -> bool)
    ensures Filter(s + [x], p) == if p(x) then Filter(s, p) + [x] else Filter(s, p)
  {
    assert (s + [x])[..|s|] == s;
  }

  lemma {:induction false} FilterKeepsAll<T>(s: seq<T>, p: T -> bool)
    ensures Filter(s, p) == s <==> forall x | x in s :: p(x)
  {
    if s != [] {
      FilterKeepsAll(s[..|s| - 1], p);
      assert s == s[..|s| - 1] + [s[|s| - 1]];
    }
  }

  lemma FilterDropsAll<T(!new)>(s: seq<T>, p: T -> bool)
    ensures Filter(s, p) == [] <==> forall x | x in s :: !p(x)
  {
    FilterMember(s, p);
    if Filter(s, p) != [] {
      assert Filter(s, p)[0] in Filter(s, p);
    }
  }

  /** When a single element may fail the test, filtering either keeps the list or cuts that one out. */
  lemma {:induction false} FilterAtOne<T>(s: seq<T>, i: nat, p: T -> bool)
    requires i < |s|
    requires forall j | 0 <= j < |s| && j != i :: p(s[j])
    ensures Filter(s, p) == if p(s[i]) then s else s[..i] + s[i + 1..]
  {
    var n := |s| - 1;
    assert s == s[..n] + [s[n]];
    if i == n {
      FilterKeepsAll(s[..n], p);
      assert s[..i] + s[i + 1..] == s[..n];
    } else {
      FilterAtOne(s[..n], i, p);
      assert s[..i] + s[i + 1..] == s[..n][..i] + s[..n][i + 1..] + [s[n]];
    }
  }

  /** The deletion idiom `s = append(s[:i], s[i+1:]...); i--` inside an index
      loop keeps exactly the wanted elements, in order. */
  method DeleteUnwanted<T>(s: seq<T>, keep: T -> bool) returns (r: seq<T>, count: nat)
    ensures r == Filter(s, keep)
    ensures count == |s| - |r|
    ensures count == 0 <==> forall x | x in s :: keep(x)
  {
    r := s;
    count := 0;
    var i := 0;
    ghost var done := 0;
    while i < |r|
      invariant 0 <= i <= |r|
      invariant done == i + count <= |s|
      invariant i == |Filter(s[..done], keep)|
      invariant r == Filter(s[..done], keep) + s[done..]
    {
      DeleteStep(s, done, keep);
      done := done + 1;
      if !keep(r[i]) {
        r := r[..i] + r[i + 1..];
        count := count + 1;
      } else {
        i := i + 1;
      }
    }
    assert s[..done] == s;
    FilterLength(s, keep);
  }

  lemma DeleteStep<T>(s: seq<T>, done: nat, keep: T -> bool)
    requires done < |s|
    ensures var before, after := Filter(s[..done], keep), Filter(s[..done + 1], keep);
            var r, i := before + s[done..], |before|;
            && r[i] == s[done]
            && if keep(s[done]) then |after| == i + 1 && r == after + s[done + 1..]
               else after == before && r[..i] + r[i + 1..] == after + s[done + 1..]
  {
    assert s[..done + 1] == s[..done] + [s[done]];
    FilterSnoc(s[..done], s[done], keep);
  }

  lemma {:induction false} FilterLength<T>(s: seq<T>, p: T -> bool)
    ensures |Filter(s, p)| == |s| <==> forall x | x in s :: p(x)
  {
    if s != [] {
      FilterLength(s[..|s| - 1], p);
      assert s == s[..|s| - 1] + [s[|s| - 1]];
    }
  }
}
