/** Counting the elements of a sequence that satisfy a predicate. */
module Counting {

  function Count<T>(items: seq<T>, p: T -> bool): nat {
    if items == [] then 0 else (if p(items[0]) then 1 else 0) + Count(items[1..], p)
  }

  lemma {:induction false} CountConcat<T>(left: seq<T>, right: seq<T>, p: T -> bool)
    ensures Count(left + right, p) == Count(left, p) + Count(right, p)
  {
    if left == [] {
      assert left + right == right;
    } else {
      assert (left + right)[1..] == left[1..] + right;
      CountConcat(left[1..], right, p);
    }
  }

  lemma CountUpdate<T>(items: seq<T>, i: nat, item: T, p: T -> bool)
    requires i < |items|
    ensures Count(items[i := item], p) + (if p(items[i]) then 1 else 0)
         == Count(items, p) + (if p(item) then 1 else 0)
    ensures p(items[i]) ==> Count(items, p) > 0
  {
    assert items == items[..i] + ([items[i]] + items[i + 1..]);
    assert items[i := item] == items[..i] + ([item] + items[i + 1..]);
    CountConcat(items[..i], [items[i]] + items[i + 1..], p);
    CountConcat(items[..i], [item] + items[i + 1..], p);
  }

  lemma {:induction false} CountAtMost<T>(items: seq<T>, p: T -> bool, q: T -> bool)
    requires forall i :: 0 <= i < |items| && p(items[i]) ==> q(items[i])
    ensures Count(items, p) <= Count(items, q) <= |items|
  {
    if items != [] {
      CountAtMost(items[1..], p, q);
    }
  }

  lemma {:induction false} CountNone<T>(items: seq<T>, p: T -> bool)
    ensures Count(items, p) == 0 <==> forall i :: 0 <= i < |items| ==> !p(items[i])
  {
    if items != [] {
      CountNone(items[1..], p);
      if Count(items, p) == 0 {
        forall i | 0 <= i < |items|
          ensures !p(items[i])
        {
          if i > 0 { assert items[i] == items[1..][i - 1]; }
        }
      } else if !p(items[0]) {
        var i :| 0 <= i < |items[1..]| && p(items[1..][i]);
        assert p(items[i + 1]);
      }
    }
  }
}
