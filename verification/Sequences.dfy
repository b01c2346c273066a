/** Keeping the elements of a list that satisfy a test. */
module Sequences {

  function Retain<T>(keep: T -> bool, s: seq<T>): seq<T> {
    if s == [] then []
    else if keep(s[0]) then [s[0]] + Retain(keep, s[1..])
    else Retain(keep, s[1..])
  }

  lemma {:induction false} RetainMembers<T>(keep: T -> bool, s: seq<T>)
    ensures forall x :: x in Retain(keep, s) <==> x in s && keep(x)
  {
    if s != [] {
      RetainMembers(keep, s[1..]);
      assert s == [s[0]] + s[1..];
    }
  }

  lemma {:induction false} RetainAll<T>(keep: T -> bool, s: seq<T>)
    requires forall x | x in s :: keep(x)
    ensures Retain(keep, s) == s
  {
    if s != [] {
      RetainAll(keep, s[1..]);
      assert s[0] in s && s == [s[0]] + s[1..];
    }
  }

  lemma {:induction false} RetainAppend<T>(keep: T -> bool, s: seq<T>, x: T)
    ensures Retain(keep, s + [x]) == Retain(keep, s) + if keep(x) then [x] else []
  {
    if s != [] {
      RetainAppend(keep, s[1..], x);
      assert (s + [x])[1..] == s[1..] + [x];
    } else {
      assert s + [x] == [x];
    }
  }

  lemma {:induction false} RetainConcat<T>(keep: T -> bool, a: seq<T>, b: seq<T>)
    ensures Retain(keep, a + b) == Retain(keep, a) + Retain(keep, b)
  {
    if a == [] {
      assert a + b == b;
    } else {
      assert (a + b)[1..] == a[1..] + b;
      RetainConcat(keep, a[1..], b);
    }
  }

  lemma {:induction false} NoneRetained<T>(keep: T -> bool, s: seq<T>)
    ensures Retain(keep, s) == [] <==> forall i | 0 <= i < |s| :: !keep(s[i])
  {
    if s != [] {
      NoneRetained(keep, s[1..]);
      assert forall i | 1 <= i < |s| :: s[i] == s[1..][i - 1];
    }
  }

  // The element at position `j` satisfies the test, and no other does.
  predicate OnlyAt<T(!new)>(keep: T -> bool, s: seq<T>, j: int) {
    0 <= j < |s| && forall k | 0 <= k < |s| :: keep(s[k]) <==> k == j
  }

  lemma OnlyAtTail<T(!new)>(keep: T -> bool, s: seq<T>, j: int)
    requires s != [] && !keep(s[0])
    ensures OnlyAt(keep, s, j) <==> OnlyAt(keep, s[1..], j - 1)
  {
    assert forall k | 1 <= k < |s| :: s[k] == s[1..][k - 1];
    assert forall k | 0 <= k < |s[1..]| :: s[1..][k] == s[k + 1];
  }

  lemma OnlyAtHead<T(!new)>(keep: T -> bool, s: seq<T>, j: int)
    requires s != [] && keep(s[0])
    ensures OnlyAt(keep, s, j) <==> j == 0 && forall i | 0 <= i < |s[1..]| :: !keep(s[1..][i])
  {
    assert forall k | 1 <= k < |s| :: s[k] == s[1..][k - 1];
  }

  lemma {:induction false} OneRetained<T(!new)>(keep: T -> bool, s: seq<T>)
    ensures |Retain(keep, s)| == 1 <==> exists j :: OnlyAt(keep, s, j)
  {
    if s != [] {
      forall j ensures !keep(s[0]) ==> (OnlyAt(keep, s, j) <==> OnlyAt(keep, s[1..], j - 1)) {
        if !keep(s[0]) { OnlyAtTail(keep, s, j); }
      }
      OneRetained(keep, s[1..]);
      NoneRetained(keep, s[1..]);
      if keep(s[0]) {
        OnlyAtHead(keep, s, 0);
        forall j ensures OnlyAt(keep, s, j) ==> Retain(keep, s[1..]) == [] { OnlyAtHead(keep, s, j); }
      } else if j :| OnlyAt(keep, s[1..], j) {
        assert OnlyAt(keep, s, j + 1) by { OnlyAtTail(keep, s, j + 1); }
      }
    }
  }
}
