/** Shared vocabulary: optional values and a few sequence notions. */
module Basics {

  datatype Option<+T> = None | Some(value: T)

  type NodeId = string

  type Channel = string

  function Take<T>(s: seq<T>, n: nat): seq<T> {
    if n <= |s| then s[..n] else s
  }

  /** The last `n` elements, or all of them when there are fewer. */
  function LastN<T>(s: seq<T>, n: nat): seq<T> {
    if n <= |s| then s[|s| - n..] else s
  }

  function Butlast<T>(s: seq<T>): seq<T>
    requires s != []
  {
    s[..|s| - 1]
  }

  function Last<T>(s: seq<T>): T
    requires s != []
  {
    s[|s| - 1]
  }

  lemma ConcatIsAssociative<T>(a: seq<T>, b: seq<T>, c: seq<T>)
    ensures a + (b + c) == a + b + c
  {
  }

  ghost predicate Increasing(s: seq<nat>) {
    forall i, j :: 0 <= i < j < |s| ==> s[i] < s[j]
  }

  lemma IncreasingConcat(a: seq<nat>, b: seq<nat>)
    ensures Increasing(a + b) <==> Increasing(a) && Increasing(b) && forall x, y :: x in a && y in b ==> x < y
  {
    var s := a + b;
    if Increasing(s) {
      forall i, j | 0 <= i < j < |a| ensures a[i] < a[j] {
        assert s[i] == a[i] && s[j] == a[j];
      }
      forall i, j | 0 <= i < j < |b| ensures b[i] < b[j] {
        assert s[|a| + i] == b[i] && s[|a| + j] == b[j];
      }
      forall x, y | x in a && y in b ensures x < y {
        var i :| 0 <= i < |a| && a[i] == x;
        var j :| 0 <= j < |b| && b[j] == y;
        assert s[i] == x && s[|a| + j] == y;
      }
    } else if Increasing(a) && Increasing(b) && forall x, y :: x in a && y in b ==> x < y {
      forall i, j | 0 <= i < j < |s| ensures s[i] < s[j] {
        assert i < |a| ==> s[i] in a;
        assert |a| <= j ==> s[j] in b;
      }
    }
  }

  lemma InLastN<T>(s: seq<T>, n: nat, x: T)
    ensures x in LastN(s, n) <==> exists i :: |s| - n <= i < |s| && 0 <= i && s[i] == x
  {
    var cut := if n <= |s| then |s| - n else 0;
    assert LastN(s, n) == s[cut..];
    if i :| cut <= i < |s| && s[i] == x {
      assert s[cut..][i - cut] == x;
    }
    if j :| 0 <= j < |s[cut..]| && s[cut..][j] == x {
      assert s[cut + j] == x;
    }
  }
}
