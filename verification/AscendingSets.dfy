/** Finite sets of numbers visited in ascending order, as a sorted container is. */
module AscendingSets {

  lemma {:induction false} SmallestExists(s: set<nat>)
    requires s != {}
    ensures exists x :: x in s && forall y | y in s :: x <= y
  {
    var x :| x in s;
    var rest := s - {x};
    assert s == rest + {x};
    if rest != {} {
      SmallestExists(rest);
      var z :| z in rest && forall y | y in rest :: z <= y;
      IsSmallest(s, rest, x, z);
    } else {
      assert x in s && forall y | y in s :: x <= y;
    }
  }

  lemma IsSmallest(s: set<nat>, rest: set<nat>, x: nat, z: nat)
    requires s == rest + {x} && z in rest && forall y | y in rest :: z <= y
    ensures exists w :: w in s && forall y | y in s :: w <= y
  {
    var least := if x < z then x else z;
    assert least in s && forall y | y in s :: least <= y;
  }

  method Smallest(s: set<nat>) returns (x: nat)
    requires s != {}
    ensures x in s && forall y | y in s :: x <= y
  {
    SmallestExists(s);
    x :| x in s && forall y | y in s :: x <= y;
  }

  predicate Ascending(s: seq<nat>) {
    forall i, j | 0 <= i < j < |s| :: s[i] < s[j]
  }

  function Members(s: seq<nat>): set<nat> {
    set x | x in s
  }

  lemma AscendingPush(s: seq<nat>, x: nat)
    requires Ascending(s) && forall y | y in s :: y < x
    ensures Ascending(s + [x]) && Members(s + [x]) == Members(s) + {x}
  {
    assert forall i | 0 <= i < |s| :: s[i] in s;
  }

  lemma SmallestFirst(s: seq<nat>, x: nat)
    requires Ascending(s) && x in Members(s) && forall y | y in Members(s) :: x <= y
    ensures s != [] && s[0] == x && Ascending(s[1..]) && Members(s[1..]) == Members(s) - {x}
  {
    assert s[0] in Members(s);
    assert s == [s[0]] + s[1..];
  }

  /** An ascending sequence is determined by its members. */
  lemma {:induction false} AscendingUnique(s: seq<nat>, t: seq<nat>)
    requires Ascending(s) && Ascending(t) && Members(s) == Members(t)
    ensures s == t
    decreases |s|
  {
    NoMembers(s);
    NoMembers(t);
    if s != [] {
      assert forall y | y in Members(s) :: s[0] <= y;
      assert s[0] in Members(s);
      SmallestFirst(t, s[0]);
      SmallestFirst(s, s[0]);
      AscendingUnique(s[1..], t[1..]);
      assert s == [s[0]] + s[1..] && t == [t[0]] + t[1..];
    }
  }

  lemma {:induction false} AscendingSize(s: seq<nat>)
    requires Ascending(s)
    ensures |Members(s)| == |s|
  {
    if s != [] {
      AscendingSize(s[1..]);
      assert s == [s[0]] + s[1..];
      assert Members(s) == Members(s[1..]) + {s[0]};
    }
  }

  lemma NoMembers(s: seq<nat>)
    ensures s != [] ==> Members(s) != {}
  {
    if s != [] {
      assert s[0] in Members(s);
    }
  }

  ghost function AscendingKeys(s: set<nat>): (order: seq<nat>)
    ensures Ascending(order) && Members(order) == s
  {
    if s == {} then []
    else
      SmallestExists(s);
      var x :| x in s && forall y | y in s :: x <= y;
      var rest := AscendingKeys(s - {x});
      PushFront(x, rest);
      [x] + rest
  }

  lemma PushFront(x: nat, s: seq<nat>)
    requires Ascending(s) && forall y | y in Members(s) :: x < y
    ensures Ascending([x] + s) && Members([x] + s) == Members(s) + {x}
  {
    assert forall i | 0 <= i < |s| :: s[i] in Members(s);
  }
}
