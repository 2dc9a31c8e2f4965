/**
 The synchronous reference for Peterson's leader election: round k maps the competing
 identifiers of the ring to the competing identifiers of round k + 1, with no queues,
 channels or interleaving.  The asynchronous automata are proved to compute exactly this.
 */
module PetersonPhases {
  import opened Common

  type Uid = int

  /** What UID () yields; the automaton uses it to mean "not received yet". */
  const NULL_UID: Uid := 0

  /** contenders[i] is the identifier node i competes with, or None when node i only relays. */
  type Contenders = c: seq<Option<Uid>> | |c| > 0 witness [None]

  ghost predicate Distinct(c: Contenders) {
    forall i, j | 0 <= i < |c| && 0 <= j < |c| && i != j && c[i].Some? :: c[i] != c[j]
  }

  predicate NonEmpty(c: Contenders) {
    exists i | 0 <= i < |c| :: c[i].Some?
  }

  predicate Sole(c: Contenders, i: nat) {
    i < |c| && c[i].Some? && forall j | 0 <= j < |c| && j != i :: c[j].None?
  }

  /** Steps upstream from i, starting d steps away, to the nearest contender; |c| if there is none. */
  function Gap(c: Contenders, i: nat, d: nat): (g: nat)
    requires i < |c| && d <= |c|
    ensures d <= g <= |c|
    decreases |c| - d
  {
    if d == |c| || c[Back(i, d, |c|)].Some? then d else Gap(c, i, d + 1)
  }

  /** The gap ends at the first contender. */
  lemma {:induction false} GapLeast(c: Contenders, i: nat, d: nat)
    requires i < |c| && d <= |c|
    ensures var g := Gap(c, i, d);
            && (g < |c| ==> c[Back(i, g, |c|)].Some?)
            && (forall e: nat | d <= e < g :: c[Back(i, e, |c|)].None?)
    decreases |c| - d
  {
    if !(d == |c| || c[Back(i, d, |c|)].Some?) {
      GapLeast(c, i, d + 1);
    }
  }

  lemma {:induction false} GapIs(c: Contenders, i: nat, d: nat, g: nat)
    requires i < |c| && d <= g < |c| && c[Back(i, g, |c|)].Some?
    requires forall e: nat | d <= e < g :: c[Back(i, e, |c|)].None?
    ensures Gap(c, i, d) == g
    decreases g - d
  {
    if d < g {
      GapIs(c, i, d + 1, g);
    }
  }

  lemma GapFinds(c: Contenders, i: nat)
    requires i < |c| && NonEmpty(c)
    ensures Gap(c, i, 0) < |c| && c[Back(i, Gap(c, i, 0), |c|)].Some?
    ensures forall e: nat | e < Gap(c, i, 0) :: c[Back(i, e, |c|)].None?
  {
    GapLeast(c, i, 0);
    var n := |c|;
    var j :| 0 <= j < n && c[j].Some?;
    var d: nat := if j <= i then i - j else i + n - j;
    assert Back(i, d, n) == j;
  }

  /** The contender at i or nearest upstream of it (i itself when nobody competes). */
  function Nearest(c: Contenders, i: nat): (r: nat)
    requires i < |c|
    ensures r < |c|
    ensures c[i].Some? ==> r == i
  {
    Back(i, Gap(c, i, 0), |c|)
  }

  /** The identifier of the nearest contender, and that of the contender before it. */
  function First(c: Contenders, i: nat): Option<Uid>
    requires i < |c|
  {
    c[Nearest(c, i)]
  }

  function Second(c: Contenders, i: nat): Option<Uid>
    requires i < |c|
  {
    First(c, Prev(Nearest(c, i), |c|))
  }

  /** Relays are transparent: what arrives past a relay is what arrived at it. */
  lemma RelayTransparent(c: Contenders, i: nat)
    requires i < |c| && c[i].None?
    ensures First(c, i) == First(c, Prev(i, |c|))
    ensures NonEmpty(c) ==> Second(c, i) == Second(c, Prev(i, |c|))
  {
    var n := |c|;
    var p := Prev(i, n);
    var g := Gap(c, i, 0);
    if NonEmpty(c) {
      GapFinds(c, i);
      assert g > 0 by { assert Back(i, 0, n) == i; }
      assert Back(i, g, n) == Back(p, g - 1, n);
      assert c[Back(p, g - 1, n)].Some?;
      forall e: nat | e < g - 1
        ensures c[Back(p, e, n)].None?
      {
        assert Back(p, e, n) == Back(i, e + 1, n);
      }
      GapIs(c, p, 0, g - 1);
    }
  }

  /** The predecessor of a contender among the contenders. */
  function Predecessor(c: Contenders, i: nat): (r: nat)
    requires i < |c|
    ensures r < |c|
  {
    Nearest(c, Prev(i, |c|))
  }

  lemma PredecessorCompetes(c: Contenders, i: nat)
    requires i < |c| && NonEmpty(c)
    ensures c[Predecessor(c, i)].Some? && c[Nearest(c, i)].Some?
  {
    GapFinds(c, Prev(i, |c|));
    GapFinds(c, i);
  }

  /** Two contenders with the same predecessor are the same contender. */
  lemma PredecessorInjective(c: Contenders, i: nat, j: nat)
    requires i < |c| && j < |c| && c[i].Some? && c[j].Some?
    requires Predecessor(c, i) == Predecessor(c, j)
    requires Gap(c, Prev(i, |c|), 0) <= Gap(c, Prev(j, |c|), 0)
    ensures i == j
  {
    var n := |c|;
    GapFinds(c, Prev(i, n));
    GapFinds(c, Prev(j, n));
    BackCancels(i, j, Gap(c, Prev(i, n), 0), Gap(c, Prev(j, n), 0), n);
  }

  lemma BackCancels(i: nat, j: nat, di: nat, dj: nat, n: nat)
    requires i < n && j < n && di <= dj < n
    ensures Back(Prev(i, n), di, n) == Back(Prev(j, n), dj, n) && di < dj ==> Back(Prev(j, n), dj - di - 1, n) == i
  {}

  /** Only the sole contender is its own predecessor. */
  lemma OwnPredecessor(c: Contenders, i: nat)
    requires i < |c| && c[i].Some?
    ensures Predecessor(c, i) == i <==> Sole(c, i)
  {
    var n := |c|;
    GapFinds(c, Prev(i, n));
    if Predecessor(c, i) == i {
      assert Gap(c, Prev(i, n), 0) == n - 1;
      forall j | 0 <= j < n && j != i
        ensures c[j].None?
      {
        var d: nat := if j < i then i - 1 - j else i + n - 1 - j;
        assert Back(Prev(i, n), d, n) == j;
      }
    } else {
      PredecessorCompetes(c, i);
    }
  }

  // ---------------------------------------------------------------- one round

  /** A contender survives when its predecessor's identifier beats its own and the one before. */
  function Survivor(c: Contenders, i: nat): Option<Uid>
    requires i < |c|
  {
    var first, second := First(c, Prev(i, |c|)), Second(c, Prev(i, |c|));
    if c[i].Some? && first.Some? && second.Some? && first.value > c[i].value && first.value > second.value
    then first
    else None
  }

  ghost predicate IsNextRound(c: Contenders, r: seq<Option<Uid>>) {
    |r| == |c| && forall i: nat {:trigger Survivor(c, i)} | i < |c| :: r[i] == Survivor(c, i)
  }

  lemma NextRoundExists(c: Contenders)
    ensures exists r :: IsNextRound(c, r)
  {
    assert IsNextRound(c, seq(|c|, i requires 0 <= i < |c| => Survivor(c, i)));
  }

  /** The contenders of the next round are the survivors of this one. */
  ghost function NextRound(c: Contenders): (r: Contenders)
    ensures |r| == |c|
  {
    NextRoundExists(c);
    var r :| IsNextRound(c, r);
    r
  }

  lemma NextRoundAt(c: Contenders)
    ensures forall i | 0 <= i < |c| :: NextRound(c)[i] == Survivor(c, i)
  {}

  /** Round k of the ring whose nodes carry the identifiers us. */
  ghost function Round(us: seq<Uid>, k: nat): (c: Contenders)
    requires us != []
    ensures |c| == |us|
  {
    if k == 0 then FirstRound(us) else NextRound(Round(us, k - 1))
  }

  function FirstRound(us: seq<Uid>): (c: Contenders)
    requires us != []
    ensures |c| == |us| && forall i | 0 <= i < |us| :: c[i] == Some(us[i])
  {
    seq(|us|, i requires 0 <= i < |us| => Some(us[i]))
  }

  function Competing(c: Contenders): (s: set<nat>)
    ensures forall i: nat :: i in s <==> i < |c| && c[i].Some?
  {
    set i: nat | i < |c| && c[i].Some?
  }

  lemma NextRoundDistinct(c: Contenders)
    requires Distinct(c)
    ensures Distinct(NextRound(c))
  {
    var r := NextRound(c);
    NextRoundAt(c);
    forall i, j | 0 <= i < |c| && 0 <= j < |c| && i != j && r[i].Some?
      ensures r[i] != r[j]
    {
      if r[i] == r[j] {
        assert c[Predecessor(c, i)] == c[Predecessor(c, j)] && c[Predecessor(c, i)].Some?;
        if Gap(c, Prev(i, |c|), 0) <= Gap(c, Prev(j, |c|), 0) {
          PredecessorInjective(c, i, j);
        } else {
          PredecessorInjective(c, j, i);
        }
      }
    }
  }

  /** A survivor's predecessor does not survive, so at most half of the contenders do. */
  lemma NextRoundHalves(c: Contenders)
    ensures 2 * |Competing(NextRound(c))| <= |Competing(c)|
  {
    var s, all := Competing(NextRound(c)), Competing(c);
    NextRoundAt(c);
    assert s <= all;
    forall i | i in s
      ensures Predecessor(c, i) in all - s
    {
      PredecessorCompetes(c, i);
      assert First(c, Prev(i, |c|)) == c[Predecessor(c, i)];
      assert Second(c, Prev(i, |c|)) == First(c, Prev(Predecessor(c, i), |c|));
    }
    InjectionSize(c, s, all - s);
    assert |all| == |s| + |all - s| by { assert all == s + (all - s); }
  }

  lemma {:induction false} InjectionSize(c: Contenders, s: set<nat>, target: set<nat>)
    requires forall i | i in s :: i < |c| && c[i].Some? && Predecessor(c, i) in target
    ensures |s| <= |target|
  {
    if s != {} {
      var i :| i in s;
      forall j | j in s - {i}
        ensures Predecessor(c, j) in target - {Predecessor(c, i)}
      {
        if Predecessor(c, i) == Predecessor(c, j) {
          if Gap(c, Prev(i, |c|), 0) <= Gap(c, Prev(j, |c|), 0) {
            PredecessorInjective(c, i, j);
          } else {
            PredecessorInjective(c, j, i);
          }
        }
      }
      InjectionSize(c, s - {i}, target - {Predecessor(c, i)});
    }
  }

  // ---------------------------------------------------------------- the maximum survives

  ghost predicate IsMaximum(c: Contenders, m: nat) {
    m < |c| && c[m].Some? && forall j | 0 <= j < |c| && c[j].Some? :: c[j].value <= c[m].value
  }

  /** Steps downstream of m, at least d, to the next contender. */
  lemma Successor(c: Contenders, m: nat) returns (i: nat)
    requires m < |c| && c[m].Some?
    ensures i < |c| && c[i].Some? && Predecessor(c, i) == m
  {
    var n := |c|;
    var d: nat := 1;
    assert Ahead(m, n, n) == m;
    while c[Ahead(m, d, n)].None?
      invariant 1 <= d <= n
      invariant forall e: nat | 1 <= e < d :: c[Ahead(m, e, n)].None?
      decreases n - d
    {
      d := d + 1;
    }
    i := Ahead(m, d, n);
    var p := Prev(i, n);
    forall e: nat | e < d - 1
      ensures c[Back(p, e, n)].None?
    {
      assert Back(p, e, n) == Ahead(m, d - 1 - e, n);
    }
    assert Back(p, d - 1, n) == m;
    GapIs(c, p, 0, d - 1);
  }

  /** With two or more contenders the largest identifier is passed on to its successor. */
  lemma MaximumSurvives(c: Contenders, m: nat) returns (i: nat)
    requires Distinct(c) && IsMaximum(c, m)
    ensures Sole(c, m) <==> !NonEmpty(NextRound(c))
    ensures !Sole(c, m) ==> IsMaximum(NextRound(c), i) && NextRound(c)[i] == c[m]
  {
    var r := NextRound(c);
    NextRoundAt(c);
    OwnPredecessor(c, m);
    if Sole(c, m) {
      i := m;
      assert forall j | 0 <= j < |c| && j != m :: r[j].None?;
      assert First(c, Prev(m, |c|)) == c[m];
    } else {
      i := Successor(c, m);
      PredecessorCompetes(c, m);
      assert i != m;
      assert c[i] != c[m];
      assert c[Predecessor(c, m)] != c[m];
      assert First(c, Prev(i, |c|)) == c[m];
      assert Second(c, Prev(i, |c|)) == c[Predecessor(c, m)];
      assert r[i] == c[m];
      forall j | 0 <= j < |c| && r[j].Some?
        ensures r[j].value <= r[i].value
      {
        assert r[j] == c[Predecessor(c, j)];
      }
      assert IsMaximum(r, i);
    }
  }

  // ---------------------------------------------------------------- all rounds

  /** What the ring assumes of its identifiers. */
  ghost predicate ValidUids(us: seq<Uid>) {
    && us != []
    && (forall i | 0 <= i < |us| :: us[i] != NULL_UID)
    && (forall i, j | 0 <= i < j < |us| :: us[i] != us[j])
  }

  ghost predicate Largest(us: seq<Uid>, u: Uid) {
    u in us && forall j | 0 <= j < |us| :: us[j] <= u
  }

  lemma {:induction false} LargestExists(us: seq<Uid>) returns (m: nat)
    requires us != []
    ensures m < |us| && Largest(us, us[m])
  {
    var last := |us| - 1;
    m := last;
    if last > 0 {
      var front := us[..last];
      var f := LargestExists(front);
      assert forall j | 0 <= j < last :: us[j] == front[j];
      m := if us[last] <= us[f] then f else last;
    }
  }

  /** The contenders of every round carry distinct identifiers, never the null one. */
  lemma {:induction false} RoundDistinct(us: seq<Uid>, k: nat)
    requires ValidUids(us)
    ensures Distinct(Round(us, k))
    ensures forall i | 0 <= i < |us| :: Round(us, k)[i] != Some(NULL_UID)
    decreases k
  {
    if k > 0 {
      RoundDistinct(us, k - 1);
      NextRoundDistinct(Round(us, k - 1));
      NextRoundAt(Round(us, k - 1));
    }
  }

  /** Round k has at most |us| / 2^k contenders. */
  lemma {:induction false} RoundSize(us: seq<Uid>, k: nat)
    requires us != []
    ensures Pow2(k) * |Competing(Round(us, k))| <= |us|
    decreases k
  {
    if k == 0 {
      FirstRoundSize(us);
    } else {
      RoundSize(us, k - 1);
      NextRoundHalves(Round(us, k - 1));
      HalvingBound(Pow2(k - 1), |Competing(Round(us, k))|, |Competing(Round(us, k - 1))|, |us|);
    }
  }

  lemma FirstRoundSize(us: seq<Uid>)
    requires us != []
    ensures |Competing(FirstRound(us))| == |us|
  {
    BelowSize(|us|);
    assert Competing(FirstRound(us)) == Below(|us|);
  }

  lemma HalvingBound(p: nat, now: nat, before: nat, total: nat)
    requires 2 * now <= before && p * before <= total
    ensures (2 * p) * now <= total
  {
    assert p * (2 * now) <= p * before;
  }

  /** Every round that has a contender still has the largest identifier of all. */
  lemma {:induction false} RoundMaximum(us: seq<Uid>, k: nat, i: nat) returns (m: nat)
    requires ValidUids(us) && i < |us| && Round(us, k)[i].Some?
    ensures HasLargest(us, Round(us, k), m)
    decreases k
  {
    if k == 0 {
      m := FirstRoundMaximum(us);
    } else {
      RoundsShrink(us, i, k - 1, k);
      var b := RoundMaximum(us, k - 1, i);
      m := KeepsLargest(us, k - 1, b, i);
    }
  }

  ghost predicate HasLargest(us: seq<Uid>, c: Contenders, m: nat) {
    IsMaximum(c, m) && Largest(us, c[m].value)
  }

  lemma KeepsLargest(us: seq<Uid>, k: nat, m: nat, i: nat) returns (m': nat)
    requires ValidUids(us) && HasLargest(us, Round(us, k), m)
    requires i < |us| && NextRound(Round(us, k))[i].Some?
    ensures HasLargest(us, NextRound(Round(us, k)), m')
  {
    RoundDistinct(us, k);
    m' := MaximumSurvives(Round(us, k), m);
  }

  lemma FirstRoundMaximum(us: seq<Uid>) returns (m: nat)
    requires us != []
    ensures HasLargest(us, FirstRound(us), m)
  {
    m := LargestExists(us);
  }

  lemma MultiplyMonotone(a: nat, x: nat, y: nat)
    requires x <= y
    ensures a * x <= a * y
  {}

  lemma {:induction false} RoundsShrink(us: seq<Uid>, i: nat, j: nat, k: nat)
    requires us != [] && i < |us| && j <= k
    ensures Round(us, k)[i].Some? ==> Round(us, j)[i].Some?
    decreases k
  {
    if j < k {
      NextRoundAt(Round(us, k - 1));
      RoundsShrink(us, i, j, k - 1);
    }
  }

  lemma NonEmptyShrinks(us: seq<Uid>, j: nat, k: nat)
    requires us != [] && j <= k && NonEmpty(Round(us, k))
    ensures NonEmpty(Round(us, j))
  {
    var i :| 0 <= i < |us| && Round(us, k)[i].Some?;
    RoundsShrink(us, i, j, k);
  }

  /** Somebody competes only in the first floor(log2 n) + 1 rounds. */
  lemma RoundBound(us: seq<Uid>, k: nat)
    requires ValidUids(us) && NonEmpty(Round(us, k))
    ensures k <= Log2(|us|)
  {
    RoundSize(us, k);
    var i :| 0 <= i < |us| && Round(us, k)[i].Some?;
    assert i in Competing(Round(us, k));
    assert |Competing(Round(us, k))| >= 1;
    MultiplyMonotone(Pow2(k), 1, |Competing(Round(us, k))|);
    Log2Largest(k, |us|);
  }

  /** Some round has a sole contender; it holds the largest uid, and nobody competes afterwards. */
  lemma LastRound(us: seq<Uid>) returns (k: nat, i: nat)
    requires ValidUids(us)
    ensures Sole(Round(us, k), i) && Largest(us, Round(us, k)[i].value)
    ensures !NonEmpty(Round(us, k + 1))
  {
    k, i := LastRoundFrom(us, 0, 0, Log2(|us|));
    i := RoundMaximum(us, k, i);
    SoleInLastRound(us, k, i);
  }

  lemma LastRoundFrom(us: seq<Uid>, k: nat, i: nat, limit: nat) returns (k': nat, i': nat)
    requires ValidUids(us) && i < |us| && Round(us, k)[i].Some? && limit == Log2(|us|)
    ensures i' < |us| && Round(us, k')[i'].Some? && !NonEmpty(Round(us, k' + 1))
    decreases limit - k
  {
    k', i' := k, i;
    if NonEmpty(Round(us, k + 1)) {
      assert k + 1 <= limit by { RoundBound(us, k + 1); }
      i' :| 0 <= i' < |us| && Round(us, k + 1)[i'].Some?;
      k', i' := LastRoundFrom(us, k + 1, i', limit);
    }
  }

  lemma SoleInLastRound(us: seq<Uid>, k: nat, i: nat)
    requires ValidUids(us) && IsMaximum(Round(us, k), i) && !NonEmpty(Round(us, k + 1))
    ensures Sole(Round(us, k), i)
  {
    RoundDistinct(us, k);
    var _ := MaximumSurvives(Round(us, k), i);
  }

  /** A node is elected in round k when the identifier it receives first is its own. */
  ghost predicate Elected(us: seq<Uid>, k: nat, i: nat)
    requires us != [] && i < |us|
  {
    Round(us, k)[i].Some? && First(Round(us, k), Prev(i, |us|)) == Round(us, k)[i]
  }

  lemma ElectedIsSole(us: seq<Uid>, k: nat, i: nat)
    requires ValidUids(us) && i < |us|
    ensures Elected(us, k, i) <==> Sole(Round(us, k), i)
  {
    RoundDistinct(us, k);
    if Round(us, k)[i].Some? {
      OwnPredecessor(Round(us, k), i);
    }
  }

  lemma SoleUnique(us: seq<Uid>, k: nat, i: nat, k': nat, i': nat)
    requires ValidUids(us) && Sole(Round(us, k), i) && Sole(Round(us, k'), i') && k <= k'
    ensures k == k' && i == i'
  {
    if k < k' {
      MaximumSurvivesSole(Round(us, k), i);
      NonEmptyShrinks(us, k + 1, k');
      assert false;
    }
  }

  lemma MaximumSurvivesSole(c: Contenders, i: nat)
    requires Sole(c, i)
    ensures !NonEmpty(NextRound(c))
  {
    assert IsMaximum(c, i);
    var _ := MaximumSurvives(c, i);
  }
}
