/** Points of the multiplayer session: the sum of a score table, used to state
    that no point is created or lost when penalties are credited, and the
    ranking shown by print_scores and by the score bar (players sorted by score,
    highest first; the sort is stable, so equal scores keep join order). */
module Scoreboard {

  /** Some key of a non-empty table. */
  ghost function Pick(keys: set<string>): (k: string)
    requires keys != {}
    ensures k in keys
  {
    var k :| k in keys; k
  }

  /** Sum of all the entries of a score table. */
  ghost function Total(m: map<string, int>): int
    decreases |m.Keys|
  {
    if m.Keys == {} then 0
    else
      var k := Pick(m.Keys);
      m[k] + Total(m - {k})
  }

  /** The sum does not depend on which key is taken out first. */
  lemma {:induction false} TotalWithout(m: map<string, int>, k: string)
    requires k in m
    ensures Total(m) == m[k] + Total(m - {k})
    decreases |m.Keys|
  {
    var j := Pick(m.Keys);
    if j != k {
      var mj, mk := m - {j}, m - {k};
      assert (m - {j}).Keys == m.Keys - {j};
      TotalWithout(mj, k);
      TotalWithout(mk, j);
      assert mj - {k} == mk - {j};
    }
  }

  /** Adding d to one existing entry adds d to the sum. */
  lemma TotalBump(m: map<string, int>, k: string, d: int)
    requires k in m
    ensures Total(m[k := m[k] + d]) == Total(m) + d
  {
    TotalWithout(m, k);
    TotalWithout(m[k := m[k] + d], k);
    assert m[k := m[k] + d] - {k} == m - {k};
  }

  /** Adding a new entry adds its value to the sum. */
  lemma TotalAdd(m: map<string, int>, k: string, v: int)
    requires k !in m
    ensures Total(m[k := v]) == Total(m) + v
  {
    TotalWithout(m[k := v], k);
    assert m[k := v] - {k} == m;
  }

  /** A table with a single entry sums to that entry. */
  lemma TotalSingle(m: map<string, int>, k: string)
    requires m.Keys == {k}
    ensures Total(m) == m[k]
  {
    TotalWithout(m, k);
    assert (m - {k}).Keys == {};
  }

  // ---------------------------------------------------------------------------
  // Ranking

  /** Player i is listed before player j: a higher score, or an equal score and
      an earlier place in the player list (sorted with reverse=True is
      stable). */
  predicate Before(key: seq<int>, i: nat, j: nat)
    requires i < |key| && j < |key|
  {
    key[i] > key[j] || (key[i] == key[j] && i < j)
  }

  predicate InRange(key: seq<int>, r: seq<nat>) {
    forall a :: 0 <= a < |r| ==> r[a] < |key|
  }

  /** Listed in standings order, each player before every later one. */
  predicate Ordered(key: seq<int>, r: seq<nat>)
    requires InRange(key, r)
  {
    forall a, b :: 0 <= a < b < |r| ==> Before(key, r[a], r[b])
  }

  /** The player indices 0 .. n-1 in join order. */
  function Upto(n: nat): (r: seq<nat>)
    ensures |r| == n && forall a :: 0 <= a < n ==> r[a] == a
  {
    if n == 0 then [] else Upto(n - 1) + [n - 1]
  }

  /** Places player i into standings r just before the first player it beats. */
  function Insert(key: seq<int>, i: nat, r: seq<nat>): (s: seq<nat>)
    requires i < |key| && InRange(key, r)
    ensures InRange(key, s) && multiset(s) == multiset(r) + multiset{i}
  {
    if r == [] then [i]
    else if Before(key, i, r[0]) then [i] + r
    else
      assert r == [r[0]] + r[1..];
      [r[0]] + Insert(key, i, r[1..])
  }

  /** Standings of the first k players, by insertion in join order. */
  function RankFirst(key: seq<int>, k: nat): (r: seq<nat>)
    requires k <= |key|
    ensures InRange(key, r) && multiset(r) == multiset(Upto(k))
  {
    if k == 0 then []
    else Insert(key, k - 1, RankFirst(key, k - 1))
  }

  /** The standings of all players: sorted(players, key=score, reverse=True),
      as player indices. */
  function Ranking(key: seq<int>): seq<nat> {
    RankFirst(key, |key|)
  }

  lemma {:induction false} InsertOrdered(key: seq<int>, i: nat, r: seq<nat>)
    requires i < |key| && InRange(key, r) && Ordered(key, r)
    requires forall a :: 0 <= a < |r| ==> r[a] != i
    ensures Ordered(key, Insert(key, i, r))
    decreases |r|
  {
    if r != [] && !Before(key, i, r[0]) {
      var t := r[1..];
      InsertOrdered(key, i, t);
      var s := Insert(key, i, t);
      assert Before(key, r[0], i);
      forall b | 0 <= b < |s|
        ensures Before(key, r[0], s[b])
      {
        assert s[b] in multiset(s);
        if s[b] != i {
          assert s[b] in multiset(t);
          var c :| 0 <= c < |t| && t[c] == s[b];
          assert r[c + 1] == s[b];
        }
      }
    }
  }

  lemma {:induction false} RankFirstOrdered(key: seq<int>, k: nat)
    requires k <= |key|
    ensures Ordered(key, RankFirst(key, k))
    decreases k
  {
    if k > 0 {
      var r := RankFirst(key, k - 1);
      RankFirstOrdered(key, k - 1);
      forall a | 0 <= a < |r|
        ensures r[a] != k - 1
      {
        assert r[a] in multiset(Upto(k - 1));
      }
      InsertOrdered(key, k - 1, r);
    }
  }

  /** The standings list every player exactly once, by descending score, and
      players with equal scores in the order they joined. */
  lemma RankingCorrect(key: seq<int>)
    ensures multiset(Ranking(key)) == multiset(Upto(|key|))
    ensures |Ranking(key)| == |key|
    ensures forall a, b :: 0 <= a < b < |key| ==>
      key[Ranking(key)[a]] >= key[Ranking(key)[b]]
    ensures forall a, b :: 0 <= a < b < |key| && key[Ranking(key)[a]] == key[Ranking(key)[b]] ==>
      Ranking(key)[a] < Ranking(key)[b]
  {
    RankFirstOrdered(key, |key|);
    assert |multiset(Ranking(key))| == |multiset(Upto(|key|))|;
  }

  /** The standings are the only order with these properties: any other
      listing of all players by descending score with ties in join order is
      equal to it. */
  lemma {:induction false} RankingUnique(key: seq<int>, r: seq<nat>)
    requires InRange(key, r) && Ordered(key, r)
    requires multiset(r) == multiset(Upto(|key|))
    ensures r == Ranking(key)
  {
    RankFirstOrdered(key, |key|);
    OrderedUnique(key, r, Ranking(key));
  }

  lemma {:induction false} OrderedUnique(key: seq<int>, r: seq<nat>, s: seq<nat>)
    requires InRange(key, r) && Ordered(key, r) && InRange(key, s) && Ordered(key, s)
    requires multiset(r) == multiset(s)
    ensures r == s
    decreases |r|
  {
    assert |r| == |multiset(r)| == |s|;
    if r != [] {
      OrderedHead(key, r, s);
      DropHead(r, s);
      OrderedUnique(key, r[1..], s[1..]);
    }
  }

  /** Two orderings of the same players start with the same one. */
  lemma OrderedHead(key: seq<int>, r: seq<nat>, s: seq<nat>)
    requires InRange(key, r) && Ordered(key, r) && InRange(key, s) && Ordered(key, s)
    requires multiset(r) == multiset(s) && r != []
    ensures s != [] && r[0] == s[0]
  {
    assert r[0] in multiset(s);
    assert s[0] in multiset(r);
    OrderedFirst(key, r, s[0]);
    OrderedFirst(key, s, r[0]);
  }

  /** Every player in an ordering is its first one or comes after it. */
  lemma OrderedFirst(key: seq<int>, r: seq<nat>, v: nat)
    requires InRange(key, r) && Ordered(key, r) && v in multiset(r)
    ensures r != [] && v < |key|
    ensures v == r[0] || Before(key, r[0], v)
  {
    var a :| 0 <= a < |r| && r[a] == v;
    if a != 0 {
      assert Before(key, r[0], r[a]);
    }
  }

  lemma DropHead(r: seq<nat>, s: seq<nat>)
    requires r != [] && s != [] && r[0] == s[0] && multiset(r) == multiset(s)
    ensures multiset(r[1..]) == multiset(s[1..])
  {
    assert r == [r[0]] + r[1..] && s == [s[0]] + s[1..];
    assert multiset(r[1..]) == multiset(r) - multiset{r[0]};
    assert multiset(s[1..]) == multiset(s) - multiset{s[0]};
  }
}
