/** Reciprocal rank fusion of ranked lists, and the copies of it in the memory and document searches.
    Scores are real numbers. Ranks count from 0. */
module RankFusion {
  import opened Wrappers

  type Scores = map<string, real>

  type Ranking = seq<(string, real)>

  const K: real := 60.0

  // ---------- The scores ----------

  function Weight(k: real, rank: nat): (w: real)
    requires k > 0.0
    ensures w > 0.0 && w * (k + rank as real) == 1.0
  {
    1.0 / (k + rank as real)
  }

  lemma WeightFalls(k: real, r: nat, r': nat)
    requires k > 0.0 && r < r'
    ensures Weight(k, r') < Weight(k, r)
  {
    var x, y := k + r as real, k + r' as real;
    assert 1.0 / x - 1.0 / y == (y - x) / (x * y);
  }

  /** What one list adds to the score of an id: a weight for every rank at which it lists the id. */
  function Mass(list: seq<string>, id: string, k: real): (m: real)
    requires k > 0.0
    ensures m >= 0.0
    ensures id in list <==> m > 0.0
  {
    if list == [] then 0.0
    else
      var n := |list| - 1;
      assert list == list[..n] + [list[n]];
      Mass(list[..n], id, k) + if list[n] == id then Weight(k, n) else 0.0
  }

  function Score(lists: seq<seq<string>>, id: string, k: real): (s: real)
    requires k > 0.0
    ensures s >= 0.0
  {
    if lists == [] then 0.0 else Score(lists[..|lists| - 1], id, k) + Mass(lists[|lists| - 1], id, k)
  }

  predicate Listed(lists: seq<seq<string>>, id: string) {
    exists i | 0 <= i < |lists| :: id in lists[i]
  }

  lemma {:induction false} ListedHasScore(lists: seq<seq<string>>, id: string, k: real)
    requires k > 0.0
    ensures Listed(lists, id) <==> Score(lists, id, k) > 0.0
  {
    if lists != [] {
      var front, last := lists[..|lists| - 1], lists[|lists| - 1];
      ListedHasScore(front, id, k);
      assert Listed(lists, id) <==> Listed(front, id) || id in last by {
        if Listed(front, id) {
          var i :| 0 <= i < |front| && id in front[i];
          assert id in lists[i];
        }
      }
    }
  }

  // ---------- Rankings ----------

  predicate Distinct(ids: seq<string>) {
    forall i, j | 0 <= i < j < |ids| :: ids[i] != ids[j]
  }

  function IdsOf(r: Ranking): (ids: seq<string>)
    ensures |ids| == |r|
  {
    seq(|r|, i requires 0 <= i < |r| => r[i].0)
  }

  predicate Descending(r: Ranking) {
    forall i, j | 0 <= i < j < |r| :: r[i].1 >= r[j].1
  }

  /** Every listed id once, with its score, from the highest score to the lowest. */
  ghost predicate IsRanking(r: Ranking, lists: seq<seq<string>>, k: real)
    requires k > 0.0
  {
    && Distinct(IdsOf(r)) && Descending(r)
    && (forall i | 0 <= i < |r| :: r[i].1 == Score(lists, r[i].0, k))
    && forall id :: id in IdsOf(r) <==> Listed(lists, id)
  }

  // ---------- The fusion ----------

  function Get(scores: Scores, id: string): real { if id in scores then scores[id] else 0.0 }

  /** The map holds the scores of the lists, and no other id. */
  ghost predicate HasScores(scores: Scores, lists: seq<seq<string>>, k: real)
    requires k > 0.0
  {
    forall id :: Get(scores, id) == Score(lists, id, k) && (id in scores <==> Listed(lists, id))
  }

  /** Adds the weights of one list into the map. */
  method AddList(scores: Scores, list: seq<string>, k: real) returns (r: Scores)
    requires k > 0.0
    ensures forall id :: Get(r, id) == Get(scores, id) + Mass(list, id, k)
    ensures r.Keys == scores.Keys + set id | id in list
  {
    r := scores;
    for rank := 0 to |list|
      invariant forall id :: Get(r, id) == Get(scores, id) + Mass(list[..rank], id, k)
      invariant r.Keys == scores.Keys + set id | id in list[..rank]
    {
      var item := list[rank];
      if item !in r {
        r := r[item := 0.0];
      }
      r := r[item := r[item] + Weight(k, rank)];
      assert list[..rank + 1] == list[..rank] + [item];
      assert list[..rank + 1][..rank] == list[..rank];
    }
    assert list[..|list|] == list;
  }

  lemma ScoreAppend(lists: seq<seq<string>>, list: seq<string>, id: string, k: real)
    requires k > 0.0
    ensures Score(lists + [list], id, k) == Score(lists, id, k) + Mass(list, id, k)
    ensures Listed(lists + [list], id) <==> Listed(lists, id) || id in list
  {
    var all := lists + [list];
    assert all[..|all| - 1] == lists;
    assert all[|lists|] == list;
    assert forall i | 0 <= i < |lists| :: all[i] == lists[i];
  }

  method AddLists(lists: seq<seq<string>>, k: real) returns (scores: Scores)
    requires k > 0.0
    ensures HasScores(scores, lists, k)
  {
    scores := map[];
    for i := 0 to |lists|
      invariant HasScores(scores, lists[..i], k)
    {
      var before := scores;
      scores := AddList(before, lists[i], k);
      assert lists[..i + 1] == lists[..i] + [lists[i]];
      forall id
        ensures Get(scores, id) == Score(lists[..i + 1], id, k) && (id in scores <==> Listed(lists[..i + 1], id))
      {
        ScoreAppend(lists[..i], lists[i], id, k);
      }
    }
    assert lists[..|lists|] == lists;
  }

  /** The entries of the map, in no particular order and then sorted by score. */
  method Sorted(scores: Scores) returns (r: Ranking)
    ensures Distinct(IdsOf(r)) && Descending(r)
    ensures forall id :: id in IdsOf(r) <==> id in scores
    ensures forall i | 0 <= i < |r| :: r[i].0 in scores && r[i].1 == scores[r[i].0]
  {
    r := [];
    var left := scores.Keys;
    while left != {}
      invariant left <= scores.Keys
      invariant Distinct(IdsOf(r)) && Descending(r)
      invariant forall id :: id in IdsOf(r) <==> id in scores.Keys - left
      invariant forall i | 0 <= i < |r| :: r[i].0 in scores && r[i].1 == scores[r[i].0]
      decreases left
    {
      var id :| id in left;
      var at := |r|;
      while at > 0 && r[at - 1].1 < scores[id]
        invariant 0 <= at <= |r|
        invariant forall i | at <= i < |r| :: r[i].1 < scores[id]
      {
        at := at - 1;
      }
      InsertAt(r, at, (id, scores[id]));
      r := r[..at] + [(id, scores[id])] + r[at..];
      left := left - {id};
    }
  }

  lemma InsertAt(r: Ranking, at: nat, e: (string, real))
    requires at <= |r| && Distinct(IdsOf(r)) && Descending(r) && e.0 !in IdsOf(r)
    requires at > 0 ==> r[at - 1].1 >= e.1
    requires forall i | at <= i < |r| :: r[i].1 < e.1
    ensures var r' := r[..at] + [e] + r[at..];
      && Distinct(IdsOf(r')) && Descending(r')
      && forall id :: id in IdsOf(r') <==> id in IdsOf(r) || id == e.0
  {
    assert IdsOf(r[..at] + [e] + r[at..]) == IdsOf(r)[..at] + [e.0] + IdsOf(r)[at..];
    hide IdsOf;
    InsertDistinct(IdsOf(r), at, e.0);
    InsertDescending(r, at, e);
  }

  lemma InsertDistinct(ids: seq<string>, at: nat, id: string)
    requires at <= |ids| && Distinct(ids) && id !in ids
    ensures var ids' := ids[..at] + [id] + ids[at..];
      Distinct(ids') && forall x :: x in ids' <==> x in ids || x == id
  {
    assert ids == ids[..at] + ids[at..];
  }

  lemma InsertDescending(r: Ranking, at: nat, e: (string, real))
    requires at <= |r| && Descending(r)
    requires at > 0 ==> r[at - 1].1 >= e.1
    requires forall i | at <= i < |r| :: r[i].1 < e.1
    ensures Descending(r[..at] + [e] + r[at..])
  {
    assert forall i | 0 <= i < at :: r[i].1 >= e.1;
  }

  method Fuse(lists: seq<seq<string>>, k: real) returns (r: Ranking)
    requires k > 0.0
    ensures IsRanking(r, lists, k)
  {
    var scores := AddLists(lists, k);
    r := Sorted(scores);
  }

  // ---------- What a ranking says ----------

  /** Any other ranking of the same lists has the same score at every place: rankings differ in the order of
      ties only. */
  lemma RankingsDifferInTiesOnly(r: Ranking, r': Ranking, lists: seq<seq<string>>, k: real)
    requires k > 0.0 && IsRanking(r, lists, k) && IsRanking(r', lists, k)
    ensures |r| == |r'| && forall i | 0 <= i < |r| :: r[i].1 == r'[i].1
  {
    var ids, ids' := IdsOf(r), IdsOf(r');
    DistinctSize(ids);
    DistinctSize(ids');
    assert (set id | id in ids) == (set id | id in ids');
    forall i | 0 <= i < |r|
      ensures r[i].1 == r'[i].1
    {
      NoneHigher(r, r', lists, k, i);
      NoneHigher(r', r, lists, k, i);
    }
  }

  lemma {:induction false} DistinctSize(ids: seq<string>)
    requires Distinct(ids)
    ensures |set id | id in ids| == |ids|
  {
    if ids != [] {
      var front, last := ids[..|ids| - 1], ids[|ids| - 1];
      DistinctSize(front);
      assert (set id | id in ids) == (set id | id in front) + {last} by {
        assert ids == front + [last];
      }
    }
  }

  lemma NoneHigher(r: Ranking, r': Ranking, lists: seq<seq<string>>, k: real, i: nat)
    requires k > 0.0 && IsRanking(r, lists, k) && IsRanking(r', lists, k) && |r| == |r'| && i < |r|
    ensures r[i].1 <= r'[i].1
  {
    if r[i].1 > r'[i].1 {
      var high, high' := IdsOf(r)[..i + 1], IdsOf(r')[..i];
      DistinctSize(high);
      DistinctSize(high');
      forall id | id in high
        ensures id in high'
      {
        var j :| 0 <= j <= i && IdsOf(r)[j] == id;
        assert id in IdsOf(r);
        var j' :| 0 <= j' < |r'| && IdsOf(r')[j'] == id;
        assert r'[j'].1 == r[j].1 >= r[i].1;
        assert j' < i;
        assert high'[j'] == id;
      }
      SubsetSize((set id | id in high), (set id | id in high'));
    }
  }

  // ---------- The order of the lists does not matter ----------

  lemma {:induction false} ScoreConcat(xs: seq<seq<string>>, ys: seq<seq<string>>, id: string, k: real)
    requires k > 0.0
    ensures Score(xs + ys, id, k) == Score(xs, id, k) + Score(ys, id, k)
  {
    if ys == [] {
      assert xs + ys == xs;
    } else {
      assert (xs + ys)[..|xs + ys| - 1] == xs + ys[..|ys| - 1];
      ScoreConcat(xs, ys[..|ys| - 1], id, k);
    }
  }

  lemma ScoreWithout(lists: seq<seq<string>>, j: nat, id: string, k: real)
    requires k > 0.0 && j < |lists|
    ensures Score(lists, id, k) == Score(lists[..j] + lists[j + 1..], id, k) + Mass(lists[j], id, k)
    ensures multiset(lists[..j] + lists[j + 1..]) == multiset(lists) - multiset{lists[j]}
  {
    hide Score, Mass;
    assert lists == lists[..j] + [lists[j]] + lists[j + 1..];
    ScoreConcat(lists[..j], lists[j + 1..], id, k);
    ScoreConcat(lists[..j] + [lists[j]], lists[j + 1..], id, k);
    ScoreAppend(lists[..j], lists[j], id, k);
  }

  lemma {:induction false} ListOrderIrrelevant(xs: seq<seq<string>>, ys: seq<seq<string>>, id: string, k: real)
    requires k > 0.0 && multiset(xs) == multiset(ys)
    ensures Score(xs, id, k) == Score(ys, id, k)
  {
    if xs == [] {
      assert |multiset(ys)| == 0;
    } else {
      hide Score, Mass;
      var n := |xs| - 1;
      assert xs[n] in multiset(xs);
      var j :| 0 <= j < |ys| && ys[j] == xs[n];
      ScoreWithout(xs, n, id, k);
      ScoreWithout(ys, j, id, k);
      ListOrderIrrelevant(xs[..n] + xs[n + 1..], ys[..j] + ys[j + 1..], id, k);
    }
  }

  // ---------- Conservation ----------

  /** The weights that a list of n places hands out. */
  function Handed(n: nat, k: real): real
    requires k > 0.0
  {
    if n == 0 then 0.0 else Handed(n - 1, k) + Weight(k, n - 1)
  }

  function AllHanded(lists: seq<seq<string>>, k: real): real
    requires k > 0.0
  {
    if lists == [] then 0.0 else AllHanded(lists[..|lists| - 1], k) + Handed(|lists[|lists| - 1]|, k)
  }

  function Total(r: Ranking): real {
    if r == [] then 0.0 else Total(r[..|r| - 1]) + r[|r| - 1].1
  }

  function Sum(ids: seq<string>, f: string -> real): real {
    if ids == [] then 0.0 else Sum(ids[..|ids| - 1], f) + f(ids[|ids| - 1])
  }

  lemma {:induction false} SumAdds(ids: seq<string>, f: string -> real, g: string -> real, h: string -> real)
    requires forall id :: h(id) == f(id) + g(id)
    ensures Sum(ids, h) == Sum(ids, f) + Sum(ids, g)
  {
    if ids != [] {
      SumAdds(ids[..|ids| - 1], f, g, h);
    }
  }

  lemma {:induction false} SumOfOne(ids: seq<string>, f: string -> real, x: string)
    requires Distinct(ids) && forall id | id != x :: f(id) == 0.0
    ensures Sum(ids, f) == if x in ids then f(x) else 0.0
  {
    if ids != [] {
      var front := ids[..|ids| - 1];
      assert ids == front + [ids[|ids| - 1]];
      SumOfOne(front, f, x);
    }
  }

  lemma {:induction false} MassIsHanded(ids: seq<string>, list: seq<string>, k: real)
    requires k > 0.0 && Distinct(ids) && forall id | id in list :: id in ids
    ensures Sum(ids, id => Mass(list, id, k)) == Handed(|list|, k)
  {
    if list == [] {
      SumOfOne(ids, id => Mass(list, id, k), "");
    } else {
      var n := |list| - 1;
      var front, last := list[..n], list[n];
      assert list == front + [last];
      MassIsHanded(ids, front, k);
      var one := id => if id == last then Weight(k, n) else 0.0;
      SumAdds(ids, id => Mass(front, id, k), one, id => Mass(list, id, k));
      SumOfOne(ids, one, last);
    }
  }

  lemma {:induction false} ScoreIsHanded(ids: seq<string>, lists: seq<seq<string>>, k: real)
    requires k > 0.0 && Distinct(ids) && forall id | Listed(lists, id) :: id in ids
    ensures Sum(ids, id => Score(lists, id, k)) == AllHanded(lists, k)
  {
    if lists == [] {
      SumOfOne(ids, id => Score(lists, id, k), "");
    } else {
      var front, last := lists[..|lists| - 1], lists[|lists| - 1];
      assert forall i | 0 <= i < |front| :: front[i] == lists[i];
      ScoreIsHanded(ids, front, k);
      MassIsHanded(ids, last, k);
      SumAdds(ids, id => Score(front, id, k), id => Mass(last, id, k), id => Score(lists, id, k));
    }
  }

  lemma {:induction false} TotalIsSum(r: Ranking, f: string -> real)
    requires forall i | 0 <= i < |r| :: r[i].1 == f(r[i].0)
    ensures Total(r) == Sum(IdsOf(r), f)
  {
    if r != [] {
      TotalIsSum(r[..|r| - 1], f);
      assert IdsOf(r)[..|r| - 1] == IdsOf(r[..|r| - 1]);
    }
  }

  /** The scores of a ranking add up to the weights that all the lists hand out. */
  lemma MassIsConserved(r: Ranking, lists: seq<seq<string>>, k: real)
    requires k > 0.0 && IsRanking(r, lists, k)
    ensures Total(r) == AllHanded(lists, k)
  {
    TotalIsSum(r, id => Score(lists, id, k));
    ScoreIsHanded(IdsOf(r), lists, k);
  }

  // ---------- Better ranked comes first ----------

  /** In a list without repetitions, a is listed before b whenever b is listed. */
  predicate Better(list: seq<string>, a: string, b: string) {
    forall j | 0 <= j < |list| && list[j] == b :: exists i | 0 <= i < j :: list[i] == a
  }

  lemma {:induction false} MassOfDistinct(list: seq<string>, r: nat, k: real)
    requires k > 0.0 && Distinct(list) && r < |list|
    ensures Mass(list, list[r], k) == Weight(k, r)
  {
    var n := |list| - 1;
    var front := list[..n];
    if r < n {
      MassOfDistinct(front, r, k);
    } else {
      assert list[n] !in front;
    }
  }

  lemma BetterHasMore(list: seq<string>, a: string, b: string, k: real)
    requires k > 0.0 && Distinct(list) && Better(list, a, b)
    ensures Mass(list, a, k) >= Mass(list, b, k)
    ensures b in list ==> Mass(list, a, k) > Mass(list, b, k)
  {
    if b in list {
      var j :| 0 <= j < |list| && list[j] == b;
      var i :| 0 <= i < j && list[i] == a;
      MassOfDistinct(list, i, k);
      MassOfDistinct(list, j, k);
      WeightFalls(k, i, j);
    }
  }

  lemma {:induction false} BetterScoresMore(lists: seq<seq<string>>, a: string, b: string, k: real)
    requires k > 0.0
    requires forall i | 0 <= i < |lists| :: Distinct(lists[i]) && Better(lists[i], a, b)
    ensures Score(lists, a, k) >= Score(lists, b, k)
    ensures Listed(lists, b) ==> Score(lists, a, k) > Score(lists, b, k)
  {
    if lists != [] {
      var front, last := lists[..|lists| - 1], lists[|lists| - 1];
      BetterScoresMore(front, a, b, k);
      BetterHasMore(last, a, b, k);
      ScoreAppend(front, last, b, k);
      assert lists == front + [last];
    }
  }

  /** An id that is listed before another one in every list that has the other one precedes it. */
  lemma BetterPrecedes(r: Ranking, lists: seq<seq<string>>, k: real, a: string, j: nat)
    requires k > 0.0 && IsRanking(r, lists, k) && j < |r|
    requires forall i | 0 <= i < |lists| :: Distinct(lists[i]) && Better(lists[i], a, r[j].0)
    ensures exists i | 0 <= i < j :: r[i].0 == a
  {
    var b := r[j].0;
    assert IdsOf(r)[j] == b;
    BetterScoresMore(lists, a, b, k);
    ListedHasScore(lists, a, k);
    assert Score(lists, a, k) > 0.0;
    assert a in IdsOf(r);
    var i :| 0 <= i < |r| && IdsOf(r)[i] == a;
    assert r[i].0 == a;
  }

  // ---------- The searches that use it ----------

  /** All searches weigh ranks by 60. */
  lemma SearchWeights(rank: nat)
    ensures Weight(K, rank) * (60.0 + rank as real) == 1.0
  {
  }

  /** The best `limit` ids of a ranking, in its order. */
  ghost predicate IsTop(top: Ranking, lists: seq<seq<string>>, limit: nat) {
    exists r :: IsRanking(r, lists, K) && top == Take(r, limit)
  }

  function Take<T>(s: seq<T>, limit: nat): seq<T> {
    if |s| <= limit then s else s[..limit]
  }

  /** No id that was left out scores higher than one that was taken, and none is left out within the limit. */
  lemma TopKeepsTheBest(top: Ranking, lists: seq<seq<string>>, limit: nat, id: string)
    requires IsTop(top, lists, limit) && Listed(lists, id) && id !in IdsOf(top)
    ensures |top| == limit && forall i | 0 <= i < |top| :: top[i].1 >= Score(lists, id, K)
  {
    var r :| IsRanking(r, lists, K) && top == Take(r, limit);
    assert id in IdsOf(r);
    var j :| 0 <= j < |r| && IdsOf(r)[j] == id;
    if |r| > limit {
      assert forall i | 0 <= i < |top| :: IdsOf(top)[i] == IdsOf(r)[i];
    }
  }

  /** The weights of one list by rank. */
  function Ranked(list: seq<string>): (r: Ranking)
    ensures |r| == |list|
  {
    seq(|list|, i requires 0 <= i < |list| => (list[i], Weight(K, i)))
  }

  /** A single list without repetitions is its own ranking, also next to an empty list. */
  lemma SingleListIsItsRanking(list: seq<string>, lists: seq<seq<string>>)
    requires Distinct(list) && lists in {[list], [list, []], [[], list]}
    ensures IsRanking(Ranked(list), lists, K)
    ensures forall r | IsRanking(r, lists, K) :: r == Ranked(list)
  {
    var own := Ranked(list);
    assert IdsOf(own) == list;
    forall i, j | 0 <= i < j < |own|
      ensures own[i].1 > own[j].1
    {
      WeightFalls(K, i, j);
    }
    forall id
      ensures Score(lists, id, K) == Mass(list, id, K) && (Listed(lists, id) <==> id in list)
    {
      OneListScore(list, lists, id);
    }
    forall i | 0 <= i < |own|
      ensures own[i].1 == Score(lists, own[i].0, K)
    {
      MassOfDistinct(list, i, K);
    }
    forall r | IsRanking(r, lists, K)
      ensures r == own
    {
      RankingsDifferInTiesOnly(r, own, lists, K);
      NoTiesNoChoice(r, own, lists);
    }
  }

  lemma OneListScore(list: seq<string>, lists: seq<seq<string>>, id: string)
    requires lists in {[list], [list, []], [[], list]}
    ensures Score(lists, id, K) == Mass(list, id, K) && (Listed(lists, id) <==> id in list)
  {
    ScoreAppend([], list, id, K);
    ScoreAppend([], [], id, K);
    ScoreAppend([list], [], id, K);
    ScoreAppend([[]], list, id, K);
    assert [] + [list] == [list] && [list] + [[]] == [list, []] && [[]] + [list] == [[], list];
  }

  lemma NoTiesNoChoice(r: Ranking, own: Ranking, lists: seq<seq<string>>)
    requires IsRanking(r, lists, K) && IsRanking(own, lists, K) && |r| == |own|
    requires forall i | 0 <= i < |r| :: r[i].1 == own[i].1
    requires forall i, j | 0 <= i < j < |own| :: own[i].1 > own[j].1
    ensures r == own
  {
    forall i | 0 <= i < |r|
      ensures r[i] == own[i]
    {
      assert IdsOf(r)[i] in IdsOf(own);
      var j :| 0 <= j < |own| && IdsOf(own)[j] == r[i].0;
      assert own[j].1 == own[i].1;
    }
  }

  datatype Item = Item(id: string, body: string)

  function ItemIds(items: seq<Item>): (ids: seq<string>)
    ensures |ids| == |items|
  {
    seq(|items|, i requires 0 <= i < |items| => items[i].id)
  }

  /** The results are the top of the fused lists, each with the body of the last row that carries its id. */
  ghost predicate IsResult(results: seq<Item>, dense: seq<Item>, sparse: seq<Item>, limit: nat) {
    && (exists top :: IsTop(top, [ItemIds(dense), ItemIds(sparse)], limit) && IdsOf(top) == ItemIds(results))
    && forall i | 0 <= i < |results| ::
         results[i] in sparse || (results[i] in dense && results[i].id !in ItemIds(sparse))
  }

  /** The rows by id, later rows over earlier ones. */
  method AddItems(before: map<string, Item>, items: seq<Item>) returns (m: map<string, Item>)
    requires forall id | id in before :: before[id].id == id
    ensures forall id | id in m :: m[id].id == id
    ensures m.Keys == before.Keys + set id | id in ItemIds(items)
    ensures forall id | id in m :: if id in ItemIds(items) then m[id] in items else id in before && m[id] == before[id]
  {
    m := before;
    for i := 0 to |items|
      invariant forall id | id in m :: m[id].id == id
      invariant m.Keys == before.Keys + set id | id in ItemIds(items[..i])
      invariant forall id | id in m ::
        if id in ItemIds(items[..i]) then m[id] in items[..i] else id in before && m[id] == before[id]
    {
      assert items[..i + 1] == items[..i] + [items[i]];
      assert ItemIds(items[..i + 1]) == ItemIds(items[..i]) + [items[i].id];
      m := m[items[i].id := items[i]];
    }
    assert items[..|items|] == items;
  }

  /** Looks the top ids up and takes each row out of the map. */
  method Resolve(top: Ranking, rows: map<string, Item>) returns (results: seq<Item>)
    requires Distinct(IdsOf(top)) && forall id | id in IdsOf(top) :: id in rows
    requires forall id | id in rows :: rows[id].id == id
    ensures ItemIds(results) == IdsOf(top)
    ensures forall i | 0 <= i < |results| :: results[i].id in rows && results[i] == rows[results[i].id]
  {
    results := [];
    var left := rows;
    ghost var ids := IdsOf(top);
    for i := 0 to |top|
      invariant |results| == i && forall j | 0 <= j < i :: results[j].id == ids[j]
      invariant forall j | 0 <= j < i :: results[j].id in rows && results[j] == rows[results[j].id]
      invariant forall id | id in left :: id in rows && left[id] == rows[id]
      invariant forall j | i <= j < |top| :: ids[j] in left
    {
      var id := top[i].0;
      assert id == ids[i];
      if id in left {
        results := results + [left[id]];
        left := left - {id};
      }
    }
  }

  lemma TopIsListed(r: Ranking, dense: seq<string>, sparse: seq<string>, limit: nat)
    requires IsRanking(r, [dense, sparse], K)
    ensures IsTop(Take(r, limit), [dense, sparse], limit) && Distinct(IdsOf(Take(r, limit)))
    ensures forall id | id in IdsOf(Take(r, limit)) :: id in dense || id in sparse
  {
    var top := Take(r, limit);
    assert forall i | 0 <= i < |top| :: IdsOf(top)[i] == IdsOf(r)[i];
    forall id | id in IdsOf(top)
      ensures id in dense || id in sparse
    {
      assert id in IdsOf(r);
      assert Listed([dense, sparse], id);
    }
  }

  /** The memory search: its own copy of the fusion when both searches found something, and the list of the
      one that did when the other found nothing. Both searches find each row once. When both found nothing,
      the rows of a plain query stand in. */
  method RetrieveMemories(dense: seq<Item>, sparse: seq<Item>, plain: seq<Item>, limit: nat)
    returns (results: seq<Item>)
    requires Distinct(ItemIds(dense)) && Distinct(ItemIds(sparse))
    ensures dense != [] || sparse != [] ==> IsResult(results, dense, sparse, limit)
    ensures dense == [] && sparse == [] ==> results == plain
  {
    ghost var ds, ss := ItemIds(dense), ItemIds(sparse);
    if dense != [] && sparse != [] {
      var scores := AddList(map[], ItemIds(dense), K);
      scores := AddList(scores, ItemIds(sparse), K);
      TwoListScores(scores, ds, ss);
      var rows := AddItems(map[], dense);
      rows := AddItems(rows, sparse);
      var sorted := Sorted(scores);
      SortedIsRanking(sorted, scores, [ds, ss]);
      TopIsListed(sorted, ds, ss, limit);
      results := Resolve(Take(sorted, limit), rows);
      ResultsComeFrom(results, rows, dense, sparse);
    } else if sparse != [] {
      results := Take(sparse, limit);
      ShortcutIsFusion(dense, sparse, sparse, limit);
    } else if dense != [] {
      results := Take(dense, limit);
      ShortcutIsFusion(dense, sparse, dense, limit);
    } else {
      results := plain;
    }
  }

  lemma TwoListScore(ds: seq<string>, ss: seq<string>, id: string)
    ensures Score([ds, ss], id, K) == Mass(ds, id, K) + Mass(ss, id, K)
    ensures Listed([ds, ss], id) <==> id in ds || id in ss
  {
    OneListScore(ds, [ds], id);
    ScoreAppend([ds], ss, id, K);
    assert [ds] + [ss] == [ds, ss];
  }

  lemma ResultsComeFrom(results: seq<Item>, rows: map<string, Item>, dense: seq<Item>, sparse: seq<Item>)
    requires forall i | 0 <= i < |results| :: results[i].id in rows && results[i] == rows[results[i].id]
    requires forall id | id in rows ::
      if id in ItemIds(sparse) then rows[id] in sparse else rows[id] in dense
    ensures forall i | 0 <= i < |results| ::
      results[i] in sparse || (results[i] in dense && results[i].id !in ItemIds(sparse))
  {
  }

  /** Taking the one list that is not empty gives what fusing would give. */
  lemma ShortcutIsFusion(dense: seq<Item>, sparse: seq<Item>, only: seq<Item>, limit: nat)
    requires (only == sparse && dense == []) || (only == dense && sparse == [])
    requires Distinct(ItemIds(only))
    ensures IsResult(Take(only, limit), dense, sparse, limit)
  {
    var lists := [ItemIds(dense), ItemIds(sparse)];
    SingleListIsItsRanking(ItemIds(only), lists);
    var top := Take(Ranked(ItemIds(only)), limit);
    assert IsTop(top, lists, limit);
    assert IdsOf(top) == ItemIds(Take(only, limit));
  }

  /** The rule search calls the fusion and is otherwise the same. */
  method RetrieveRules(dense: seq<Item>, sparse: seq<Item>, plain: seq<Item>, limit: nat) returns (results: seq<Item>)
    requires Distinct(ItemIds(dense)) && Distinct(ItemIds(sparse))
    ensures dense != [] || sparse != [] ==> IsResult(results, dense, sparse, limit)
    ensures dense == [] && sparse == [] ==> results == plain
  {
    if dense != [] && sparse != [] {
      var sorted := Fuse([ItemIds(dense), ItemIds(sparse)], K);
      var rows := AddItems(map[], dense);
      rows := AddItems(rows, sparse);
      TopIsListed(sorted, ItemIds(dense), ItemIds(sparse), limit);
      results := Resolve(Take(sorted, limit), rows);
      ResultsComeFrom(results, rows, dense, sparse);
    } else if sparse != [] {
      results := Take(sparse, limit);
      ShortcutIsFusion(dense, sparse, sparse, limit);
    } else if dense != [] {
      results := Take(dense, limit);
      ShortcutIsFusion(dense, sparse, dense, limit);
    } else {
      results := plain;
    }
  }

  /** The document search fuses without a shortcut. When neither search found anything, the list of a third
      one is scored in their place, by overwriting instead of adding. */
  method SearchDocuments(dense: seq<string>, sparse: seq<string>, fallback: seq<string>, limit: nat)
    returns (top: Ranking)
    requires Distinct(fallback)
    ensures IsTop(top, if dense == [] && sparse == [] then [fallback] else [dense, sparse], limit)
  {
    var scores := AddList(map[], dense, K);
    scores := AddList(scores, sparse, K);
    TwoListScores(scores, dense, sparse);
    if scores == map[] {
      NothingScored(scores, dense, sparse);
      scores := ScoreFallback(fallback);
    }
    hide HasScores, Score, Mass;
    var sorted := Sorted(scores);
    SortedIsRanking(sorted, scores, if dense == [] && sparse == [] then [fallback] else [dense, sparse]);
    top := Take(sorted, limit);
  }

  lemma SortedIsRanking(r: Ranking, scores: Scores, lists: seq<seq<string>>)
    requires HasScores(scores, lists, K)
    requires Distinct(IdsOf(r)) && Descending(r)
    requires forall id :: id in IdsOf(r) <==> id in scores
    requires forall i | 0 <= i < |r| :: r[i].0 in scores && r[i].1 == scores[r[i].0]
    ensures IsRanking(r, lists, K)
  {
    assert forall id :: Get(scores, id) == Score(lists, id, K);
  }

  lemma NothingScored(scores: Scores, dense: seq<string>, sparse: seq<string>)
    requires HasScores(scores, [dense, sparse], K)
    ensures scores == map[] <==> dense == [] && sparse == []
  {
    hide Score, Mass;
    TwoListScore(dense, sparse, if dense != [] then dense[0] else if sparse != [] then sparse[0] else "");
    forall id | id in scores
      ensures id in dense || id in sparse
    {
      TwoListScore(dense, sparse, id);
    }
  }

  method ScoreFallback(fallback: seq<string>) returns (scores: Scores)
    requires Distinct(fallback)
    ensures HasScores(scores, [fallback], K)
  {
    hide HasScores, Score, Mass, Weight;
    scores := map[];
    for rank := 0 to |fallback|
      invariant forall id | id in scores :: id in fallback[..rank]
      invariant forall i | 0 <= i < rank :: fallback[i] in scores && scores[fallback[i]] == Weight(K, i)
    {
      scores := scores[fallback[rank] := Weight(K, rank)];
    }
    FallbackScores(scores, fallback);
  }

  lemma TwoListScores(scores: Scores, dense: seq<string>, sparse: seq<string>)
    requires scores.Keys == (set id | id in dense) + (set id | id in sparse)
    requires forall id :: Get(scores, id) == Mass(dense, id, K) + Mass(sparse, id, K)
    ensures HasScores(scores, [dense, sparse], K)
  {
    hide Score, Mass;
    forall id
      ensures Get(scores, id) == Score([dense, sparse], id, K) && (id in scores <==> Listed([dense, sparse], id))
    {
      TwoListScore(dense, sparse, id);
    }
  }

  lemma FallbackScores(scores: Scores, fallback: seq<string>)
    requires Distinct(fallback) && forall id | id in scores :: id in fallback
    requires forall i | 0 <= i < |fallback| :: fallback[i] in scores && scores[fallback[i]] == Weight(K, i)
    ensures HasScores(scores, [fallback], K)
  {
    forall id
      ensures Get(scores, id) == Score([fallback], id, K) && (id in scores <==> Listed([fallback], id))
    {
      OneListScore(fallback, [fallback], id);
      if id in fallback {
        var i :| 0 <= i < |fallback| && fallback[i] == id;
        MassOfDistinct(fallback, i, K);
      }
    }
  }
}
