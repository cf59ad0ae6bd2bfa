/** The "hardest words" list of data.js: the words of a topic scored by
    difficulty, sorted by decreasing difficulty with a stable sort, and cut
    to the requested length. */
module Ranking {
  import opened Util
  import opened Data

  /** One item of the list shown in the round summary. */
  datatype HardWord = HardWord(en: string, de: string, topic: string, diff: real)

  /** A scored catalog position, as sorted. */
  datatype Scored = Scored(index: nat, diff: real)

  /** x may precede y in the ranking: higher difficulty first, and among
      equal difficulties the earlier catalog position first (the order a
      stable sort of the catalog-ordered list keeps). */
  predicate InOrder(x: Scored, y: Scored)
  {
    x.diff > y.diff || (x.diff == y.diff && x.index <= y.index)
  }

  predicate Ranked(s: seq<Scored>)
  {
    forall i, j :: 0 <= i < j < |s| ==> InOrder(s[i], s[j])
  }

  function Insert(x: Scored, s: seq<Scored>): seq<Scored>
  {
    if s == [] then [x]
    else if InOrder(x, s[0]) then [x] + s
    else [s[0]] + Insert(x, s[1..])
  }

  lemma {:induction false} InsertPermutes(x: Scored, s: seq<Scored>)
    ensures multiset(Insert(x, s)) == multiset(s) + multiset{x}
  {
    if s != [] && !InOrder(x, s[0]) {
      InsertPermutes(x, s[1..]);
      assert s == [s[0]] + s[1..];
    }
  }

  lemma {:induction false} InsertRanked(x: Scored, s: seq<Scored>)
    requires Ranked(s)
    ensures Ranked(Insert(x, s))
  {
    if s != [] && !InOrder(x, s[0]) {
      var tail := Insert(x, s[1..]);
      InsertRanked(x, s[1..]);
      InsertPermutes(x, s[1..]);
      forall k | 0 <= k < |tail| ensures InOrder(s[0], tail[k]) {
        assert tail[k] in multiset(tail);
        if tail[k] != x {
          assert tail[k] in multiset(s[1..]);
          var i :| 0 <= i < |s[1..]| && s[1..][i] == tail[k];
          assert s[i + 1] == tail[k];
        }
      }
      assert Insert(x, s) == [s[0]] + tail;
    }
  }

  /** Insertion sort under InOrder. */
  function Rank(s: seq<Scored>): seq<Scored>
  {
    if s == [] then [] else Insert(s[|s| - 1], Rank(s[..|s| - 1]))
  }

  lemma {:induction false} RankSorts(s: seq<Scored>)
    ensures Ranked(Rank(s))
    ensures multiset(Rank(s)) == multiset(s)
  {
    if s != [] {
      var init := s[..|s| - 1];
      RankSorts(init);
      InsertRanked(s[|s| - 1], Rank(init));
      InsertPermutes(s[|s| - 1], Rank(init));
      assert s == init + [s[|s| - 1]];
    }
  }

  /** The scored list `pool.map(e => ... diff: difficultyFor(e.topic, e.en))`. */
  function ScoreAll(es: seq<Entry>, store: Store, pool: seq<nat>): (scored: seq<Scored>)
    requires forall k :: 0 <= k < |pool| ==> pool[k] < |es|
    ensures |scored| == |pool|
    ensures forall k :: 0 <= k < |pool| ==> scored[k].index == pool[k]
  {
    seq(|pool|, k requires 0 <= k < |pool| =>
      Scored(pool[k], DifficultyFor(store, es[pool[k]].topic, es[pool[k]].en)))
  }

  /** The whole topic ranked by difficulty. */
  function RankTopic(es: seq<Entry>, store: Store, topic: string): seq<Scored>
  {
    Rank(ScoreAll(es, store, ListByTopic(es, topic)))
  }

  /** The ranking lists the entries of the topic, each with its difficulty. */
  lemma RankTopicMembers(es: seq<Entry>, store: Store, topic: string)
    ensures |RankTopic(es, store, topic)| == |ListByTopic(es, topic)|
    ensures forall s :: s in RankTopic(es, store, topic) ==>
      s.index < |es| && InTopic(es[s.index], topic)
      && s.diff == DifficultyFor(store, es[s.index].topic, es[s.index].en)
  {
    var scored := ScoreAll(es, store, ListByTopic(es, topic));
    var r := Rank(scored);
    RankSorts(scored);
    assert |r| == |scored| by {
      assert |multiset(r)| == |multiset(scored)|;
    }
    forall s | s in r
      ensures s.index < |es| && InTopic(es[s.index], topic)
      ensures s.diff == DifficultyFor(store, es[s.index].topic, es[s.index].en)
    {
      assert s in multiset(scored);
    }
  }

  /** Every entry of the topic appears in the ranking. */
  lemma RankTopicComplete(es: seq<Entry>, store: Store, topic: string, i: nat)
    requires i < |es| && InTopic(es[i], topic)
    ensures exists k :: 0 <= k < |RankTopic(es, store, topic)| && RankTopic(es, store, topic)[k].index == i
  {
    var pool := ListByTopic(es, topic);
    var scored := ScoreAll(es, store, pool);
    var r := Rank(scored);
    RankSorts(scored);
    var p :| 0 <= p < |pool| && pool[p] == i;
    assert scored[p] in multiset(r);
    var k :| 0 <= k < |r| && r[k] == scored[p];
    assert r == RankTopic(es, store, topic) && r[k].index == i;
  }

  /** The ranking is by non-increasing difficulty, and entries of equal
      difficulty keep their catalog order. */
  lemma RankTopicOrder(es: seq<Entry>, store: Store, topic: string)
    ensures var r := RankTopic(es, store, topic);
      forall i, j :: 0 <= i < j < |r| ==> r[i].diff >= r[j].diff
    ensures var r := RankTopic(es, store, topic);
      forall i, j :: 0 <= i < j < |r| && r[i].diff == r[j].diff ==> r[i].index < r[j].index
  {
    var pool := ListByTopic(es, topic);
    var scored := ScoreAll(es, store, pool);
    var r := Rank(scored);
    RankSorts(scored);
    assert NoDup(scored) by {
      IncreasingNoDup(pool);
    }
    PermutationKeepsNoDup(scored, r);
    forall i, j | 0 <= i < j < |r| && r[i].diff == r[j].diff ensures r[i].index < r[j].index {
      assert InOrder(r[i], r[j]);
      assert r[i] != r[j];
    }
  }

  function ToHard(es: seq<Entry>, s: Scored): HardWord
    requires s.index < |es|
  {
    HardWord(es[s.index].en, es[s.index].de, es[s.index].topic, s.diff)
  }

  /** getHardestWords: the first `max(0, count)` entries of the topic
      ranking. */
  function HardestWords(es: seq<Entry>, store: Store, topic: string, count: int): (r: seq<HardWord>)
    ensures |r| == Min(Max(0, count), |ListByTopic(es, topic)|)
    ensures forall i, j :: 0 <= i < j < |r| ==> r[i].diff >= r[j].diff
    ensures forall k :: 0 <= k < |r| ==>
      k < |RankTopic(es, store, topic)| && RankTopic(es, store, topic)[k].index < |es| && r[k] == ToHard(es, RankTopic(es, store, topic)[k])
  {
    RankTopicMembers(es, store, topic);
    RankTopicOrder(es, store, topic);
    var ranked := RankTopic(es, store, topic);
    var n := Min(Max(0, count), |ranked|);
    seq(n, k requires 0 <= k < n => ToHard(es, ranked[k]))
  }
}
