/** The catalog and the per-word statistics of data.js: catalog entries,
    the word-statistics records kept in the key-value store, the difficulty
    score derived from them, the selection weight derived from the
    difficulty, the topic list and the topic filter. */
module Data {
  import opened Util

  /** One catalog term. Entries are identified by their position in the
      catalog, as the source compares entry objects by reference. */
  datatype Entry = Entry(en: string, de: string, topic: string, hint: string)

  /** A per-word statistics record (the ISO timestamp `lastSeen` is left out). */
  datatype WordStats = WordStats(seen: nat, correct: nat, wrong: nat, streakWord: nat)

  const ZeroStats := WordStats(0, 0, 0, 0)

  /** The part of the key-value store that holds word statistics. */
  type Store = map<string, WordStats>

  /** `topic || "All"`: the null (empty) topic stands for all topics. */
  function TopicOrAll(topic: string): string
  {
    if topic == "" then "All" else topic
  }

  function WordKey(topic: string, en: string): string
  {
    "vocabxr:word:" + TopicOrAll(topic) + ":" + ToLower(en)
  }

  /** The stored record for a word, or the all-zero record when none is stored. */
  function GetWordStats(store: Store, topic: string, en: string): WordStats
  {
    var key := WordKey(topic, en);
    if key in store then store[key] else ZeroStats
  }

  function NextWordStats(prev: WordStats, wasCorrect: bool): WordStats
  {
    WordStats(
      prev.seen + 1,
      prev.correct + (if wasCorrect then 1 else 0),
      prev.wrong + (if wasCorrect then 0 else 1),
      if wasCorrect then prev.streakWord + 1 else 0)
  }

  /** Records one answer for a word: returns the new record and the store
      after the write, which leaves the store as it was when storage does not
      accept writes. */
  function UpdateWordStats(store: Store, topic: string, en: string, wasCorrect: bool, writable: bool)
    : (r: (WordStats, Store))
    ensures var prev := GetWordStats(store, topic, en);
      && r.0.seen == prev.seen + 1
      && r.0.correct == prev.correct + (if wasCorrect then 1 else 0)
      && r.0.wrong == prev.wrong + (if wasCorrect then 0 else 1)
      && r.0.streakWord == (if wasCorrect then prev.streakWord + 1 else 0)
    ensures writable ==> GetWordStats(r.1, topic, en) == r.0
    ensures !writable ==> r.1 == store
    ensures forall key :: key != WordKey(topic, en) ==>
      (key in r.1 <==> key in store) && (key in store ==> r.1[key] == store[key])
  {
    var next := NextWordStats(GetWordStats(store, topic, en), wasCorrect);
    (next, if writable then store[WordKey(topic, en) := next] else store)
  }

  /** A record that the engine itself can produce: every sighting was one
      answer, and the current streak consists of correct answers. */
  predicate Consistent(s: WordStats)
  {
    s.seen == s.correct + s.wrong && s.streakWord <= s.correct
  }

  lemma UpdateKeepsConsistent(store: Store, topic: string, en: string, wasCorrect: bool, writable: bool)
    requires Consistent(GetWordStats(store, topic, en))
    ensures Consistent(UpdateWordStats(store, topic, en, wasCorrect, writable).0)
  {
  }

  /** Two spellings of a word that differ only in letter case share a record. */
  lemma CaseInsensitiveRecord(store: Store, topic: string, en1: string, en2: string)
    requires ToLower(en1) == ToLower(en2)
    ensures GetWordStats(store, topic, en1) == GetWordStats(store, topic, en2)
  {
  }

  /** The difficulty score of a record, clamped to [0.5, 4.0]. */
  function Difficulty(s: WordStats): (d: real)
    ensures 0.5 <= d <= 4.0
    ensures s.seen == 0 && s.correct == 0 && s.wrong == 0 ==> d == 1.0
  {
    var base := 1.0 + s.wrong as real - 0.5 * s.correct as real;
    var recentPenalty := if s.streakWord == 0 && s.seen > 0 then 0.5 else 0.0;
    MaxR(0.5, MinR(4.0, base + recentPenalty))
  }

  function DifficultyFor(store: Store, topic: string, en: string): real
  {
    Difficulty(GetWordStats(store, topic, en))
  }

  /** A word never seen has the baseline difficulty 1.0, whatever its key. */
  lemma UnseenWordIsBaseline(store: Store, topic: string, en: string)
    requires WordKey(topic, en) !in store
    ensures DifficultyFor(store, topic, en) == 1.0
  {
  }

  /** A wrong answer never makes a word easier, a correct answer never makes
      it harder. */
  lemma AnswerMovesDifficulty(s: WordStats)
    ensures Difficulty(NextWordStats(s, false)) >= Difficulty(s)
    ensures Difficulty(NextWordStats(s, true)) <= Difficulty(s)
  {
  }

  /** The sampling weight of a difficulty: linear in the difficulty, at least 0.2. */
  function Weight(d: real, weightFactor: real): (w: real)
    ensures w >= 0.2
    ensures w >= 1.0 + weightFactor * (d - 1.0)
  {
    MaxR(0.2, 1.0 + weightFactor * (d - 1.0))
  }

  /** With a non-negative factor a harder word never weighs less. */
  lemma WeightGrowsWithDifficulty(d1: real, d2: real, weightFactor: real)
    requires d1 <= d2 && weightFactor >= 0.0
    ensures Weight(d1, weightFactor) <= Weight(d2, weightFactor)
  {
    assert weightFactor * (d2 - d1) >= 0.0;
  }

  /** `e.topic || "Misc"`: the topic an entry is listed under. */
  function TopicLabel(e: Entry): string
  {
    if e.topic == "" then "Misc" else e.topic
  }

  /** Adds the labels of `es` to `seen`, each one at its first occurrence,
      as insertion into a JavaScript Set does. */
  function CollectTopics(seen: seq<string>, es: seq<Entry>): seq<string>
    decreases |es|
  {
    if es == [] then seen
    else
      var t := TopicLabel(es[0]);
      CollectTopics(if t in seen then seen else seen + [t], es[1..])
  }

  lemma {:induction false} CollectTopicsSpec(seen: seq<string>, es: seq<Entry>)
    requires NoDup(seen)
    ensures var r := CollectTopics(seen, es);
      && NoDup(r)
      && |seen| <= |r| && r[..|seen|] == seen
      && (forall t :: t in r <==> t in seen || exists i :: 0 <= i < |es| && TopicLabel(es[i]) == t)
    decreases |es|
  {
    if es != [] {
      var t := TopicLabel(es[0]);
      var seen' := if t in seen then seen else seen + [t];
      CollectTopicsSpec(seen', es[1..]);
      var r := CollectTopics(seen', es[1..]);
      assert r[..|seen|] == seen by {
        assert seen'[..|seen|] == seen;
        assert r[..|seen'|][..|seen|] == r[..|seen|];
      }
      forall x | x in r ensures x in seen || exists i :: 0 <= i < |es| && TopicLabel(es[i]) == x {
        if x !in seen && x != t {
          var i :| 0 <= i < |es[1..]| && TopicLabel(es[1..][i]) == x;
          assert TopicLabel(es[i + 1]) == x;
        }
      }
      forall x | x in seen || exists i :: 0 <= i < |es| && TopicLabel(es[i]) == x ensures x in r {
        if x !in seen {
          var i :| 0 <= i < |es| && TopicLabel(es[i]) == x;
          if i > 0 {
            assert TopicLabel(es[1..][i - 1]) == x;
          }
        }
      }
    }
  }

  /** getTopics: the distinct topic labels in order of first occurrence. */
  function Topics(es: seq<Entry>): (ts: seq<string>)
    ensures NoDup(ts)
    ensures forall t :: t in ts <==> exists i :: 0 <= i < |es| && TopicLabel(es[i]) == t
    ensures |ts| == 0 <==> |es| == 0
    ensures |es| > 0 ==> ts[0] == TopicLabel(es[0])
  {
    CollectTopicsSpec([], es);
    FirstTopicFirst(es);
    CollectTopics([], es)
  }

  lemma FirstTopicFirst(es: seq<Entry>)
    ensures |es| > 0 ==> |CollectTopics([], es)| > 0 && CollectTopics([], es)[0] == TopicLabel(es[0])
  {
    if es != [] {
      var empty: seq<string> := [];
      assert empty + [TopicLabel(es[0])] == [TopicLabel(es[0])];
      assert CollectTopics([], es) == CollectTopics([TopicLabel(es[0])], es[1..]);
      CollectTopicsSpec([TopicLabel(es[0])], es[1..]);
    }
  }

  /** Whether an entry passes the topic filter of listByTopic. */
  predicate InTopic(e: Entry, topic: string)
  {
    topic == "" || e.topic == topic
  }

  /** Position i of s holds a smaller value than position j. */
  predicate Ascends(s: seq<nat>, i: int, j: int)
  {
    0 <= i < j < |s| ==> s[i] < s[j]
  }

  /** s is strictly increasing. The pairwise facts are stated through
      Ascends, so that a proof draws on them only for the pairs it names. */
  predicate Increasing(s: seq<nat>)
  {
    forall i, j :: 0 <= i < j < |s| ==> Ascends(s, i, j)
  }

  /** The positions from `from` on whose entries pass the topic filter. */
  function IndicesFrom(es: seq<Entry>, topic: string, from: nat): (pool: seq<nat>)
    ensures forall k :: 0 <= k < |pool| ==> from <= pool[k] < |es| && InTopic(es[pool[k]], topic)
    ensures forall i :: from <= i < |es| && InTopic(es[i], topic) ==> i in pool
    ensures Increasing(pool)
    ensures from <= |es| ==> |pool| <= |es| - from
    ensures from <= |es| && topic == "" ==> |pool| == |es| - from
    decreases |es| - from
  {
    if from >= |es| then []
    else
      var rest := IndicesFrom(es, topic, from + 1);
      if InTopic(es[from], topic) then
        IncreasingCons(from, rest);
        [from] + rest
      else rest
  }

  /** listByTopic, as catalog positions in catalog order: every entry when
      the topic is null, otherwise the entries whose topic is exactly it. */
  function ListByTopic(es: seq<Entry>, topic: string): (pool: seq<nat>)
    ensures forall k :: 0 <= k < |pool| ==> pool[k] < |es| && InTopic(es[pool[k]], topic)
    ensures forall i :: 0 <= i < |es| && InTopic(es[i], topic) ==> i in pool
    ensures Increasing(pool)
    ensures |pool| <= |es|
    ensures topic == "" ==> |pool| == |es|
  {
    IndicesFrom(es, topic, 0)
  }

  /** The tail of an increasing sequence is increasing and above its head. */
  lemma IncreasingTail(s: seq<nat>)
    requires Increasing(s) && |s| > 0
    ensures Increasing(s[1..])
    ensures forall x :: x in s[1..] ==> s[0] < x
  {
    forall i, j | 0 <= i < j < |s[1..]| ensures Ascends(s[1..], i, j) {
      assert Ascends(s, i + 1, j + 1);
    }
    forall x | x in s[1..] ensures s[0] < x {
      var k :| 0 <= k < |s[1..]| && s[1..][k] == x;
      assert s[k + 1] == x && Ascends(s, 0, k + 1);
    }
  }

  lemma IncreasingCons(h: nat, s: seq<nat>)
    requires Increasing(s) && forall x :: x in s ==> h < x
    ensures Increasing([h] + s)
  {
    forall i, j | 0 <= i < j < |[h] + s| ensures Ascends([h] + s, i, j) {
      if 0 <= i < j < |[h] + s| {
        if i == 0 {
          assert ([h] + s)[j] == s[j - 1];
          assert s[j - 1] in s;
        } else {
          assert Ascends(s, i - 1, j - 1);
        }
      }
    }
  }

  lemma IncreasingNoDup(s: seq<nat>)
    requires Increasing(s)
    ensures NoDup(s)
  {
    forall i, j | 0 <= i < j < |s| ensures s[i] != s[j] {
      assert Ascends(s, i, j);
    }
  }
}
