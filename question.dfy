/** buildQuestion of data.js: picks a prompt entry (weighted by difficulty
    when adaptive, uniform otherwise), draws distractors preferably from the
    same topic, and shuffles the option labels. */
module Questions {
  import opened Util
  import opened Data
  import opened Sampling

  /** A multiple-choice question: the prompt entry, the option labels and the
      position of the correct label (-1 if it were missing). */
  datatype Question = Question(prompt: Entry, options: seq<string>, correctIndex: int)

  /** The options object of buildQuestion. A `maxOptions` of 0 stands for an
      absent value (`opts.maxOptions || 4`); `onlyPool` is None when it is not
      an array. */
  datatype QuestionOpts = QuestionOpts(
    topic: string,
    maxOptions: int,
    onlyPool: Option<seq<string>>,
    adaptive: bool,
    weightFactor: real)

  /** The draws of Math.random one call consumes: one for the prompt, then
      one per pass of each of the two shuffles. */
  datatype Draws = Draws(prompt: real, distractors: seq<real>, labels: seq<real>)

  /** Enough draws for a catalog of n entries. */
  predicate DrawsFit(d: Draws, n: nat)
  {
    0.0 <= d.prompt < 1.0 && UnitDraws(d.distractors, n) && UnitDraws(d.labels, n)
  }

  /** `Math.max(2, opts.maxOptions || 4)`. */
  function MaxOptionsOf(m: int): (n: int)
    ensures n >= 2
    ensures m >= 2 ==> n == m
    ensures m == 0 ==> n == 4
  {
    Max(2, if m == 0 then 4 else m)
  }

  function Lowered(words: seq<string>): seq<string>
  {
    seq(|words|, k requires 0 <= k < |words| => ToLower(words[k]))
  }

  /** `onlyPool && onlyPool.length`: a non-empty forced pool restricts the prompt. */
  predicate Forced(opts: QuestionOpts)
  {
    opts.onlyPool.Some? && |opts.onlyPool.value| > 0
  }

  /** `adaptive && !onlyPool`: any array, even an empty one, turns weighting off. */
  predicate Adaptive(opts: QuestionOpts)
  {
    opts.adaptive && opts.onlyPool.None?
  }

  /** Whether an entry may be the prompt: it is in the topic and, under a
      forced pool, its lower-cased label is listed there. */
  predicate Askable(e: Entry, opts: QuestionOpts)
  {
    InTopic(e, opts.topic) && (Forced(opts) ==> ToLower(e.en) in Lowered(opts.onlyPool.value))
  }

  predicate InCatalog(es: seq<Entry>, pool: seq<nat>)
  {
    forall k :: 0 <= k < |pool| ==> pool[k] < |es|
  }

  lemma MembersInCatalog(es: seq<Entry>, a: seq<nat>, b: seq<nat>)
    requires InCatalog(es, a) && forall x :: x in b ==> x in a
    ensures InCatalog(es, b)
  {
    forall k | 0 <= k < |b| ensures b[k] < |es| {
      assert b[k] in b;
      var j :| 0 <= j < |a| && a[j] == b[k];
    }
  }

  /** Prepending a head below every element of an increasing filter result. */
  lemma FilterIncreasing(pool: seq<nat>, rest: seq<nat>)
    requires Increasing(pool) && |pool| > 0
    requires forall x :: x in rest ==> x in pool[1..]
    requires Increasing(pool[1..]) ==> Increasing(rest)
    ensures Increasing(rest) && Increasing([pool[0]] + rest)
    ensures pool[0] !in pool[1..]
  {
    IncreasingTail(pool);
    IncreasingCons(pool[0], rest);
  }

  /** The positions of `pool` whose lower-cased label is in `words`. */
  function KeepListed(es: seq<Entry>, pool: seq<nat>, words: seq<string>): (r: seq<nat>)
    requires InCatalog(es, pool)
    ensures InCatalog(es, r) && |r| <= |pool|
    ensures forall x :: x in r <==> x in pool && x < |es| && ToLower(es[x].en) in words
    ensures Increasing(pool) ==> Increasing(r)
  {
    if pool == [] then []
    else
      var rest := KeepListed(es, pool[1..], words);
      assert forall x :: x in pool <==> x == pool[0] || x in pool[1..];
      if Increasing(pool) then
        FilterIncreasing(pool, rest);
        if ToLower(es[pool[0]].en) in words then [pool[0]] + rest else rest
      else
        if ToLower(es[pool[0]].en) in words then [pool[0]] + rest else rest
  }

  /** `pool.filter(e => e !== p)`: the pool without the entry at position p. */
  function Without(pool: seq<nat>, p: nat): (r: seq<nat>)
    ensures forall x :: x in r <==> x in pool && x != p
    ensures forall k :: 0 <= k < |r| ==> r[k] in pool
    ensures |r| <= |pool|
    ensures p !in pool ==> r == pool
  {
    if pool == [] then []
    else
      var rest := Without(pool[1..], p);
      assert forall x :: x in pool <==> x == pool[0] || x in pool[1..];
      if pool[0] == p then rest else [pool[0]] + rest
  }

  /** Filtering an increasing pool keeps it increasing, and drops exactly
      one element when p is in it. */
  lemma {:induction false} WithoutIncreasing(pool: seq<nat>, p: nat)
    requires Increasing(pool)
    ensures Increasing(Without(pool, p))
    ensures p in pool ==> |Without(pool, p)| == |pool| - 1
  {
    if pool != [] {
      var rest := Without(pool[1..], p);
      IncreasingTail(pool);
      WithoutIncreasing(pool[1..], p);
      FilterIncreasing(pool, rest);
      assert forall x :: x in pool <==> x == pool[0] || x in pool[1..];
    }
  }

  /** The candidate prompts: the topic's entries, narrowed to a non-empty
      forced pool when there is one. */
  function CandidatePool(es: seq<Entry>, opts: QuestionOpts): (pool: seq<nat>)
    ensures InCatalog(es, pool) && Increasing(pool) && |pool| <= |es|
    ensures forall x: nat :: x in pool <==> x < |es| && Askable(es[x], opts)
  {
    var base := ListByTopic(es, opts.topic);
    if Forced(opts) then KeepListed(es, base, Lowered(opts.onlyPool.value)) else base
  }

  /** The weight of each candidate: `max(0.2, 1 + weightFactor * (d - 1))`
      for the difficulty d of its record. */
  function PromptWeights(es: seq<Entry>, store: Store, pool: seq<nat>, weightFactor: real): (ws: seq<real>)
    requires InCatalog(es, pool)
    ensures |ws| == |pool|
  {
    seq(|pool|, k requires 0 <= k < |pool| =>
      Weight(DifficultyFor(store, es[pool[k]].topic, es[pool[k]].en), weightFactor))
  }

  /** The position in the candidate pool that the prompt draw selects. */
  function PromptPos(es: seq<Entry>, store: Store, opts: QuestionOpts, pool: seq<nat>, u: real): (k: nat)
    requires InCatalog(es, pool) && |pool| > 0 && 0.0 <= u < 1.0
    ensures k < |pool|
  {
    if Adaptive(opts) then WeightedPick(PromptWeights(es, store, pool, opts.weightFactor), u)
    else UniformIndex(u, |pool|)
  }

  /** The catalog position of the prompt. */
  function Prompt(es: seq<Entry>, store: Store, opts: QuestionOpts, d: Draws): (p: nat)
    requires DrawsFit(d, |es|) && |CandidatePool(es, opts)| > 0
    ensures p in CandidatePool(es, opts) && p < |es|
  {
    var pool := CandidatePool(es, opts);
    pool[PromptPos(es, store, opts, pool, d.prompt)]
  }

  /** Where distractors come from: the other candidates, or, when the prompt
      is the only candidate, every other catalog entry. */
  function DistractorPool(es: seq<Entry>, pool: seq<nat>, p: nat): (r: seq<nat>)
    requires InCatalog(es, pool) && Increasing(pool) && p in pool
    ensures InCatalog(es, r) && NoDup(r) && p !in r
    ensures |pool| > 1 ==> |r| == |pool| - 1 && forall x: nat :: x in r <==> x in pool && x != p
    ensures |pool| <= 1 ==> |r| == |es| - 1 && forall x: nat :: x in r <==> x < |es| && x != p
  {
    var all := ListByTopic(es, "");
    var others := Without(pool, p);
    var rest := Without(all, p);
    WithoutIncreasing(pool, p);
    WithoutIncreasing(all, p);
    IncreasingNoDup(rest);
    IncreasingNoDup(others);
    MembersInCatalog(es, pool, others);
    MembersInCatalog(es, all, rest);
    assert p in all;
    assert forall x: nat :: x in all <==> x < |es| by {
      forall x: nat | x in all ensures x < |es| {
        var k :| 0 <= k < |all| && all[k] == x;
      }
    }
    assert |pool| > 1 <==> |others| > 0;
    if |others| > 0 then others else rest
  }

  /** `shuffle(pool).slice(0, n)` for a non-negative n. */
  function ShuffledPrefix(pool: seq<nat>, us: seq<real>, n: nat): (ds: seq<nat>)
    requires UnitDraws(us, |pool|)
    ensures |ds| == Min(n, |pool|)
    ensures forall x :: x in ds ==> x in pool
    ensures NoDup(pool) ==> NoDup(ds)
  {
    var shuffled := FisherYates(pool, us);
    ShuffledPrefixMembers(pool, shuffled, n);
    SliceTo(shuffled, n)
  }

  lemma ShuffledPrefixMembers(pool: seq<nat>, shuffled: seq<nat>, n: nat)
    requires multiset(shuffled) == multiset(pool)
    ensures forall x :: x in SliceTo(shuffled, n) ==> x in pool
    ensures NoDup(pool) ==> NoDup(SliceTo(shuffled, n))
  {
    forall x | x in SliceTo(shuffled, n) ensures x in pool {
      assert x in shuffled;
      assert x in multiset(pool);
    }
    if NoDup(pool) {
      PermutationKeepsNoDup(pool, shuffled);
    }
  }

  /** The distractors shown: the first `maxOptions - 1` of the shuffled pool. */
  function Distractors(es: seq<Entry>, store: Store, opts: QuestionOpts, d: Draws): (ds: seq<nat>)
    requires DrawsFit(d, |es|) && |CandidatePool(es, opts)| > 0
    ensures InCatalog(es, ds)
  {
    var optsPool := DistractorPool(es, CandidatePool(es, opts), Prompt(es, store, opts, d));
    var ds := ShuffledPrefix(optsPool, d.distractors, Max(0, MaxOptionsOf(opts.maxOptions) - 1));
    MembersInCatalog(es, optsPool, ds);
    ds
  }

  /** `final.map(e => e.en)`. */
  function Labels(es: seq<Entry>, final: seq<nat>): (ls: seq<string>)
    requires InCatalog(es, final)
    ensures |ls| == |final|
  {
    seq(|final|, k requires 0 <= k < |final| => es[final[k]].en)
  }

  /** The question for the prompt at position p and the distractors ds:
      the labels of the prompt and the distractors, shuffled by the draws us,
      and the position of the prompt's label among them. */
  function Assemble(es: seq<Entry>, p: nat, ds: seq<nat>, us: seq<real>): Question
    requires p < |es| && InCatalog(es, ds) && UnitDraws(us, 1 + |ds|)
  {
    var labels := FisherYates(Labels(es, [p] + ds), us);
    Question(es[p], labels, IndexOf(labels, es[p].en))
  }

  /** An assembled question shows the labels of the prompt and the
      distractors in some order, with correctIndex at the first option
      carrying the prompt's label. */
  lemma AssembleSpec(es: seq<Entry>, p: nat, ds: seq<nat>, us: seq<real>)
    requires p < |es| && InCatalog(es, ds) && UnitDraws(us, 1 + |ds|)
    ensures var q := Assemble(es, p, ds, us);
      && q.prompt == es[p]
      && |q.options| == 1 + |ds|
      && multiset(q.options) == multiset(Labels(es, [p] + ds))
      && 0 <= q.correctIndex < |q.options|
      && q.options[q.correctIndex] == es[p].en
      && es[p].en !in q.options[..q.correctIndex]
      && (NoDup(Labels(es, [p] + ds)) ==> NoDup(q.options))
  {
    var ls := Labels(es, [p] + ds);
    var labels := FisherYates(ls, us);
    assert ls[0] == es[p].en;
    assert es[p].en in labels by {
      assert ls[0] in multiset(ls);
    }
    assert Assemble(es, p, ds, us) == Question(es[p], labels, IndexOf(labels, es[p].en));
    if NoDup(ls) {
      PermutationKeepsNoDup(ls, labels);
    }
  }

  /** The question buildQuestion returns for the catalog `es`, the word
      statistics `store`, the options `opts` and the draws `d`; None for null. */
  function QuestionFor(es: seq<Entry>, store: Store, opts: QuestionOpts, d: Draws): Option<Question>
    requires DrawsFit(d, |es|)
  {
    if |CandidatePool(es, opts)| == 0 then None
    else
      DistractorCount(es, store, opts, d);
      Some(Assemble(es, Prompt(es, store, opts, d), Distractors(es, store, opts, d), d.labels))
  }

  /** How many distractors are shown: as many as fit below maxOptions, all
      of them when the pool is smaller. */
  lemma DistractorCount(es: seq<Entry>, store: Store, opts: QuestionOpts, d: Draws)
    requires DrawsFit(d, |es|) && |CandidatePool(es, opts)| > 0
    ensures var pool := CandidatePool(es, opts);
      |Distractors(es, store, opts, d)|
      == Min(MaxOptionsOf(opts.maxOptions) - 1, if |pool| > 1 then |pool| - 1 else |es| - 1)
    ensures |Distractors(es, store, opts, d)| < |es|
  {
    var pool := CandidatePool(es, opts);
    var optsPool := DistractorPool(es, pool, Prompt(es, store, opts, d));
  }

  /** buildQuestion returns null exactly when no catalog entry is askable:
      none in the topic, or none matching a non-empty forced pool. */
  lemma NullIffNothingAskable(es: seq<Entry>, store: Store, opts: QuestionOpts, d: Draws)
    requires DrawsFit(d, |es|)
    ensures QuestionFor(es, store, opts, d).None? <==> forall i :: 0 <= i < |es| ==> !Askable(es[i], opts)
  {
    var pool := CandidatePool(es, opts);
    if |pool| > 0 {
      assert pool[0] in pool;
    }
  }

  /** A question's prompt is an askable entry, its options are the labels of
      the prompt and of the distractors in some order, and correctIndex is
      the first option carrying the prompt's label. */
  lemma QuestionWellFormed(es: seq<Entry>, store: Store, opts: QuestionOpts, d: Draws)
    requires DrawsFit(d, |es|) && |CandidatePool(es, opts)| > 0
    ensures var q := QuestionFor(es, store, opts, d).value;
      var p := Prompt(es, store, opts, d);
      && q.prompt == es[p] && Askable(q.prompt, opts)
      && multiset(q.options) == multiset(Labels(es, [p] + Distractors(es, store, opts, d)))
      && 0 <= q.correctIndex < |q.options|
      && q.options[q.correctIndex] == q.prompt.en
      && q.prompt.en !in q.options[..q.correctIndex]
  {
    DistractorCount(es, store, opts, d);
    AssembleSpec(es, Prompt(es, store, opts, d), Distractors(es, store, opts, d), d.labels);
  }

  /** A forced pool of a single word makes that word the prompt, up to
      letter case. */
  lemma SingleWordForcesPrompt(es: seq<Entry>, store: Store, opts: QuestionOpts, d: Draws, w: string)
    requires DrawsFit(d, |es|) && opts.onlyPool == Some([w])
    ensures var q := QuestionFor(es, store, opts, d);
      q.Some? ==> ToLower(q.value.prompt.en) == ToLower(w)
  {
    if |CandidatePool(es, opts)| > 0 {
      var p := Prompt(es, store, opts, d);
      assert Askable(es[p], opts);
      assert Lowered([w]) == [ToLower(w)];
      DistractorCount(es, store, opts, d);
      assert QuestionFor(es, store, opts, d) == Some(Assemble(es, p, Distractors(es, store, opts, d), d.labels));
    }
  }

  /** The number of options: maxOptions, unless fewer entries are available
      (the candidates when there are at least two, else the whole catalog).
      A catalog of two or more entries always yields at least two options. */
  lemma OptionCount(es: seq<Entry>, store: Store, opts: QuestionOpts, d: Draws)
    requires DrawsFit(d, |es|) && |CandidatePool(es, opts)| > 0
    ensures var q := QuestionFor(es, store, opts, d).value;
      var pool := CandidatePool(es, opts);
      && |q.options| == Min(MaxOptionsOf(opts.maxOptions), if |pool| > 1 then |pool| else |es|)
      && (|es| >= 2 ==> |q.options| >= 2)
      && |q.options| <= MaxOptionsOf(opts.maxOptions)
  {
    var pool := CandidatePool(es, opts);
    var p := Prompt(es, store, opts, d);
    var ds := Distractors(es, store, opts, d);
    DistractorCount(es, store, opts, d);
    var q := Assemble(es, p, ds, d.labels);
    assert QuestionFor(es, store, opts, d) == Some(q);
    CountArithmetic(|q.options|, |ds|, MaxOptionsOf(opts.maxOptions), |pool|, |es|);
  }

  lemma CountArithmetic(options: nat, distractors: nat, m: int, pool: nat, catalog: nat)
    requires m >= 2 && options == 1 + distractors
    requires distractors == Min(m - 1, if pool > 1 then pool - 1 else catalog - 1)
    ensures options == Min(m, if pool > 1 then pool else catalog)
    ensures catalog >= 2 ==> options >= 2
    ensures options <= m
  {
  }

  /** The distractors differ from the prompt and from each other, and come
      from the prompt's candidates when there are others, from the whole
      catalog otherwise. */
  lemma DistractorsAreOthers(es: seq<Entry>, store: Store, opts: QuestionOpts, d: Draws)
    requires DrawsFit(d, |es|) && |CandidatePool(es, opts)| > 0
    ensures var pool := CandidatePool(es, opts);
      var p := Prompt(es, store, opts, d);
      var ds := Distractors(es, store, opts, d);
      && NoDup(ds)
      && forall x :: x in ds ==> x != p && (if |pool| > 1 then x in pool else x < |es|)
  {
    var pool := CandidatePool(es, opts);
    var p := Prompt(es, store, opts, d);
    var optsPool := DistractorPool(es, pool, p);
    assert Distractors(es, store, opts, d)
      == ShuffledPrefix(optsPool, d.distractors, Max(0, MaxOptionsOf(opts.maxOptions) - 1));
  }

  /** Distinct labels in the catalog give distinct options. */
  lemma DistinctOptions(es: seq<Entry>, store: Store, opts: QuestionOpts, d: Draws)
    requires DrawsFit(d, |es|) && |CandidatePool(es, opts)| > 0
    requires forall i, j :: 0 <= i < j < |es| ==> es[i].en != es[j].en
    ensures NoDup(QuestionFor(es, store, opts, d).value.options)
  {
    var p := Prompt(es, store, opts, d);
    var ds := Distractors(es, store, opts, d);
    DistractorsAreOthers(es, store, opts, d);
    DistractorCount(es, store, opts, d);
    AssembledDistinct(es, p, ds, d.labels);
    assert QuestionFor(es, store, opts, d) == Some(Assemble(es, p, ds, d.labels));
  }

  lemma AssembledDistinct(es: seq<Entry>, p: nat, ds: seq<nat>, us: seq<real>)
    requires p < |es| && InCatalog(es, ds) && UnitDraws(us, 1 + |ds|)
    requires NoDup(ds) && p !in ds
    requires forall i, j :: 0 <= i < j < |es| ==> es[i].en != es[j].en
    ensures NoDup(Assemble(es, p, ds, us).options)
  {
    ConsNoDup(p, ds);
    LabelsKeepNoDup(es, [p] + ds);
    AssembleSpec(es, p, ds, us);
  }

  lemma ConsNoDup(p: nat, ds: seq<nat>)
    requires NoDup(ds) && p !in ds
    ensures NoDup([p] + ds)
  {
    var final := [p] + ds;
    forall i, j | 0 <= i < j < |final| ensures final[i] != final[j] {
      if i == 0 {
        assert final[j] == ds[j - 1] && ds[j - 1] in ds;
      } else {
        assert final[i] == ds[i - 1] && final[j] == ds[j - 1];
      }
    }
  }

  lemma LabelsKeepNoDup(es: seq<Entry>, final: seq<nat>)
    requires InCatalog(es, final) && NoDup(final)
    requires forall i, j :: 0 <= i < j < |es| ==> es[i].en != es[j].en
    ensures NoDup(Labels(es, final))
  {
    var ls := Labels(es, final);
    forall i, j | 0 <= i < j < |ls| ensures ls[i] != ls[j] {
      if final[i] < final[j] {
        assert es[final[i]].en != es[final[j]].en;
      } else {
        assert es[final[j]].en != es[final[i]].en;
      }
    }
  }

  /** In adaptive mode every candidate weighs at least 0.2, so the draw
      never falls back to a uniform pick: candidate k is chosen exactly when
      r = u * (sum of weights) lies in k's slice of the running total. */
  lemma AdaptivePromptFollowsWeights(es: seq<Entry>, store: Store, opts: QuestionOpts, pool: seq<nat>, u: real, k: nat)
    requires InCatalog(es, pool) && 0.0 <= u < 1.0 && Adaptive(opts) && k < |pool|
    ensures var ws := PromptWeights(es, store, pool, opts.weightFactor);
      var r := Scale(u, Sum(ws));
      AllPositive(ws)
      && (PromptPos(es, store, opts, pool, u) == k <==> (k == 0 || Through(ws, k - 1) < r) && r <= Through(ws, k))
  {
    var ws := PromptWeights(es, store, pool, opts.weightFactor);
    WeightedPickInterval(ws, u, k);
  }

  /** The prompt draw: weightedSample over the difficulty weights when
      adaptive, a uniform pick otherwise. */
  method PickPrompt(es: seq<Entry>, store: Store, opts: QuestionOpts, pool: seq<nat>, u: real) returns (p: nat)
    requires InCatalog(es, pool) && |pool| > 0 && 0.0 <= u < 1.0
    ensures p == pool[PromptPos(es, store, opts, pool, u)]
  {
    if Adaptive(opts) {
      p := WeightedSample(pool, PromptWeights(es, store, pool, opts.weightFactor), u);
    } else {
      p := pool[UniformIndex(u, |pool|)];
    }
  }

  /** The distractor draw: `shuffle(optsPool).slice(0, n)`. */
  method PickDistractors(es: seq<Entry>, pool: seq<nat>, p: nat, n: nat, us: seq<real>) returns (ds: seq<nat>)
    requires InCatalog(es, pool) && Increasing(pool) && |pool| <= |es| && p in pool
    requires UnitDraws(us, |es|)
    ensures UnitDraws(us, |DistractorPool(es, pool, p)|)
    ensures ds == ShuffledPrefix(DistractorPool(es, pool, p), us, n)
  {
    var optsPool := DistractorPool(es, pool, p);
    var shuffled := Shuffle(optsPool, us);
    ds := SliceTo(shuffled, n);
  }

  /** The last step of buildQuestion: shuffle the labels and locate the
      prompt's label among them. */
  method AssembleQuestion(es: seq<Entry>, p: nat, ds: seq<nat>, us: seq<real>) returns (q: Question)
    requires p < |es| && InCatalog(es, ds) && UnitDraws(us, 1 + |ds|)
    ensures q == Assemble(es, p, ds, us)
  {
    var labels := Shuffle(Labels(es, [p] + ds), us);
    q := Question(es[p], labels, IndexOf(labels, es[p].en));
  }

  /** buildQuestion: the steps of the source, in order, with the shuffles
      and the weighted draw as methods. */
  method BuildQuestion(es: seq<Entry>, store: Store, opts: QuestionOpts, d: Draws) returns (q: Option<Question>)
    requires DrawsFit(d, |es|)
    ensures q == QuestionFor(es, store, opts, d)
  {
    var pool := ListByTopic(es, opts.topic);
    if |pool| == 0 {
      return None;
    }
    if Forced(opts) {
      pool := KeepListed(es, pool, Lowered(opts.onlyPool.value));
      if |pool| == 0 {
        return None;
      }
    }
    assert pool == CandidatePool(es, opts);
    var p := PickPrompt(es, store, opts, pool, d.prompt);
    var ds := PickDistractors(es, pool, p, Max(0, MaxOptionsOf(opts.maxOptions) - 1), d.distractors);
    assert ds == Distractors(es, store, opts, d);
    DistractorCount(es, store, opts, d);
    var question := AssembleQuestion(es, p, ds, d.labels);
    q := Some(question);
  }
}
