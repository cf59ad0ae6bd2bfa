/** The round state machine of main.js as pure transitions: each handler of
    the game (the HUD buttons, an answer, the auto-advance timer) maps the
    state before it to the state after it. The class in game.dfy performs the
    same steps in place and is proved against these functions. */
module Session {
  import opened Util
  import opened Data
  import opened Ranking
  import opened Questions

  datatype Phase = Idle | AwaitAnswer | ShowFeedback | Finished

  /** The tunables read from the configuration. */
  datatype Config = Config(
    correctPoints: real,
    streakBonus: real,
    autoAdvanceMs: int,
    adaptiveEnabled: bool,
    retryAfter: int,
    maxRetries: int,
    weightFactor: real,
    reviewMax: int)

  /** The shipped configuration: 100 points, a 15% bonus per streak step,
      1200 ms auto-advance, adaptive mode on, a retry 3 questions later, at
      most 2 retries, weight factor 1.2, review of at most 5 words. */
  const Defaults := Config(100.0, 0.15, 1200, true, 3, 2, 1.2, 5)

  /** A missed word waiting to be asked again once `dueAt` questions have
      been asked. */
  datatype RetryEntry = RetryEntry(en: string, topic: string, dueAt: int, attempts: int)

  /** Review mode: a round restricted to the words of `pool`, asked in order. */
  datatype Review = Review(active: bool, pool: seq<string>, index: nat)

  /** The per-topic record kept across rounds (the timestamp is left out). */
  datatype TopicRecord = TopicRecord(
    plays: nat,
    totalQuestions: int,
    totalCorrect: int,
    bestScore: int,
    bestStreak: int,
    bestAccuracyPct: int)

  const NoRecord := TopicRecord(0, 0, 0, 0, 0, 0)

  /** The part of the key-value store that holds topic records. */
  type RecordStore = map<string, TopicRecord>

  /** What the round summary shows. */
  datatype Summary = Summary(
    score: int,
    correct: nat,
    total: int,
    accuracyPct: int,
    bestStreak: nat,
    best: TopicRecord)

  /** What the game does not change: the loaded catalog (None when loading
      failed), the configuration, and whether storage accepts writes. */
  datatype Env = Env(catalog: Option<seq<Entry>>, cfg: Config, writable: bool)

  /** The module-level state of main.js: the game state record, the answer
      gate, the pending auto-advance timer, the adaptive state, the question
      last built (`currentQ`), the question whose cards are on the table
      (`shownQ`), the key-value store, and the last summary shown. */
  datatype State = State(
    score: int,
    streak: nat,
    bestStreak: nat,
    round: nat,
    selectedTopic: string,
    roundSize: int,
    questionsAsked: nat,
    correctCount: nat,
    phase: Phase,
    acceptingAnswers: bool,
    timerPending: bool,
    adaptiveOn: bool,
    retryQueue: seq<RetryEntry>,
    review: Review,
    lastHardWords: seq<HardWord>,
    currentQ: Option<Question>,
    shownQ: Option<Question>,
    wordStore: Store,
    recordStore: RecordStore,
    summary: Option<Summary>)

  /** The catalog entries, none when loading failed. */
  function Entries(env: Env): seq<Entry>
  {
    if env.catalog.Some? then env.catalog.value else []
  }

  function CatalogTopics(env: Env): seq<string>
  {
    Topics(Entries(env))
  }

  /** The state after loading: the first topic selected (null without
      topics), rounds of 10, adaptive mode as configured. */
  function Initial(env: Env, wordStore: Store, recordStore: RecordStore): (s: State)
    ensures s.phase == Idle && !s.acceptingAnswers && !s.timerPending
    ensures s.selectedTopic == "" <==> Entries(env) == []
    ensures Entries(env) != [] ==> s.selectedTopic == TopicLabel(Entries(env)[0])
    ensures s.roundSize == 10 && s.questionsAsked == 0 && s.round == 0
    ensures s.score == 0 && s.streak == 0 && s.bestStreak == 0 && s.correctCount == 0
    ensures s.adaptiveOn == env.cfg.adaptiveEnabled && s.retryQueue == [] && !s.review.active
    ensures s.currentQ.None? && s.shownQ.None? && s.lastHardWords == []
  {
    var ts := CatalogTopics(env);
    State(0, 0, 0, 0, if |ts| > 0 then ts[0] else "", 10, 0, 0, Idle, false, false,
      env.cfg.adaptiveEnabled, [], Review(false, [], 0), [], None, None,
      wordStore, recordStore, None)
  }

  /** resetRoundState: zero the round counters, clear the retry queue and
      cancel the timer. */
  function ResetRound(s: State): State
  {
    s.(score := 0, streak := 0, bestStreak := 0, questionsAsked := 0, correctCount := 0,
       round := 0, phase := Idle, retryQueue := [], timerPending := false)
  }

  /** The points for a correct answer at the given streak:
      `Math.round(correctPoints * (1 + streak * streakBonus))`. */
  function Gained(cfg: Config, streak: nat): int
  {
    RoundHalfUp(cfg.correctPoints * (1.0 + streak as real * cfg.streakBonus))
  }

  /** The rounded percentage of correct answers, 0 for a non-positive total. */
  function AccuracyPct(correct: int, total: int): (pct: int)
    ensures total > 0 && 0 <= correct <= total ==> 0 <= pct <= 100
    ensures total <= 0 ==> pct == 0
  {
    if total > 0 then
      var x := correct as real / total as real * 100.0;
      assert 0 <= correct <= total ==> 0.0 <= x <= 100.0 by {
        if 0 <= correct <= total {
          assert correct as real / total as real <= 1.0;
        }
      }
      RoundHalfUp(x)
    else 0
  }

  function StatsKey(topic: string): string
  {
    "vocabxr:stats:" + TopicOrAll(topic)
  }

  /** updateStatsOnGameOver: folds one finished round into the topic's
      record; returns the new record and the store after the write. */
  function UpdateStatsOnGameOver(rs: RecordStore, topic: string, score: int, correct: nat,
                                 total: int, bestStreak: nat, writable: bool): (r: (TopicRecord, RecordStore))
    ensures var prev := if StatsKey(topic) in rs then rs[StatsKey(topic)] else NoRecord;
      && r.0.plays == prev.plays + 1
      && r.0.totalQuestions == prev.totalQuestions + total
      && r.0.totalCorrect == prev.totalCorrect + correct
      && r.0.bestScore >= prev.bestScore && r.0.bestScore >= score
      && (r.0.bestScore == prev.bestScore || r.0.bestScore == score)
      && r.0.bestStreak >= prev.bestStreak && r.0.bestStreak >= bestStreak
      && (r.0.bestStreak == prev.bestStreak || r.0.bestStreak == bestStreak)
      && r.0.bestAccuracyPct >= prev.bestAccuracyPct && r.0.bestAccuracyPct >= AccuracyPct(correct, total)
      && (r.0.bestAccuracyPct == prev.bestAccuracyPct || r.0.bestAccuracyPct == AccuracyPct(correct, total))
    ensures writable ==> StatsKey(topic) in r.1 && r.1[StatsKey(topic)] == r.0
    ensures !writable ==> r.1 == rs
    ensures forall key :: key != StatsKey(topic) ==>
      (key in r.1 <==> key in rs) && (key in rs ==> r.1[key] == rs[key])
  {
    var key := StatsKey(topic);
    var prev := if key in rs then rs[key] else NoRecord;
    var next := TopicRecord(
      prev.plays + 1,
      prev.totalQuestions + total,
      prev.totalCorrect + correct,
      Max(prev.bestScore, score),
      Max(prev.bestStreak, bestStreak),
      Max(prev.bestAccuracyPct, AccuracyPct(correct, total)));
    (next, if writable then rs[key := next] else rs)
  }

  /** gameOver: finish the round, fold it into the topic record, and list
      the three hardest words of the topic (`selectedTopic || "All"`). The
      accuracy is taken over the round size, not over the questions asked. */
  function GameOver(env: Env, s: State): (t: State)
    ensures t.phase == Finished && !t.acceptingAnswers && !t.timerPending
    ensures t.summary.Some? && t.summary.value.total == s.roundSize
    ensures t.summary.value.accuracyPct == AccuracyPct(s.correctCount, s.roundSize)
    ensures |t.lastHardWords| <= 3
    ensures var upd := UpdateStatsOnGameOver(s.recordStore, TopicOrAll(s.selectedTopic), s.score,
                                             s.correctCount, s.roundSize, s.bestStreak, env.writable);
      t.recordStore == upd.1 && t.summary.value.best == upd.0
    ensures t.summary.value.score == s.score && t.summary.value.correct == s.correctCount
    ensures t.summary.value.bestStreak == s.bestStreak
    ensures t.lastHardWords == HardestWords(Entries(env), s.wordStore, TopicOrAll(s.selectedTopic), 3)
  {
    var topic := TopicOrAll(s.selectedTopic);
    var upd := UpdateStatsOnGameOver(s.recordStore, topic, s.score, s.correctCount,
                                     s.roundSize, s.bestStreak, env.writable);
    s.(phase := Finished, acceptingAnswers := false, timerPending := false,
       recordStore := upd.1,
       lastHardWords := HardestWords(Entries(env), s.wordStore, topic, 3),
       summary := Some(Summary(s.score, s.correctCount, s.roundSize,
                               AccuracyPct(s.correctCount, s.roundSize), s.bestStreak, upd.0)))
  }

  /** The words of the retry queue, in queue order. */
  function Ens(q: seq<RetryEntry>): (ws: seq<string>)
    ensures |ws| == |q| && forall i :: 0 <= i < |q| ==> ws[i] == q[i].en
  {
    seq(|q|, i requires 0 <= i < |q| => q[i].en)
  }

  /** `retryQueue.findIndex(it => it.en === en)`. */
  function FindRetry(q: seq<RetryEntry>, en: string): (i: int)
    ensures i == -1 <==> en !in Ens(q)
    ensures 0 <= i ==> i < |q| && q[i].en == en && en !in Ens(q)[..i]
  {
    IndexOf(Ens(q), en)
  }

  /** `retryQueue.find(it => it.dueAt <= asked)`, as a position (-1 for none). */
  function FindDue(q: seq<RetryEntry>, asked: int): (i: int)
    ensures -1 <= i < |q|
    ensures i == -1 <==> forall j :: 0 <= j < |q| ==> q[j].dueAt > asked
    ensures 0 <= i ==> q[i].dueAt <= asked && forall j :: 0 <= j < i ==> q[j].dueAt > asked
  {
    if q == [] then -1
    else if q[0].dueAt <= asked then 0
    else
      var j := FindDue(q[1..], asked);
      if j < 0 then -1 else j + 1
  }

  /** `splice(i, 1)`. */
  function RemoveAt<T>(q: seq<T>, i: nat): (r: seq<T>)
    requires i < |q|
    ensures |r| == |q| - 1
    ensures forall k :: 0 <= k < |r| ==> r[k] == if k < i then q[k] else q[k + 1]
  {
    q[..i] + q[i + 1..]
  }

  /** The retry queue after an answer to `en` at question `asked`: a
      correct answer drops the word; a wrong one enqueues a new word, or
      schedules a queued word once more while it has retries left, or drops
      it when they are used up. */
  function RetryAfterAnswer(cfg: Config, q: seq<RetryEntry>, en: string, topic: string,
                            ok: bool, asked: int): seq<RetryEntry>
  {
    var i := FindRetry(q, en);
    if ok then
      if i >= 0 then RemoveAt(q, i) else q
    else if i >= 0 then
      if q[i].attempts < cfg.maxRetries then
        q[i := q[i].(attempts := q[i].attempts + 1, dueAt := asked + cfg.retryAfter)]
      else RemoveAt(q, i)
    else q + [RetryEntry(en, topic, asked + cfg.retryAfter, 1)]
  }

  /** A queue the engine can build: each word at most once, each entry
      retried at least once and at most maxRetries times (once when
      maxRetries is below 1). */
  predicate RetryQueueOk(cfg: Config, q: seq<RetryEntry>)
  {
    NoDup(Ens(q)) && forall i :: 0 <= i < |q| ==> 1 <= q[i].attempts <= Max(1, cfg.maxRetries)
  }

  /** The forced pool of the next question, taken from the state after the
      question counter was raised: the next review word, or the first due
      retry in adaptive mode, or none. */
  function OnlyPool(s: State): Option<seq<string>>
    requires !ReviewExhausted(s)
  {
    if s.review.active then Some([s.review.pool[s.review.index]])
    else if s.adaptiveOn && |s.retryQueue| > 0 then
      var i := FindDue(s.retryQueue, s.questionsAsked);
      if i >= 0 then Some([s.retryQueue[i].en]) else None
    else None
  }

  /** The options startQuestionRound passes to buildQuestion. */
  function OptsFor(env: Env, s: State, only: Option<seq<string>>): QuestionOpts
  {
    QuestionOpts(s.selectedTopic, 4, only, s.adaptiveOn && only.None?, env.cfg.weightFactor)
  }

  /** Shows a built question: the cards are replaced and answers accepted;
      a null question (or one without options) leaves the table, the phase
      and the answer gate as they were. */
  function Show(s: State, q: Option<Question>): State
  {
    if q.None? || |q.value.options| == 0 then s.(currentQ := q)
    else s.(currentQ := q, shownQ := q, phase := AwaitAnswer, acceptingAnswers := true)
  }

  /** Counts the question about to be asked. */
  function Advance(s: State): State
  {
    s.(questionsAsked := s.questionsAsked + 1, round := s.questionsAsked + 1)
  }

  /** Review mode with every review word already asked. */
  predicate ReviewExhausted(s: State)
  {
    s.review.active && s.review.index >= |s.review.pool|
  }

  /** Moves review mode to its next word. */
  function Consume(s: State): State
  {
    if s.review.active then s.(review := s.review.(index := s.review.index + 1)) else s
  }

  /** startQuestionRound for the draws d: without a catalog nothing happens;
      a complete round ends; otherwise the question counter is raised, an
      exhausted review ends the round, and the next question is built with
      the forced pool of review mode or of a due retry. */
  function StartQuestion(env: Env, s: State, d: Draws): State
    requires DrawsFit(d, |Entries(env)|)
  {
    if env.catalog.None? then s
    else if s.questionsAsked >= s.roundSize then GameOver(env, s)
    else
      var s1 := Advance(s);
      if ReviewExhausted(s1) then GameOver(env, s1)
      else
        var s2 := Consume(s1);
        Show(s2, QuestionFor(env.catalog.value, s2.wordStore, OptsFor(env, s2, OnlyPool(s1)), d))
  }

  /** The word a question asks, "" without a current question. */
  function PromptEn(q: Option<Question>): string
  {
    if q.Some? then q.value.prompt.en else ""
  }

  /** `currentQ?.prompt?.topic || selectedTopic || "All"`. */
  function AnswerTopic(q: Option<Question>, selectedTopic: string): (t: string)
    ensures t != ""
  {
    if q.Some? && q.value.prompt.topic != "" then q.value.prompt.topic
    else if selectedTopic != "" then selectedTopic
    else "All"
  }

  /** The score, streak and counters after an answer. */
  function Score(cfg: Config, s: State, ok: bool): State
  {
    if ok then
      s.(score := s.score + Gained(cfg, s.streak), streak := s.streak + 1,
         bestStreak := Max(s.bestStreak, s.streak + 1), correctCount := s.correctCount + 1)
    else s.(streak := 0)
  }

  /** evaluateAnswer for the card at position k of the question on the
      table: ignored unless answers are accepted; otherwise closes the gate,
      scores, and records the answer. Correctness is the card's own flag. */
  function Evaluate(env: Env, s: State, k: nat): State
    requires s.shownQ.Some? && k < |s.shownQ.value.options|
  {
    if !s.acceptingAnswers then s
    else
      var ok := k == s.shownQ.value.correctIndex;
      Record(env, Score(env.cfg, s.(acceptingAnswers := false), ok), ok)
  }

  /** The bookkeeping after scoring: records the word, updates the retry
      queue (adaptive mode outside review), shows the feedback and starts the
      auto-advance timer. The word recorded is that of the question last
      built. */
  function Record(env: Env, s: State, ok: bool): State
  {
    var topic := AnswerTopic(s.currentQ, s.selectedTopic);
    var en := PromptEn(s.currentQ);
    s.(wordStore := UpdateWordStats(s.wordStore, topic, en, ok, env.writable).1,
       retryQueue := RetryStep(env.cfg, s.adaptiveOn && !s.review.active, s.retryQueue,
                               en, topic, ok, s.questionsAsked),
       phase := ShowFeedback,
       timerPending := env.cfg.autoAdvanceMs > 0 || s.timerPending)
  }

  /** The retry queue is maintained in adaptive mode outside review only. */
  function RetryStep(cfg: Config, maintained: bool, q: seq<RetryEntry>, en: string, topic: string,
                     ok: bool, asked: int): seq<RetryEntry>
  {
    if maintained then RetryAfterAnswer(cfg, q, en, topic, ok, asked) else q
  }

  /** The auto-advance callback: ends the round when it is complete,
      otherwise asks the next question. */
  function FireTimer(env: Env, s: State, d: Draws): State
    requires DrawsFit(d, |Entries(env)|)
  {
    var s1 := s.(timerPending := false);
    if s1.questionsAsked >= s1.roundSize then GameOver(env, s1) else StartQuestion(env, s1, d)
  }

  /** The position of the selected topic in the topic list, 0 when it is
      not listed: `Math.max(0, topics.findIndex(t => t === selectedTopic))`. */
  function TopicPos(ts: seq<string>, selected: string): (i: int)
    ensures 0 <= i && (|ts| > 0 ==> i < |ts|)
    ensures selected in ts ==> ts[i] == selected
    ensures selected !in ts ==> i == 0
  {
    Max(0, IndexOf(ts, selected))
  }

  /** The previous topic in the list, cyclically; null without topics. */
  function TopicPrev(env: Env, s: State): State
  {
    var ts := CatalogTopics(env);
    if |ts| == 0 then s.(selectedTopic := "")
    else s.(selectedTopic := ts[(TopicPos(ts, s.selectedTopic) - 1 + |ts|) % |ts|])
  }

  /** The next topic in the list, cyclically; null without topics. */
  function TopicNext(env: Env, s: State): State
  {
    var ts := CatalogTopics(env);
    if |ts| == 0 then s.(selectedTopic := "")
    else s.(selectedTopic := ts[(TopicPos(ts, s.selectedTopic) + 1) % |ts|])
  }

  function RoundMinus(s: State): State
  {
    s.(roundSize := Max(3, s.roundSize - 1))
  }

  function RoundPlus(s: State): State
  {
    s.(roundSize := Min(20, s.roundSize + 1))
  }

  function AdaptiveToggle(s: State): State
  {
    s.(adaptiveOn := !s.adaptiveOn)
  }

  function EndReview(s: State): State
  {
    s.(review := s.review.(active := false))
  }

  /** The start/next button: leaves review mode; from idle or finished
      starts a fresh round; while awaiting an answer does nothing more; on
      the feedback screen cancels the timer and asks the next question. */
  function StartOrNext(env: Env, s: State, d: Draws): State
    requires DrawsFit(d, |Entries(env)|)
  {
    var s0 := EndReview(s);
    match s.phase
    case Idle => StartQuestion(env, ResetRound(s0), d)
    case Finished => StartQuestion(env, ResetRound(s0), d)
    case AwaitAnswer => s0
    case ShowFeedback => StartQuestion(env, s0.(timerPending := false), d)
  }

  function RestartRound(env: Env, s: State, d: Draws): State
    requires DrawsFit(d, |Entries(env)|)
  {
    StartQuestion(env, ResetRound(EndReview(s)), d)
  }

  /** The words a review round asks: the labels of the last hardest words,
      at most reviewMax of them. */
  function ReviewPool(env: Env, s: State): seq<string>
  {
    SliceTo(seq(|s.lastHardWords|, i requires 0 <= i < |s.lastHardWords| => s.lastHardWords[i].en),
            env.cfg.reviewMax)
  }

  /** The review button: a fresh round over the review pool, one question
      per word; nothing happens when the pool is empty. */
  function ReviewOnly(env: Env, s: State, d: Draws): State
    requires DrawsFit(d, |Entries(env)|)
  {
    var pool := ReviewPool(env, s);
    if |pool| == 0 then s
    else StartQuestion(env, ResetRound(s.(review := Review(true, pool, 0))).(roundSize := |pool|), d)
  }

  /** The choose-topic button: back to idle, leaving review mode; the answer
      gate and a pending timer are left as they are. */
  function ChooseTopic(s: State): State
  {
    EndReview(s).(phase := Idle)
  }

  /** progressValue: the share of the round asked so far, clamped to [0, 1]. */
  function ProgressValue(s: State): (v: real)
    ensures 0.0 <= v <= 1.0
    ensures 0 < s.roundSize && s.questionsAsked <= s.roundSize ==>
      v == s.questionsAsked as real / s.roundSize as real
  {
    MinR(1.0, MaxR(0.0, s.questionsAsked as real / Max(1, s.roundSize) as real))
  }
}
