/** Properties of the round state machine: the invariant every handler
    keeps, the one-answer-per-question gate, scoring, the retry queue, review
    mode, topic cycling and the round-size buttons. */
module SessionProps {
  import opened Util
  import opened Data
  import opened Ranking
  import opened Questions
  import opened Session

  // ---------------------------------------------------------------------
  // The invariant

  predicate Counts(s: State)
  {
    s.streak <= s.bestStreak <= s.correctCount <= s.questionsAsked
  }

  /** Everything but the answer gate. */
  predicate Base(env: Env, s: State)
  {
    && 1 <= s.roundSize <= 20
    && |s.lastHardWords| <= 3
    && Counts(s)
    && (s.timerPending ==> !s.acceptingAnswers)
    && RetryQueueOk(env.cfg, s.retryQueue)
    && (s.review.active ==> s.review.index <= |s.review.pool|)
  }

  /** Answers are accepted only for cards on the table, and only after a
      question was counted that has not been answered yet. */
  predicate Gate(env: Env, s: State)
  {
    s.acceptingAnswers ==> s.shownQ.Some? && env.catalog.Some? && s.correctCount < s.questionsAsked
  }

  predicate Inv(env: Env, s: State)
  {
    Base(env, s) && Gate(env, s)
  }

  lemma InitialInv(env: Env, wordStore: Store, recordStore: RecordStore)
    ensures Inv(env, Initial(env, wordStore, recordStore))
  {
  }

  lemma GameOverInv(env: Env, s: State)
    requires Base(env, s)
    ensures Inv(env, GameOver(env, s))
  {
  }

  /** Removing an entry keeps the words distinct. */
  lemma RemoveKeepsNoDup(q: seq<RetryEntry>, i: nat)
    requires NoDup(Ens(q)) && i < |q|
    ensures NoDup(Ens(RemoveAt(q, i)))
  {
    var r := RemoveAt(q, i);
    forall a, b | 0 <= a < b < |r| ensures Ens(r)[a] != Ens(r)[b] {
      var a' := if a < i then a else a + 1;
      var b' := if b < i then b else b + 1;
      assert Ens(r)[a] == Ens(q)[a'] && Ens(r)[b] == Ens(q)[b'];
    }
  }

  /** The retry queue stays well formed under every answer. */
  lemma RetryKeepsOk(cfg: Config, q: seq<RetryEntry>, en: string, topic: string, ok: bool, asked: int)
    requires RetryQueueOk(cfg, q)
    ensures RetryQueueOk(cfg, RetryAfterAnswer(cfg, q, en, topic, ok, asked))
  {
    var i := FindRetry(q, en);
    var r := RetryAfterAnswer(cfg, q, en, topic, ok, asked);
    if i >= 0 && (ok || q[i].attempts >= cfg.maxRetries) {
      RemoveKeepsNoDup(q, i);
    } else if i >= 0 {
      assert Ens(r) == Ens(q);
    } else if !ok {
      assert Ens(r) == Ens(q) + [en];
      forall a, b | 0 <= a < b < |r| ensures Ens(r)[a] != Ens(r)[b] {
        if b == |q| {
          assert Ens(q)[a] in Ens(q);
        }
      }
    }
  }

  /** startQuestionRound establishes the invariant from any state whose
      timer is off and whose gate, if open, admits the counter not yet
      raised. */
  lemma StartQuestionInv(env: Env, s: State, d: Draws)
    requires DrawsFit(d, |Entries(env)|)
    requires Base(env, s) && !s.timerPending
    requires s.acceptingAnswers ==> s.shownQ.Some? && env.catalog.Some? && s.correctCount <= s.questionsAsked
    ensures Inv(env, StartQuestion(env, s, d))
  {
    if env.catalog.Some? && s.questionsAsked < s.roundSize {
      var s1 := Advance(s);
      if ReviewExhausted(s1) {
        GameOverInv(env, s1);
      } else {
        var s2 := Consume(s1);
        var q := QuestionFor(env.catalog.value, s2.wordStore, OptsFor(env, s2, OnlyPool(s1)), d);
        assert Base(env, s2);
        ShowInv(env, s2, q);
      }
    } else if env.catalog.Some? {
      GameOverInv(env, s);
    }
  }

  lemma ShowInv(env: Env, s: State, q: Option<Question>)
    requires Base(env, s) && !s.timerPending && env.catalog.Some?
    requires s.acceptingAnswers ==> s.shownQ.Some?
    requires s.correctCount < s.questionsAsked
    ensures Inv(env, Show(s, q))
  {
  }

  lemma EvaluateInv(env: Env, s: State, k: nat)
    requires s.shownQ.Some? && k < |s.shownQ.value.options|
    requires Inv(env, s)
    ensures Inv(env, Evaluate(env, s, k))
  {
    if s.acceptingAnswers {
      var en := PromptEn(s.currentQ);
      var topic := AnswerTopic(s.currentQ, s.selectedTopic);
      RetryKeepsOk(env.cfg, s.retryQueue, en, topic, k == s.shownQ.value.correctIndex, s.questionsAsked);
    }
  }

  lemma FireTimerInv(env: Env, s: State, d: Draws)
    requires DrawsFit(d, |Entries(env)|)
    requires Inv(env, s) && s.timerPending
    ensures Inv(env, FireTimer(env, s, d))
  {
    var s1 := s.(timerPending := false);
    if s1.questionsAsked >= s1.roundSize {
      GameOverInv(env, s1);
    } else {
      StartQuestionInv(env, s1, d);
    }
  }

  lemma StartOrNextInv(env: Env, s: State, d: Draws)
    requires DrawsFit(d, |Entries(env)|)
    requires Inv(env, s)
    ensures Inv(env, StartOrNext(env, s, d))
  {
    var s0 := EndReview(s);
    match s.phase
    case Idle => StartQuestionInv(env, ResetRound(s0), d);
    case Finished => StartQuestionInv(env, ResetRound(s0), d);
    case AwaitAnswer =>
    case ShowFeedback => StartQuestionInv(env, s0.(timerPending := false), d);
  }

  lemma RestartRoundInv(env: Env, s: State, d: Draws)
    requires DrawsFit(d, |Entries(env)|)
    requires Inv(env, s)
    ensures Inv(env, RestartRound(env, s, d))
  {
    StartQuestionInv(env, ResetRound(EndReview(s)), d);
  }

  /** A review round has one question per review word, at most three. */
  lemma ReviewOnlyInv(env: Env, s: State, d: Draws)
    requires DrawsFit(d, |Entries(env)|)
    requires Inv(env, s)
    ensures Inv(env, ReviewOnly(env, s, d))
  {
    var pool := ReviewPool(env, s);
    if |pool| > 0 {
      var s1 := ResetRound(s.(review := Review(true, pool, 0))).(roundSize := |pool|);
      assert |pool| <= |s.lastHardWords| <= 3;
      assert Base(env, s1);
      StartQuestionInv(env, s1, d);
      assert ReviewOnly(env, s, d) == StartQuestion(env, s1, d);
    }
  }

  /** The topic buttons keep the invariant. */
  lemma TopicStepInv(env: Env, s: State)
    requires Inv(env, s)
    ensures Inv(env, TopicPrev(env, s)) && Inv(env, TopicNext(env, s))
  {
  }

  /** The round-size buttons keep the round size within [1, 20]. */
  lemma RoundSizeInv(env: Env, s: State)
    requires Inv(env, s)
    ensures Inv(env, RoundMinus(s)) && Inv(env, RoundPlus(s))
  {
  }

  /** The adaptive switch keeps the invariant. */
  lemma AdaptiveToggleInv(env: Env, s: State)
    requires Inv(env, s)
    ensures Inv(env, AdaptiveToggle(s))
  {
  }

  /** The choose-topic button keeps the invariant. */
  lemma ChooseTopicInv(env: Env, s: State)
    requires Inv(env, s)
    ensures Inv(env, ChooseTopic(s))
  {
  }

  // ---------------------------------------------------------------------
  // Answers and scoring

  /** The answer gate: a second answer to the same question changes nothing. */
  lemma AtMostOneAnswer(env: Env, s: State, k1: nat, k2: nat)
    requires s.shownQ.Some? && k1 < |s.shownQ.value.options| && k2 < |s.shownQ.value.options|
    ensures var t := Evaluate(env, s, k1);
      t.shownQ == s.shownQ && Evaluate(env, t, k2) == t
  {
  }

  /** What an accepted answer does to the score: a correct answer adds the
      streak-scaled points and extends the streak, a wrong one adds nothing
      and breaks the streak; either way the gate closes and the feedback is
      shown. */
  lemma AnswerScoring(env: Env, s: State, k: nat)
    requires s.shownQ.Some? && k < |s.shownQ.value.options| && s.acceptingAnswers
    ensures var t := Evaluate(env, s, k);
      var ok := k == s.shownQ.value.correctIndex;
      && t.score == s.score + (if ok then Gained(env.cfg, s.streak) else 0)
      && t.streak == (if ok then s.streak + 1 else 0)
      && t.correctCount == s.correctCount + (if ok then 1 else 0)
      && t.bestStreak == Max(s.bestStreak, t.streak)
      && t.questionsAsked == s.questionsAsked
      && t.phase == ShowFeedback && !t.acceptingAnswers
      && (env.cfg.autoAdvanceMs > 0 ==> t.timerPending)
  {
  }

  /** With the shipped configuration the first three correct answers of a
      streak are worth 100, 115 and 130 points. */
  lemma DefaultPoints()
    ensures Gained(Defaults, 0) == 100
    ensures Gained(Defaults, 1) == 115
    ensures Gained(Defaults, 2) == 130
  {
    assert Defaults.correctPoints * (1.0 + 1 as real * Defaults.streakBonus) + 0.5 == 115.5;
    assert Defaults.correctPoints * (1.0 + 2 as real * Defaults.streakBonus) + 0.5 == 130.5;
  }

  /** With non-negative points and bonus a longer streak never earns less,
      and no answer earns less than zero. */
  lemma GainedGrows(cfg: Config, a: nat, b: nat)
    requires cfg.correctPoints >= 0.0 && cfg.streakBonus >= 0.0 && a <= b
    ensures 0 <= Gained(cfg, a) <= Gained(cfg, b)
  {
    var x := cfg.correctPoints * (1.0 + a as real * cfg.streakBonus);
    var y := cfg.correctPoints * (1.0 + b as real * cfg.streakBonus);
    assert a as real * cfg.streakBonus <= b as real * cfg.streakBonus;
    assert 0.0 <= x <= y;
    assert (x + 0.5).Floor <= (y + 0.5).Floor;
  }

  /** The answer is recorded under the prompt's own topic, the key the
      next prompt draw reads: after a wrong answer the word is at least as
      difficult (and so at least as likely to be drawn) as before, after a
      correct one at most as difficult. */
  lemma AnswerFeedsNextDraw(env: Env, s: State, k: nat)
    requires s.shownQ.Some? && k < |s.shownQ.value.options| && s.acceptingAnswers
    requires s.currentQ.Some? && s.currentQ.value.prompt.topic != "" && env.writable
    ensures var e := s.currentQ.value.prompt;
      var t := Evaluate(env, s, k);
      var ok := k == s.shownQ.value.correctIndex;
      && GetWordStats(t.wordStore, e.topic, e.en) == NextWordStats(GetWordStats(s.wordStore, e.topic, e.en), ok)
      && (!ok ==> DifficultyFor(t.wordStore, e.topic, e.en) >= DifficultyFor(s.wordStore, e.topic, e.en))
      && (ok ==> DifficultyFor(t.wordStore, e.topic, e.en) <= DifficultyFor(s.wordStore, e.topic, e.en))
  {
    var e := s.currentQ.value.prompt;
    AnswerMovesDifficulty(GetWordStats(s.wordStore, e.topic, e.en));
  }

  // ---------------------------------------------------------------------
  // The retry queue

  /** What an answer does to the retry queue, word by word: a correct answer
      removes the word; a wrong answer to a word not queued queues it for
      `retryAfter` questions later; a wrong answer to a queued word
      reschedules it while it has retries left and removes it otherwise.
      Entries of other words stay as they were. */
  lemma RetryOutcome(cfg: Config, q: seq<RetryEntry>, en: string, topic: string, ok: bool, asked: int)
    requires RetryQueueOk(cfg, q)
    ensures var r := RetryAfterAnswer(cfg, q, en, topic, ok, asked);
      && (ok ==> en !in Ens(r))
      && (!ok && en !in Ens(q) ==> r[|r| - 1] == RetryEntry(en, topic, asked + cfg.retryAfter, 1))
      && (!ok && en in Ens(q) ==>
            var i := FindRetry(q, en);
            && (en in Ens(r) <==> q[i].attempts < cfg.maxRetries)
            && (en in Ens(r) ==> r[i] == q[i].(attempts := q[i].attempts + 1, dueAt := asked + cfg.retryAfter)))
      && (forall e: RetryEntry :: e.en != en ==> (e in r <==> e in q))
  {
    var i := FindRetry(q, en);
    var r := RetryAfterAnswer(cfg, q, en, topic, ok, asked);
    RetryKeepsOthersInOrder(cfg, q, en, topic, ok, asked);
    forall e: RetryEntry | e.en != en ensures e in r <==> e in q {
      InOthers(r, en, e);
      InOthers(q, en, e);
    }
    if i >= 0 && (ok || q[i].attempts >= cfg.maxRetries) {
      RemoveDropsWord(q, i, en);
    } else if i >= 0 {
      assert Ens(r) == Ens(q);
    }
  }

  /** Splicing out the entry of a word from a queue without repeated words
      leaves no entry of it. */
  lemma RemoveDropsWord(q: seq<RetryEntry>, i: nat, en: string)
    requires NoDup(Ens(q)) && i < |q| && q[i].en == en
    ensures en !in Ens(RemoveAt(q, i))
  {
    var r := RemoveAt(q, i);
    forall k | 0 <= k < |r| ensures Ens(r)[k] != en {
      var k' := if k < i then k else k + 1;
      assert r[k] == q[k'];
      assert k' != i;
    }
  }

  /** The entries of the queue that belong to words other than `en`, in
      queue order. */
  function Others(q: seq<RetryEntry>, en: string): seq<RetryEntry>
  {
    if q == [] then [] else (if q[0].en == en then [] else [q[0]]) + Others(q[1..], en)
  }

  lemma {:induction false} OthersAppend(a: seq<RetryEntry>, b: seq<RetryEntry>, en: string)
    ensures Others(a + b, en) == Others(a, en) + Others(b, en)
    decreases |a|
  {
    if a == [] {
      assert a + b == b;
    } else {
      assert (a + b)[0] == a[0] && (a + b)[1..] == a[1..] + b;
      OthersAppend(a[1..], b, en);
    }
  }

  /** An entry of another word is in the queue exactly when it is among
      the other words' entries. */
  lemma {:induction false} InOthers(q: seq<RetryEntry>, en: string, e: RetryEntry)
    requires e.en != en
    ensures e in Others(q, en) <==> e in q
    decreases |q|
  {
    if q != [] {
      InOthers(q[1..], en, e);
      assert e in q <==> e == q[0] || e in q[1..];
    }
  }

  /** Splicing out an entry of `en` keeps the other words' entries in order. */
  lemma OthersRemove(q: seq<RetryEntry>, i: nat, en: string)
    requires i < |q| && q[i].en == en
    ensures Others(RemoveAt(q, i), en) == Others(q, en)
  {
    assert q == q[..i] + ([q[i]] + q[i + 1..]);
    OthersAppend(q[..i], [q[i]] + q[i + 1..], en);
    OthersAppend([q[i]], q[i + 1..], en);
    OthersAppend(q[..i], q[i + 1..], en);
  }

  /** Rescheduling an entry of `en` keeps the other words' entries in order. */
  lemma OthersUpdate(q: seq<RetryEntry>, i: nat, x: RetryEntry, en: string)
    requires i < |q| && q[i].en == en && x.en == en
    ensures Others(q[i := x], en) == Others(q, en)
  {
    assert q == q[..i] + ([q[i]] + q[i + 1..]);
    OthersAppend(q[..i], [q[i]] + q[i + 1..], en);
    OthersAppend([q[i]], q[i + 1..], en);
    assert q[i := x] == q[..i] + ([x] + q[i + 1..]);
    OthersAppend(q[..i], [x] + q[i + 1..], en);
    OthersAppend([x], q[i + 1..], en);
  }

  /** An answer to `en` leaves the entries of every other word in place and
      in the same order, so which of them is due first does not change. */
  lemma RetryKeepsOthersInOrder(cfg: Config, q: seq<RetryEntry>, en: string, topic: string, ok: bool, asked: int)
    ensures Others(RetryAfterAnswer(cfg, q, en, topic, ok, asked), en) == Others(q, en)
  {
    var i := FindRetry(q, en);
    if i >= 0 {
      OthersRemove(q, i, en);
      OthersUpdate(q, i, q[i].(attempts := q[i].attempts + 1, dueAt := asked + cfg.retryAfter), en);
    } else if !ok {
      OthersAppend(q, [RetryEntry(en, topic, asked + cfg.retryAfter, 1)], en);
    }
  }

  /** The retry schedule of the shipped configuration: a word first missed
      at question 5 is queued, due at question 8; missed again there it is
      due at 11 with its second attempt; missed a third time it leaves the
      queue. */
  lemma DefaultRetrySchedule(en: string, topic: string)
    ensures var q1 := RetryAfterAnswer(Defaults, [], en, topic, false, 5);
      var q2 := RetryAfterAnswer(Defaults, q1, en, topic, false, 8);
      var q3 := RetryAfterAnswer(Defaults, q2, en, topic, false, 11);
      && q1 == [RetryEntry(en, topic, 8, 1)]
      && FindDue(q1, 7) == -1 && FindDue(q1, 8) == 0
      && q2 == [RetryEntry(en, topic, 11, 2)]
      && q3 == []
  {
    var q1 := [RetryEntry(en, topic, 8, 1)];
    assert Ens(q1) == [en];
    var q2 := [RetryEntry(en, topic, 11, 2)];
    assert Ens(q2) == [en];
  }

  // ---------------------------------------------------------------------
  // Starting questions

  /** What startQuestionRound does with a catalog: a complete round ends
      without counting; otherwise the counter rises by one, and the
      question is either on the table with the gate open, or null, leaving
      the cards, the phase and the gate as they were. */
  lemma StartQuestionOutcome(env: Env, s: State, d: Draws)
    requires DrawsFit(d, |Entries(env)|) && env.catalog.Some?
    ensures var t := StartQuestion(env, s, d);
      && (s.questionsAsked >= s.roundSize ==> t.phase == Finished && t.questionsAsked == s.questionsAsked)
      && (s.questionsAsked < s.roundSize ==> t.questionsAsked == s.questionsAsked + 1 && t.round == t.questionsAsked)
      && (s.questionsAsked < s.roundSize && ReviewExhausted(s) ==> t.phase == Finished)
      && (s.questionsAsked < s.roundSize && !ReviewExhausted(s) ==>
            || (t.currentQ.Some? && t.shownQ == t.currentQ && t.phase == AwaitAnswer && t.acceptingAnswers)
            || (t.currentQ.None? && t.shownQ == s.shownQ && t.phase == s.phase
                && t.acceptingAnswers == s.acceptingAnswers))
  {
    if s.questionsAsked < s.roundSize && !ReviewExhausted(s) {
      var s1 := Advance(s);
      var s2 := Consume(s1);
      var es := env.catalog.value;
      var opts := OptsFor(env, s2, OnlyPool(s1));
      var q := QuestionFor(es, s2.wordStore, opts, d);
      if |CandidatePool(es, opts)| > 0 {
        QuestionWellFormed(es, s2.wordStore, opts, d);
      }
      ShowOutcome(s2, q);
    }
  }

  lemma ShowOutcome(s: State, q: Option<Question>)
    requires q.Some? ==> |q.value.options| > 0
    ensures var t := Show(s, q);
      && t.questionsAsked == s.questionsAsked && t.round == s.round && t.review == s.review
      && t.currentQ == q
      && (|| (t.currentQ.Some? && t.shownQ == t.currentQ && t.phase == AwaitAnswer && t.acceptingAnswers)
          || (t.currentQ.None? && t.shownQ == s.shownQ && t.phase == s.phase
              && t.acceptingAnswers == s.acceptingAnswers))
  {
  }

  /** Review mode asks its words in order: each question is built for the
      next review word alone (its prompt is that word, up to letter case),
      and the review position moves on by one. */
  lemma ReviewAsksInOrder(env: Env, s: State, d: Draws)
    requires DrawsFit(d, |Entries(env)|) && env.catalog.Some?
    requires s.review.active && s.review.index < |s.review.pool| && s.questionsAsked < s.roundSize
    ensures var t := StartQuestion(env, s, d);
      && t.review == s.review.(index := s.review.index + 1)
      && (t.currentQ.Some? ==> ToLower(t.currentQ.value.prompt.en) == ToLower(s.review.pool[s.review.index]))
  {
    var w := s.review.pool[s.review.index];
    assert OnlyPool(Advance(s)) == Some([w]);
    ForcedWordIsAsked(env, s, d, w);
  }

  /** In adaptive mode outside review, the first due retry is asked again:
      the question is built for that word alone. */
  lemma DueRetryIsAsked(env: Env, s: State, d: Draws)
    requires DrawsFit(d, |Entries(env)|) && env.catalog.Some?
    requires !s.review.active && s.adaptiveOn && s.questionsAsked < s.roundSize
    requires FindDue(s.retryQueue, s.questionsAsked + 1) >= 0
    ensures var t := StartQuestion(env, s, d);
      var due := s.retryQueue[FindDue(s.retryQueue, s.questionsAsked + 1)];
      t.currentQ.Some? ==> ToLower(t.currentQ.value.prompt.en) == ToLower(due.en)
  {
    var due := s.retryQueue[FindDue(s.retryQueue, s.questionsAsked + 1)];
    assert OnlyPool(Advance(s)) == Some([due.en]);
    ForcedWordIsAsked(env, s, d, due.en);
  }

  /** Outside review mode, with adaptive mode off or no retry entry due
      yet, no word is forced: a missed word is not asked again before its
      `dueAt`, and the question is drawn from the whole topic, adaptively
      exactly when adaptive mode is on. */
  lemma NothingDueForcesNothing(env: Env, s: State, d: Draws)
    requires DrawsFit(d, |Entries(env)|) && env.catalog.Some? && s.questionsAsked < s.roundSize
    requires !s.review.active && (!s.adaptiveOn || FindDue(s.retryQueue, s.questionsAsked + 1) < 0)
    ensures OnlyPool(Advance(s)) == None
    ensures StartQuestion(env, s, d).currentQ
      == QuestionFor(env.catalog.value, s.wordStore,
                     QuestionOpts(s.selectedTopic, 4, None, s.adaptiveOn, env.cfg.weightFactor), d)
  {
    var s1 := Advance(s);
    assert OnlyPool(s1) == None;
    assert Consume(s1) == s1;
    var q := QuestionFor(env.catalog.value, s1.wordStore, OptsFor(env, s1, None), d);
    assert Show(s1, q).currentQ == q;
  }

  /** A question started with a forced pool of one word asks that word, and
      review mode moves on by one. */
  lemma ForcedWordIsAsked(env: Env, s: State, d: Draws, w: string)
    requires DrawsFit(d, |Entries(env)|) && env.catalog.Some? && s.questionsAsked < s.roundSize
    requires !ReviewExhausted(Advance(s)) && OnlyPool(Advance(s)) == Some([w])
    ensures var t := StartQuestion(env, s, d);
      && t.review == Consume(s).review
      && (t.currentQ.Some? ==> ToLower(t.currentQ.value.prompt.en) == ToLower(w))
  {
    var s2 := Consume(Advance(s));
    var opts := OptsFor(env, s2, Some([w]));
    var q := QuestionFor(env.catalog.value, s2.wordStore, opts, d);
    assert StartQuestion(env, s, d) == Show(s2, q);
    assert Show(s2, q).currentQ == q && Show(s2, q).review == s2.review;
    SingleWordForcesPrompt(env.catalog.value, s2.wordStore, opts, d, w);
  }

  /** The start/next button while a question awaits its answer only leaves
      review mode. */
  lemma StartOrNextWhileAwaiting(env: Env, s: State, d: Draws)
    requires DrawsFit(d, |Entries(env)|) && s.phase == AwaitAnswer
    ensures StartOrNext(env, s, d) == s.(review := s.review.(active := false))
  {
  }

  /** What asking the next question leaves alone: review mode, the score,
      the streak, the correct count and the retry queue; a timer that was
      off stays off; with a catalog and a round not yet complete, the
      counter rises by one. */
  lemma StartQuestionKeeps(env: Env, s: State, d: Draws)
    requires DrawsFit(d, |Entries(env)|)
    ensures var t := StartQuestion(env, s, d);
      && t.review.active == s.review.active
      && (!s.timerPending ==> !t.timerPending)
      && t.score == s.score && t.streak == s.streak && t.correctCount == s.correctCount
      && t.retryQueue == s.retryQueue
      && (env.catalog.Some? && s.questionsAsked < s.roundSize ==> t.questionsAsked == s.questionsAsked + 1)
  {
    if env.catalog.Some? {
      if s.questionsAsked >= s.roundSize {
        RoundFieldsAfterGameOver(env, s);
      } else {
        var s1 := Advance(s);
        if ReviewExhausted(s1) {
          RoundFieldsAfterGameOver(env, s1);
        } else {
          var s2 := Consume(s1);
          RoundFieldsAfterShow(s2, QuestionFor(env.catalog.value, s2.wordStore, OptsFor(env, s2, OnlyPool(s1)), d));
        }
      }
    }
  }

  /** gameOver leaves the round's counters, the queue and review mode alone. */
  lemma RoundFieldsAfterGameOver(env: Env, s: State)
    ensures var t := GameOver(env, s);
      && t.review == s.review && t.score == s.score && t.streak == s.streak
      && t.correctCount == s.correctCount && t.retryQueue == s.retryQueue
      && t.questionsAsked == s.questionsAsked && !t.timerPending
  {
  }

  /** Showing a question leaves the round's counters, the queue, review mode
      and the timer alone. */
  lemma RoundFieldsAfterShow(s: State, q: Option<Question>)
    ensures var t := Show(s, q);
      && t.review == s.review && t.score == s.score && t.streak == s.streak
      && t.correctCount == s.correctCount && t.retryQueue == s.retryQueue
      && t.questionsAsked == s.questionsAsked && t.timerPending == s.timerPending
  {
  }

  /** The start/next button in every phase: review mode is always left.
      From idle or finished a fresh round starts with score, streak, correct
      count and retry queue cleared and the timer off, and its first
      question is counted. From the feedback screen the timer is cancelled
      and the same round goes on with the next question. */
  lemma StartOrNextOutcome(env: Env, s: State, d: Draws)
    requires DrawsFit(d, |Entries(env)|)
    ensures var t := StartOrNext(env, s, d);
      && !t.review.active
      && (s.phase != AwaitAnswer ==> !t.timerPending)
      && ((s.phase == Idle || s.phase == Finished) ==>
            && t.score == 0 && t.streak == 0 && t.correctCount == 0 && t.retryQueue == []
            && (env.catalog.Some? && 0 < s.roundSize ==> t.questionsAsked == 1))
      && (s.phase == ShowFeedback ==>
            && t.score == s.score && t.streak == s.streak && t.correctCount == s.correctCount
            && t.retryQueue == s.retryQueue
            && (env.catalog.Some? && s.questionsAsked < s.roundSize ==> t.questionsAsked == s.questionsAsked + 1))
  {
    var s0 := s.(review := s.review.(active := false));
    match s.phase
    case Idle => StartQuestionKeeps(env, ResetRound(s0), d);
    case Finished => StartQuestionKeeps(env, ResetRound(s0), d);
    case AwaitAnswer =>
    case ShowFeedback => StartQuestionKeeps(env, s0.(timerPending := false), d);
  }

  /** The auto-advance callback clears only the timer: unlike the
      start/next button it leaves review mode as it is. It ends a complete
      round without counting, and otherwise counts the next question. */
  lemma FireTimerOutcome(env: Env, s: State, d: Draws)
    requires DrawsFit(d, |Entries(env)|)
    ensures var t := FireTimer(env, s, d);
      && t.review.active == s.review.active
      && !t.timerPending
      && (s.questionsAsked >= s.roundSize ==> t.phase == Finished && t.questionsAsked == s.questionsAsked)
      && (env.catalog.Some? && s.questionsAsked < s.roundSize ==> t.questionsAsked == s.questionsAsked + 1)
      && t.score == s.score && t.correctCount == s.correctCount
  {
    var s1 := s.(timerPending := false);
    if s1.questionsAsked < s1.roundSize {
      StartQuestionKeeps(env, s1, d);
    }
  }

  // ---------------------------------------------------------------------
  // Round end

  /** The round summary: accuracy over the round size (0 for a round size
      below 1, and within [0, 100] only while the correct answers do not
      outnumber the round size), and the topic record, which is written back
      under the topic's stats key when storage accepts writes and never
      falls below this round. */
  lemma GameOverRecordsRound(env: Env, s: State)
    ensures var t := GameOver(env, s);
      var acc := t.summary.value.accuracyPct;
      && t.summary.value.score == s.score && t.summary.value.correct == s.correctCount
      && acc == AccuracyPct(s.correctCount, s.roundSize)
      && (s.roundSize <= 0 ==> acc == 0)
      && (0 < s.roundSize && s.correctCount <= s.roundSize ==> 0 <= acc <= 100)
      && (env.writable ==> t.recordStore[StatsKey(s.selectedTopic)] == t.summary.value.best)
      && t.summary.value.best.bestScore >= s.score
      && t.summary.value.best.bestStreak >= s.bestStreak
      && t.summary.value.best.bestAccuracyPct >= acc
    ensures var t := GameOver(env, s);
      var key := StatsKey(s.selectedTopic);
      var prev := if key in s.recordStore then s.recordStore[key] else NoRecord;
      var best := t.summary.value.best;
      && best.plays == prev.plays + 1
      && best.totalQuestions == prev.totalQuestions + s.roundSize
      && best.totalCorrect == prev.totalCorrect + s.correctCount
      && best.bestScore == Max(prev.bestScore, s.score)
      && best.bestStreak == Max(prev.bestStreak, s.bestStreak)
      && best.bestAccuracyPct == Max(prev.bestAccuracyPct, t.summary.value.accuracyPct)
      && (!env.writable ==> t.recordStore == s.recordStore)
      && (forall k :: k != key ==>
            (k in t.recordStore <==> k in s.recordStore) && (k in s.recordStore ==> t.recordStore[k] == s.recordStore[k]))
      && t.lastHardWords == HardestWords(Entries(env), s.wordStore, TopicOrAll(s.selectedTopic), 3)
  {
    assert StatsKey(TopicOrAll(s.selectedTopic)) == StatsKey(s.selectedTopic);
  }

  /** roundMinus has no phase guard, so the round size can drop below the
      number of correct answers in the middle of a round. Five correct
      answers in a round of 10, then seven presses of minus (down to 3), and
      the auto-advance ends the round with an accuracy of 167, which the
      max-merge keeps as the topic's best accuracy. */
  lemma ShrunkRoundOverflowsAccuracy(env: Env, s: State, d: Draws)
    requires DrawsFit(d, |Entries(env)|) && Inv(env, s)
    requires s.roundSize == 10 && s.questionsAsked == 5 && s.correctCount == 5 && s.timerPending
    ensures var s7 := RoundMinus(RoundMinus(RoundMinus(RoundMinus(RoundMinus(RoundMinus(RoundMinus(s)))))));
      var t := FireTimer(env, s7, d);
      && Inv(env, s7) && s7.roundSize == 3
      && t.phase == Finished
      && t.summary.value.accuracyPct == 167
      && t.summary.value.best.bestAccuracyPct >= 167
  {
    var x := 5 as real / 3 as real * 100.0;
    assert 166.0 < x < 167.0;
    assert AccuracyPct(5, 3) == RoundHalfUp(x);
  }

  // ---------------------------------------------------------------------
  // Topic and round-size buttons

  /** `x % n` for x in [0, 2n). */
  lemma ModOnce(x: int, n: int)
    requires 0 < n && 0 <= x < 2 * n
    ensures x % n == if x < n then x else x - n
  {
  }

  lemma StepArithmetic(i: int, n: int)
    requires 0 <= i < n
    ensures ((i + 1) % n - 1 + n) % n == i
    ensures ((i - 1 + n) % n + 1) % n == i
  {
    ModOnce(i + 1, n);
    ModOnce(i - 1 + n, n);
    if i + 1 == n {
      ModOnce(n - 1, n);
    } else {
      ModOnce(i + n, n);
    }
    if i == 0 {
      ModOnce(n, n);
    } else {
      ModOnce(i, n);
    }
  }

  /** Stepping to the next topic and back (or back and forward) returns to
      the selected topic, and every step lands on a listed topic. */
  lemma TopicStepsInvert(env: Env, s: State)
    requires s.selectedTopic in CatalogTopics(env)
    ensures TopicNext(env, s).selectedTopic in CatalogTopics(env)
    ensures TopicPrev(env, s).selectedTopic in CatalogTopics(env)
    ensures TopicPrev(env, TopicNext(env, s)).selectedTopic == s.selectedTopic
    ensures TopicNext(env, TopicPrev(env, s)).selectedTopic == s.selectedTopic
  {
    var ts := CatalogTopics(env);
    var n := |ts|;
    var i := IndexOf(ts, s.selectedTopic);
    assert TopicPos(ts, s.selectedTopic) == i;
    StepArithmetic(i, n);
    ModOnce(i + 1, n);
    ModOnce(i - 1 + n, n);
    var nx := (i + 1) % n;
    var pv := (i - 1 + n) % n;
    NextThenPrev(env, s, ts, i, nx);
    PrevThenNext(env, s, ts, i, pv);
  }

  lemma NextThenPrev(env: Env, s: State, ts: seq<string>, i: nat, nx: nat)
    requires ts == CatalogTopics(env) && i < |ts| && ts[i] == s.selectedTopic
    requires TopicPos(ts, s.selectedTopic) == i && nx == (i + 1) % |ts| && nx < |ts|
    requires (nx - 1 + |ts|) % |ts| == i
    ensures TopicNext(env, s).selectedTopic == ts[nx]
    ensures TopicPrev(env, TopicNext(env, s)).selectedTopic == s.selectedTopic
  {
    var t := TopicNext(env, s);
    assert t.selectedTopic == ts[nx];
    IndexOfNoDup(ts, nx);
    assert TopicPos(ts, t.selectedTopic) == nx;
  }

  lemma PrevThenNext(env: Env, s: State, ts: seq<string>, i: nat, pv: nat)
    requires ts == CatalogTopics(env) && i < |ts| && ts[i] == s.selectedTopic
    requires TopicPos(ts, s.selectedTopic) == i && pv == (i - 1 + |ts|) % |ts| && pv < |ts|
    requires (pv + 1) % |ts| == i
    ensures TopicPrev(env, s).selectedTopic == ts[pv]
    ensures TopicNext(env, TopicPrev(env, s)).selectedTopic == s.selectedTopic
  {
    var t := TopicPrev(env, s);
    assert t.selectedTopic == ts[pv];
    IndexOfNoDup(ts, pv);
    assert TopicPos(ts, t.selectedTopic) == pv;
  }

  /** Without topics the selection is null. */
  lemma NoTopicsNoSelection(env: Env, s: State)
    requires Entries(env) == []
    ensures TopicNext(env, s).selectedTopic == "" && TopicPrev(env, s).selectedTopic == ""
  {
  }

  /** The round-size buttons undo each other inside [3, 20]. */
  lemma RoundSizeStepsInvert(s: State)
    ensures 4 <= s.roundSize <= 20 ==> RoundPlus(RoundMinus(s)).roundSize == s.roundSize
    ensures 3 <= s.roundSize <= 19 ==> RoundMinus(RoundPlus(s)).roundSize == s.roundSize
    ensures 3 <= RoundMinus(s).roundSize && RoundPlus(s).roundSize <= 20
  {
  }
}
