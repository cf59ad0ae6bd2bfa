/** The module-level state of main.js as one object whose handlers update
    its fields in place. Each handler is proved to perform exactly the
    transition of the same name in Session, and to keep the invariant
    SessionProps.Inv. */
module Engine {
  import opened Util
  import opened Data
  import opened Ranking
  import opened Questions
  import opened Session
  import opened SessionProps

  /** The `gameState` record of main.js. */
  datatype GameRecord = GameRecord(
    score: int,
    streak: nat,
    bestStreak: nat,
    round: nat,
    selectedTopic: string,
    roundSize: int,
    questionsAsked: nat,
    correctCount: nat,
    phase: Phase)

  class Game {
    // What loading and the configuration fixed.
    const catalog: Option<seq<Entry>>
    const cfg: Config
    const storageWritable: bool

    var gameState: GameRecord

    // The answer gate and the auto-advance timer.
    var acceptingAnswers: bool
    var timerPending: bool

    // Adaptive mode.
    var adaptiveOn: bool
    var retryQueue: seq<RetryEntry>
    var reviewMode: Review
    var lastHardWords: seq<HardWord>

    // The question last built and the question whose cards are shown.
    var currentQ: Option<Question>
    var shownQ: Option<Question>

    // The key-value store and the last round summary.
    var wordStore: Store
    var recordStore: RecordStore
    var summary: Option<Summary>

    function Environment(): Env
    {
      Env(catalog, cfg, storageWritable)
    }

    /** The fields as a value of Session.State. */
    function Snapshot(): State
      reads this
    {
      var g := gameState;
      State(g.score, g.streak, g.bestStreak, g.round, g.selectedTopic, g.roundSize,
        g.questionsAsked, g.correctCount, g.phase, acceptingAnswers, timerPending, adaptiveOn,
        retryQueue, reviewMode, lastHardWords, currentQ, shownQ, wordStore, recordStore, summary)
    }

    predicate Valid()
      reads this
    {
      Inv(Environment(), Snapshot())
    }

    /** init, after the catalog was loaded (or failed to load). */
    constructor (catalog: Option<seq<Entry>>, cfg: Config, writable: bool,
                 wordStore: Store, recordStore: RecordStore)
      ensures Snapshot() == Initial(Environment(), wordStore, recordStore)
      ensures Environment() == Env(catalog, cfg, writable)
      ensures Valid()
    {
      this.catalog := catalog;
      this.cfg := cfg;
      this.storageWritable := writable;
      var topics := Topics(if catalog.Some? then catalog.value else []);
      gameState := GameRecord(0, 0, 0, 0, if |topics| > 0 then topics[0] else "", 10, 0, 0, Idle);
      acceptingAnswers, timerPending := false, false;
      adaptiveOn := cfg.adaptiveEnabled;
      retryQueue := [];
      reviewMode := Review(false, [], 0);
      lastHardWords := [];
      currentQ, shownQ := None, None;
      this.wordStore := wordStore;
      this.recordStore := recordStore;
      summary := None;
      new;
      InitialInv(Environment(), wordStore, recordStore);
    }

    /** resetRoundState. */
    method ResetRoundState()
      modifies this
      ensures Snapshot() == ResetRound(old(Snapshot()))
    {
      gameState := gameState.(score := 0, streak := 0, bestStreak := 0, questionsAsked := 0,
                              correctCount := 0, round := 0, phase := Idle);
      retryQueue := [];
      timerPending := false;
    }

    /** gameOver: the summary and the topic record are computed from the
        round before the hardest words are listed. */
    method GameOver()
      modifies this
      ensures Snapshot() == Session.GameOver(Environment(), old(Snapshot()))
    {
      var g := gameState;
      var topic := TopicOrAll(g.selectedTopic);
      var upd := UpdateStatsOnGameOver(recordStore, topic, g.score, g.correctCount,
                                       g.roundSize, g.bestStreak, storageWritable);
      var hard := HardestWords(Entries(Environment()), wordStore, topic, 3);
      var sum := Summary(g.score, g.correctCount, g.roundSize,
                         AccuracyPct(g.correctCount, g.roundSize), g.bestStreak, upd.0);
      Finish(upd.1, hard, sum);
    }

    /** The state changes of gameOver: the round is finished, the gate
        closed, the timer cancelled, and the record, the hardest words and
        the summary stored. */
    method Finish(records: RecordStore, hard: seq<HardWord>, sum: Summary)
      modifies this
      ensures Snapshot() == old(Snapshot()).(phase := Finished, acceptingAnswers := false,
        timerPending := false, recordStore := records, lastHardWords := hard, summary := Some(sum))
    {
      gameState := gameState.(phase := Finished);
      acceptingAnswers := false;
      timerPending := false;
      recordStore := records;
      lastHardWords := hard;
      summary := Some(sum);
    }

    /** startQuestionRound for the draws d. */
    method StartQuestionRound(d: Draws)
      requires DrawsFit(d, |Entries(Environment())|)
      modifies this
      ensures Snapshot() == StartQuestion(Environment(), old(Snapshot()), d)
    {
      if catalog.None? {
        return;
      }
      if gameState.questionsAsked >= gameState.roundSize {
        GameOver();
        return;
      }
      CountQuestion();
      if reviewMode.active && reviewMode.index >= |reviewMode.pool| {
        GameOver();
        return;
      }
      ghost var s1 := Snapshot();
      var onlyPool := ForcedPool();
      ghost var s2 := Snapshot();
      var opts := QuestionOpts(gameState.selectedTopic, 4, onlyPool, adaptiveOn && onlyPool.None?,
                               cfg.weightFactor);
      assert opts == OptsFor(Environment(), s2, OnlyPool(s1));
      var q := BuildQuestion(catalog.value, wordStore, opts, d);
      ShowQuestion(q);
    }

    /** Counts the question about to be asked. */
    method CountQuestion()
      modifies this
      ensures Snapshot() == Advance(old(Snapshot()))
    {
      gameState := gameState.(questionsAsked := gameState.questionsAsked + 1);
      gameState := gameState.(round := gameState.questionsAsked);
    }

    /** The forced pool of the next question: the next review word (review
        mode moves on), or the first due retry in adaptive mode. */
    method ForcedPool() returns (onlyPool: Option<seq<string>>)
      requires !ReviewExhausted(Snapshot())
      modifies this
      ensures onlyPool == OnlyPool(old(Snapshot()))
      ensures Snapshot() == Consume(old(Snapshot()))
    {
      onlyPool := None;
      if reviewMode.active {
        onlyPool := Some([reviewMode.pool[reviewMode.index]]);
        reviewMode := reviewMode.(index := reviewMode.index + 1);
      } else if adaptiveOn && |retryQueue| > 0 {
        var due := FindDue(retryQueue, gameState.questionsAsked);
        if due >= 0 {
          onlyPool := Some([retryQueue[due].en]);
        }
      }
    }

    /** The end of startQuestionRound: the question just built becomes the
        current one and, when it has options, its cards go on the table and
        answers are accepted. */
    method ShowQuestion(q: Option<Question>)
      modifies this
      ensures Snapshot() == Show(old(Snapshot()), q)
    {
      currentQ := q;
      if q.None? || |q.value.options| == 0 {
        return;
      }
      shownQ := q;
      gameState := gameState.(phase := AwaitAnswer);
      acceptingAnswers := true;
    }

    /** evaluateAnswer for the card at position k. */
    method EvaluateAnswer(k: nat)
      requires Valid() && shownQ.Some? && k < |shownQ.value.options|
      modifies this
      ensures Snapshot() == Evaluate(Environment(), old(Snapshot()), k)
      ensures Valid()
    {
      EvaluateInv(Environment(), Snapshot(), k);
      if !acceptingAnswers {
        return;
      }
      acceptingAnswers := false;
      var ok := k == shownQ.value.correctIndex;
      ScoreAnswer(ok);
      RecordAnswer(ok);
    }

    /** The scoring step of evaluateAnswer. */
    method ScoreAnswer(ok: bool)
      modifies this
      ensures Snapshot() == Score(cfg, old(Snapshot()), ok)
    {
      var g := gameState;
      if ok {
        gameState := g.(score := g.score + Gained(cfg, g.streak), streak := g.streak + 1,
                        bestStreak := Max(g.bestStreak, g.streak + 1),
                        correctCount := g.correctCount + 1);
      } else {
        gameState := g.(streak := 0);
      }
    }

    /** The bookkeeping step of evaluateAnswer. */
    method RecordAnswer(ok: bool)
      modifies this
      ensures Snapshot() == Record(Environment(), old(Snapshot()), ok)
    {
      var topic := AnswerTopic(currentQ, gameState.selectedTopic);
      var enPrompt := PromptEn(currentQ);
      ghost var s0 := Snapshot();
      StoreWordStats(topic, enPrompt, ok);
      if adaptiveOn && !reviewMode.active {
        UpdateRetryQueue(enPrompt, topic, ok);
      }
      assert retryQueue == RetryStep(cfg, s0.adaptiveOn && !s0.review.active, s0.retryQueue,
                                     enPrompt, topic, ok, s0.questionsAsked);
      ShowFeedback();
    }

    /** `updateWordStats(topic, enPrompt, ok)` against the key-value store. */
    method StoreWordStats(topic: string, enPrompt: string, ok: bool)
      modifies this
      ensures Snapshot() == old(Snapshot()).(
        wordStore := UpdateWordStats(old(wordStore), topic, enPrompt, ok, storageWritable).1)
    {
      wordStore := UpdateWordStats(wordStore, topic, enPrompt, ok, storageWritable).1;
    }

    /** The feedback phase, with the auto-advance timer started when one is
        configured. */
    method ShowFeedback()
      modifies this
      ensures Snapshot() == old(Snapshot()).(phase := Phase.ShowFeedback,
                                             timerPending := cfg.autoAdvanceMs > 0 || old(timerPending))
    {
      gameState := gameState.(phase := Phase.ShowFeedback);
      if cfg.autoAdvanceMs > 0 {
        timerPending := true;
      }
    }

    /** The retry-queue step of evaluateAnswer, in place: `splice` drops an
        entry, a queued entry is rescheduled where it stands, `push` appends. */
    method UpdateRetryQueue(enPrompt: string, topic: string, ok: bool)
      modifies this
      ensures retryQueue == RetryAfterAnswer(cfg, old(retryQueue), enPrompt, topic, ok,
                                             gameState.questionsAsked)
      ensures Snapshot() == old(Snapshot()).(retryQueue := retryQueue)
    {
      var asked := gameState.questionsAsked;
      var idx := FindRetry(retryQueue, enPrompt);
      if ok {
        if idx >= 0 {
          retryQueue := retryQueue[..idx] + retryQueue[idx + 1..];
        }
      } else if idx >= 0 {
        var item := retryQueue[idx];
        if item.attempts < cfg.maxRetries {
          retryQueue := retryQueue[idx := item.(attempts := item.attempts + 1,
                                                dueAt := asked + cfg.retryAfter)];
        } else {
          retryQueue := retryQueue[..idx] + retryQueue[idx + 1..];
        }
      } else {
        retryQueue := retryQueue + [RetryEntry(enPrompt, topic, asked + cfg.retryAfter, 1)];
      }
    }

    /** The auto-advance callback. */
    method FireTimer(d: Draws)
      requires Valid() && timerPending && DrawsFit(d, |Entries(Environment())|)
      modifies this
      ensures Snapshot() == Session.FireTimer(Environment(), old(Snapshot()), d)
      ensures Valid()
    {
      FireTimerInv(Environment(), Snapshot(), d);
      timerPending := false;
      if gameState.questionsAsked >= gameState.roundSize {
        GameOver();
      } else {
        StartQuestionRound(d);
      }
    }

    method TopicPrev()
      requires Valid()
      modifies this
      ensures Snapshot() == Session.TopicPrev(Environment(), old(Snapshot()))
      ensures Valid()
    {
      TopicStepInv(Environment(), Snapshot());
      var topics := CatalogTopics(Environment());
      if |topics| == 0 {
        gameState := gameState.(selectedTopic := "");
        return;
      }
      var idx := Max(0, IndexOf(topics, gameState.selectedTopic));
      var prev := (idx - 1 + |topics|) % |topics|;
      gameState := gameState.(selectedTopic := topics[prev]);
    }

    method TopicNext()
      requires Valid()
      modifies this
      ensures Snapshot() == Session.TopicNext(Environment(), old(Snapshot()))
      ensures Valid()
    {
      TopicStepInv(Environment(), Snapshot());
      var topics := CatalogTopics(Environment());
      if |topics| == 0 {
        gameState := gameState.(selectedTopic := "");
        return;
      }
      var idx := Max(0, IndexOf(topics, gameState.selectedTopic));
      var next := (idx + 1) % |topics|;
      gameState := gameState.(selectedTopic := topics[next]);
    }

    method RoundMinus()
      requires Valid()
      modifies this
      ensures Snapshot() == Session.RoundMinus(old(Snapshot()))
      ensures Valid()
    {
      RoundSizeInv(Environment(), Snapshot());
      gameState := gameState.(roundSize := Max(3, gameState.roundSize - 1));
    }

    method RoundPlus()
      requires Valid()
      modifies this
      ensures Snapshot() == Session.RoundPlus(old(Snapshot()))
      ensures Valid()
    {
      RoundSizeInv(Environment(), Snapshot());
      gameState := gameState.(roundSize := Min(20, gameState.roundSize + 1));
    }

    method AdaptiveToggle()
      requires Valid()
      modifies this
      ensures Snapshot() == Session.AdaptiveToggle(old(Snapshot()))
      ensures Valid()
    {
      AdaptiveToggleInv(Environment(), Snapshot());
      adaptiveOn := !adaptiveOn;
    }

    method StartOrNext(d: Draws)
      requires Valid() && DrawsFit(d, |Entries(Environment())|)
      modifies this
      ensures Snapshot() == Session.StartOrNext(Environment(), old(Snapshot()), d)
      ensures Valid()
    {
      StartOrNextInv(Environment(), Snapshot(), d);
      LeaveReview();
      match gameState.phase
      case Idle =>
        ResetRoundState();
        StartQuestionRound(d);
      case Finished =>
        ResetRoundState();
        StartQuestionRound(d);
      case AwaitAnswer =>
      case ShowFeedback =>
        timerPending := false;
        StartQuestionRound(d);
    }

    method RestartRound(d: Draws)
      requires Valid() && DrawsFit(d, |Entries(Environment())|)
      modifies this
      ensures Snapshot() == Session.RestartRound(Environment(), old(Snapshot()), d)
      ensures Valid()
    {
      RestartRoundInv(Environment(), Snapshot(), d);
      LeaveReview();
      ResetRoundState();
      StartQuestionRound(d);
    }

    method ReviewOnly(d: Draws)
      requires Valid() && DrawsFit(d, |Entries(Environment())|)
      modifies this
      ensures Snapshot() == Session.ReviewOnly(Environment(), old(Snapshot()), d)
      ensures Valid()
    {
      ReviewOnlyInv(Environment(), Snapshot(), d);
      ghost var s0 := Snapshot();
      var hard := lastHardWords;
      var top := seq(|hard|, i requires 0 <= i < |hard| => hard[i].en);
      var pool := SliceTo(top, cfg.reviewMax);
      assert pool == ReviewPool(Environment(), s0);
      if |pool| > 0 {
        reviewMode := Review(true, pool, 0);
        ResetRoundState();
        gameState := gameState.(roundSize := |pool|);
        StartQuestionRound(d);
      }
    }

    method ChooseTopic()
      requires Valid()
      modifies this
      ensures Snapshot() == Session.ChooseTopic(old(Snapshot()))
      ensures Valid()
    {
      ChooseTopicInv(Environment(), Snapshot());
      LeaveReview();
      gameState := gameState.(phase := Idle);
    }

    /** `reviewMode.active = false`. */
    method LeaveReview()
      modifies this
      ensures Snapshot() == EndReview(old(Snapshot()))
    {
      reviewMode := reviewMode.(active := false);
    }

    /** progressValue. */
    function ProgressValue(): (v: real)
      reads this
      ensures 0.0 <= v <= 1.0
      ensures v == Session.ProgressValue(Snapshot())
    {
      MinR(1.0, MaxR(0.0, gameState.questionsAsked as real / Max(1, gameState.roundSize) as real))
    }
  }
}
