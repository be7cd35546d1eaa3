/** The score-to-schedule transform (`calculateSIPUpdate`), the next-review day
    and the evaluation handler (`POST /api/evaluate`) with its failure-isolation
    policy: a judge failure is fatal, a storage failure is not.

    Ease factors are held in integer tenths (25 stands for 2.5); `Math.round(x)`
    is the nearest integer with halves rounded up, computed exactly on tenths.
    Days are integer offsets: `today` is the day the request is served. */
module Evaluate {
  import opened Base

  const MinEase: int := 13
  const MaxEase: int := 30
  /** The prior state a first evaluation starts from (2.5, 0). */
  const InitialEase: int := 25
  const InitialInterval: int := 0
  /** The one-year ceiling of an interval. */
  const MaxInterval: int := 365

  /** The score thresholds of the three bands. */
  const FailBelow: real := 5.0
  const PassFrom: real := 8.0

  datatype ReviewState = New | Learning | Review

  datatype Schedule = Schedule(ease: int, interval: int, state: ReviewState)

  /** `clampEF`: the nearest ease within [1.3, 3.0]. */
  function ClampEase(e: int): (r: int)
    ensures MinEase <= r <= MaxEase
    ensures MinEase <= e <= MaxEase ==> r == e
    ensures e < MinEase ==> r == MinEase
    ensures e > MaxEase ==> r == MaxEase
  {
    Min(MaxEase, Max(MinEase, e))
  }

  /** `Math.round(n / d)`: the integer nearest to n/d, halves going up. */
  function RoundDiv(n: int, d: int): (k: int)
    requires d > 0
    ensures 2 * d * k - d <= 2 * n < 2 * d * k + d
  {
    (2 * n + d) / (2 * d)
  }

  /** `calculateSIPUpdate(ease, interval, score)`. */
  function SipUpdate(ease: int, interval: int, score: real): (r: Schedule)
    ensures MinEase <= r.ease <= MaxEase
    ensures r.state != New
    ensures interval >= 0 ==> 0 <= r.interval <= MaxInterval
    ensures r.state == Review <==> score >= PassFrom
    ensures interval >= 0 ==> (r.interval == 0 <==> score < FailBelow)
  {
    if score < FailBelow then
      Schedule(ClampEase(ease - 3), 0, Learning)
    else if score < PassFrom then
      Schedule(ClampEase(ease - 1), Max(1, Min(3, RoundDiv(interval, 2))), Learning)
    else
      var newEase := ClampEase(ease + 1);
      var grown := if interval == 0 then 1 else RoundDiv(interval * newEase, 10);
      Schedule(newEase, Min(MaxInterval, grown), Review)
  }

  /** The ease moves by -0.3, -0.1 or +0.1 according to the band, and is then clamped. */
  lemma EaseStep(ease: int, interval: int, score: real)
    ensures SipUpdate(ease, interval, score).ease ==
      ClampEase(ease + (if score < FailBelow then -3 else if score < PassFrom then -1 else 1))
  {
  }

  /** A failing score forgets the prior interval entirely: the result does not depend on it. */
  lemma FailIgnoresInterval(ease: int, i1: int, i2: int, score: real)
    requires score < FailBelow
    ensures SipUpdate(ease, i1, score) == SipUpdate(ease, i2, score) == Schedule(ClampEase(ease - 3), 0, Learning)
  {
  }

  /** A partial score keeps the card in learning with a short interval of one to three days,
      never longer than a positive prior interval. */
  lemma PartialShortens(ease: int, interval: int, score: real)
    requires FailBelow <= score < PassFrom
    ensures var r := SipUpdate(ease, interval, score);
      r.state == Learning && 1 <= r.interval <= 3 && (interval >= 1 ==> r.interval <= interval)
  {
    var h := RoundDiv(interval, 2);
    if interval >= 1 {
      assert 4 * h - 2 <= 2 * interval;
    }
  }

  /** A passing score never shortens an interval (below the ceiling): the new ease is at
      least 1.3, so round(interval * ease) is at least the interval. A card seen for the
      first time, or after a failure, comes back after exactly one day. */
  lemma {:induction false} PassGrows(ease: int, interval: int, score: real)
    requires score >= PassFrom && interval >= 0
    ensures var r := SipUpdate(ease, interval, score);
      r.state == Review && r.interval >= Min(Max(interval, 1), MaxInterval) &&
      (interval == 0 ==> r.interval == 1)
  {
    var e := ClampEase(ease + 1);
    if interval > 0 {
      var k := RoundDiv(interval * e, 10);
      assert interval * e >= interval * 13 by {
        MulMonotone(interval, 13, e);
      }
      assert 20 * k + 10 > 2 * interval * e;
      assert k >= interval;
    }
  }

  lemma MulMonotone(a: nat, b: int, c: int)
    requires b <= c
    ensures a * b <= a * c
  {
  }

  /** The three scenarios of the design notes. */
  lemma Scenarios()
    ensures SipUpdate(InitialEase, InitialInterval, 9.0) == Schedule(26, 1, Review)
    ensures SipUpdate(26, 1, 3.0) == Schedule(23, 0, Learning)
    ensures SipUpdate(13, 10, 6.0) == Schedule(13, 3, Learning)
  {
  }

  /** The stored schedule after a card has been evaluated with each score of `scores` in turn:
      None while it never was (the card is new), the initial state for the first evaluation. */
  function History(scores: seq<real>): (r: Option<Schedule>)
    ensures r.None? <==> scores == []
  {
    if scores == [] then None
    else
      var prior := History(scores[..|scores| - 1]);
      var last := scores[|scores| - 1];
      Some(match prior
        case None => SipUpdate(InitialEase, InitialInterval, last)
        case Some(p) => SipUpdate(p.ease, p.interval, last))
  }

  /** However many evaluations a card goes through, its stored state keeps the record
      invariant: ease in [1.3, 3.0], interval in [0, 365], and state learning or review. */
  lemma {:induction false} HistoryInvariant(scores: seq<real>)
    requires scores != []
    ensures var r := History(scores).value;
      MinEase <= r.ease <= MaxEase && 0 <= r.interval <= MaxInterval && r.state != New
  {
    if |scores| > 1 {
      HistoryInvariant(scores[..|scores| - 1]);
    }
  }

  /** The due date: `interval` days ahead, or one day ahead for interval 0 (set with
      `setDate(getDate() + n)` on a fresh Date). */
  method NextReviewDay(today: int, interval: int) returns (due: int)
    ensures due == today + Max(interval, 1)
    ensures due > today
  {
    due := today;
    if interval > 0 {
      due := due + interval;
    } else {
      due := due + 1;
    }
  }

  // ---------------------------------------------------------------------------
  // POST /api/evaluate

  /** The request body; a missing string field is the empty string (both are falsy). */
  datatype EvaluateRequest = EvaluateRequest(
    userSentence: string, cardId: Option<Id>, anchorData: Option<seq<Anchor>>, concept: string)

  /** What `generateObject` produced; an object whose score is outside [0, 10] fails the
      schema and is therefore a judge failure. */
  datatype JudgeOutcome = Judged(evaluation: Evaluation) | JudgeError

  /** The existing review row, as read with `.single()`: an error of that read leaves
      `data` null, exactly like a missing row. */
  datatype StoredReview = StoredReview(rowId: Id, ease: int, interval: int)
  datatype Lookup = Found(review: StoredReview) | NotFound | LookupThrew

  datatype WriteResult = WriteOk | WriteError | WriteThrew

  datatype ReviewFields = ReviewFields(
    ease: int, interval: int, nextReviewDay: int, state: ReviewState,
    lastReviewedDay: int, lastScore: real, lastUserInput: string,
    lastCritique: string, lastGapAnalysis: string)

  datatype StoreWrite = UpdateRow(rowId: Id, fields: ReviewFields) | InsertRow(cardId: Id, fields: ReviewFields)

  /** The response's `dbStatus`: 'updated', 'update_failed', 'created', 'insert_failed',
      'exception' and 'skipped_no_cardId'. */
  datatype DbStatus = Updated | UpdateFailed | Created | InsertFailed | DbException | SkippedNoCardId

  datatype ErrorKind = Unauthorized | MissingFields | JudgeFailed | Internal

  datatype EvaluateResponse =
    | Failed(httpStatus: int, error: ErrorKind)
    | Succeeded(evaluation: Evaluation, dbStatus: DbStatus)

  /** The fields written for a judged attempt on top of the schedule `s`. */
  function FieldsFor(s: Schedule, today: int, sentence: string, e: Evaluation): (f: ReviewFields)
    ensures f.ease == s.ease && f.interval == s.interval && f.state == s.state
    ensures f.nextReviewDay == today + Max(s.interval, 1) && f.nextReviewDay > today
    ensures f.lastReviewedDay == today && f.lastScore == e.score && f.lastUserInput == sentence
    ensures f.lastCritique == e.critique && f.lastGapAnalysis == e.gapAnalysis
  {
    ReviewFields(s.ease, s.interval, today + Max(s.interval, 1), s.state, today,
                 e.score, sentence, e.critique, e.gapAnalysis)
  }

  /** What the storage half of the handler does after a successful judgement: the status
      tag it reports and the write it issues. */
  function StoreStep(req: EvaluateRequest, e: Evaluation, lookup: Lookup, write: WriteResult, today: int)
    : (r: (DbStatus, Option<StoreWrite>))
    ensures !Truthy(req.cardId) <==> r.0 == SkippedNoCardId
    ensures r.1.None? <==> !Truthy(req.cardId) || lookup.LookupThrew?
    ensures r.1.Some? ==> r.1.value.fields.lastScore == e.score && r.1.value.fields.lastUserInput == req.userSentence
    ensures r.1.Some? && r.1.value.UpdateRow? ==> lookup.Found? && r.1.value.rowId == lookup.review.rowId
    ensures r.1.Some? && r.1.value.InsertRow? ==> lookup.NotFound? && Truthy(req.cardId) && r.1.value.cardId == req.cardId.value
    // an existing row is rescheduled from its own ease and interval
    ensures Truthy(req.cardId) && lookup.Found? ==>
      r.1 == Some(UpdateRow(lookup.review.rowId,
                            FieldsFor(SipUpdate(lookup.review.ease, lookup.review.interval, e.score), today, req.userSentence, e)))
    // a first evaluation starts from (2.5, 0)
    ensures Truthy(req.cardId) && lookup.NotFound? ==>
      r.1 == Some(InsertRow(req.cardId.value,
                            FieldsFor(SipUpdate(InitialEase, InitialInterval, e.score), today, req.userSentence, e)))
    // the status tag of each outcome
    ensures Truthy(req.cardId) && lookup.LookupThrew? ==> r.0 == DbException
    ensures Truthy(req.cardId) && !lookup.LookupThrew? && write.WriteThrew? ==> r.0 == DbException
    ensures Truthy(req.cardId) && lookup.Found? && write.WriteOk? ==> r.0 == Updated
    ensures Truthy(req.cardId) && lookup.Found? && write.WriteError? ==> r.0 == UpdateFailed
    ensures Truthy(req.cardId) && lookup.NotFound? && write.WriteOk? ==> r.0 == Created
    ensures Truthy(req.cardId) && lookup.NotFound? && write.WriteError? ==> r.0 == InsertFailed
  {
    if !Truthy(req.cardId) then (SkippedNoCardId, None)
    else match lookup
      case LookupThrew => (DbException, None)
      case Found(row) =>
        (match write case WriteOk => Updated case WriteError => UpdateFailed case WriteThrew => DbException,
         Some(UpdateRow(row.rowId, FieldsFor(SipUpdate(row.ease, row.interval, e.score), today, req.userSentence, e))))
      case NotFound =>
        (match write case WriteOk => Created case WriteError => InsertFailed case WriteThrew => DbException,
         Some(InsertRow(req.cardId.value, FieldsFor(SipUpdate(InitialEase, InitialInterval, e.score), today, req.userSentence, e))))
  }

  /** The rows the handler writes follow `History`: if the stored row holds the schedule
      left by the earlier evaluations `scores` (no row when there were none), the row
      written for the next score holds the schedule after `scores + [e.score]`. */
  lemma {:induction false} StoreStepFollowsHistory(req: EvaluateRequest, e: Evaluation, scores: seq<real>,
                                                  rowId: Id, write: WriteResult, today: int)
    requires Truthy(req.cardId)
    ensures var lookup := if scores == [] then NotFound
                          else Found(StoredReview(rowId, History(scores).value.ease, History(scores).value.interval));
      var w := StoreStep(req, e, lookup, write, today).1;
      && w.Some?
      && Schedule(w.value.fields.ease, w.value.fields.interval, w.value.fields.state) == History(scores + [e.score]).value
  {
    var all := scores + [e.score];
    assert all[..|all| - 1] == scores;
    assert all[|all| - 1] == e.score;
  }

  /** The handler. Authentication, the parsed body, the judge and the store are given
      as their outcomes; `written` is the write the handler issues, if any. */
  method Post(authenticated: bool, body: Option<EvaluateRequest>, judge: JudgeOutcome,
              lookup: Lookup, write: WriteResult, today: int)
    returns (resp: EvaluateResponse, written: Option<StoreWrite>)
    ensures !authenticated ==> resp == Failed(401, Unauthorized) && written.None?
    ensures authenticated && body.None? ==> resp == Failed(500, Internal) && written.None?
    ensures authenticated && body.Some? &&
            (body.value.userSentence == "" || body.value.concept == "" || body.value.anchorData.None?)
            ==> resp == Failed(400, MissingFields) && written.None?
    // a judge failure is fatal and touches nothing
    ensures resp.Succeeded? ==> judge.Judged? && ScoreInRange(judge.evaluation.score)
    ensures (judge.JudgeError? || !ScoreInRange(judge.evaluation.score)) ==> resp.Failed? && written.None?
    // once the judge has answered, the caller always gets its evaluation
    ensures authenticated && body.Some? && body.value.userSentence != "" && body.value.concept != "" &&
            body.value.anchorData.Some? && judge.Judged? && ScoreInRange(judge.evaluation.score)
            ==> resp.Succeeded? && resp.evaluation == judge.evaluation
    ensures resp.Succeeded? ==> body.Some? && StoreStep(body.value, judge.evaluation, lookup, write, today) == (resp.dbStatus, written)
  {
    written := None;
    if !authenticated {
      return Failed(401, Unauthorized), None;
    }
    if body.None? {
      return Failed(500, Internal), None;
    }
    var req := body.value;
    if req.userSentence == "" || req.concept == "" || req.anchorData.None? {
      return Failed(400, MissingFields), None;
    }
    if judge.JudgeError? || !ScoreInRange(judge.evaluation.score) {
      return Failed(500, JudgeFailed), None;
    }
    var evaluation := judge.evaluation;
    if Truthy(req.cardId) {
      if lookup.LookupThrew? {
        return Succeeded(evaluation, DbException), None;
      }
      var score := evaluation.score;
      var prior := if lookup.Found? then (lookup.review.ease, lookup.review.interval)
                   else (InitialEase, InitialInterval);
      var s := SipUpdate(prior.0, prior.1, score);
      var due := NextReviewDay(today, s.interval);
      var fields := ReviewFields(s.ease, s.interval, due, s.state, today, score,
                                 req.userSentence, evaluation.critique, evaluation.gapAnalysis);
      if lookup.Found? {
        written := Some(UpdateRow(lookup.review.rowId, fields));
        var status := match write case WriteOk => Updated case WriteError => UpdateFailed case WriteThrew => DbException;
        return Succeeded(evaluation, status), written;
      } else {
        written := Some(InsertRow(req.cardId.value, fields));
        var status := match write case WriteOk => Created case WriteError => InsertFailed case WriteThrew => DbException;
        return Succeeded(evaluation, status), written;
      }
    }
    return Succeeded(evaluation, SkippedNoCardId), None;
  }
}
