/** The phase orchestrator of the widget (App.tsx): the ten-valued status, the session it
    persists, and the event handlers that move it. Network replies and the host page's step
    results are parameters; a reply that never comes is modelled as the handler stopping in
    its waiting status. */
module Orchestrator {
  import opened Json
  import opened Types
  import opened Normalizer

  datatype Status =
    | Idle | Survey | InitSending | Scanning | ReadyExecute
    | Executing | ActionDone | WaitingConfirm | Success | Error

  const ConnectError: string := "Không kết nối được với máy chủ Trợ lý."
  const NoInfoError: string := "Trang này con chưa thấy thông tin cần điền tự động."
  const ScanError: string := "Lỗi khi quét thông tin phản hồi."

  /** `fetch` followed by `res.json()`: either throws, or yields the parsed body. */
  datatype HttpResult = Failed | Body(data: Json)

  /** The feedback round: the page scan reply is lost, or it comes and the POST has a result. */
  datatype FeedbackRound = ScanLost | Posted(response: HttpResult)

  /** What `chrome.storage.local` holds under `dvc_session_state`. A missing or falsy
      `currentStepIndex` is `None`. */
  datatype Snapshot = Snapshot(
    status: Status,
    sessionId: string,
    answers: UserAnswers,
    parsedSteps: seq<Json>,
    phaseData: PhaseData,
    currentStepIndex: Option<nat>)

  const DefaultAnswers: UserAnswers := UserAnswers(Self, None, None, "CCCD", None, Commune, App, None)

  /** A snapshot this code can write: a step list to run whenever one is offered, and a
      cursor inside the list while running. */
  predicate WellFormed(s: Snapshot)
  {
    && (s.status == ReadyExecute ==> |s.parsedSteps| > 0)
    && (s.status == Executing ==> s.currentStepIndex.Some? && s.currentStepIndex.value < |s.parsedSteps|)
  }

  // ---- restoring a saved session -------------------------------------------------------

  /** Line 71: a session saved mid-run resumes as finished with its phase. */
  function RestoredStatus(s: Status): (r: Status)
    ensures r != Executing
    ensures s == Executing ==> r == ActionDone
    ensures s != Executing ==> r == s
  {
    if s == Executing then ActionDone else s
  }

  /** Line 77: `s.currentStepIndex || 0`. */
  function RestoredIndex(i: Option<nat>): (r: nat)
    ensures i.None? ==> r == 0
    ensures i.Some? ==> r == i.value
  {
    if i.Some? then i.value else 0
  }

  // ---- outcomes of the two webhook calls -----------------------------------------------

  /** The status and message `initSession` ends in, and the reply it applied if any. */
  datatype Outcome = Outcome(status: Status, error: Option<string>, applied: Option<Response>)

  function InitOutcome(r: HttpResult): (o: Outcome)
    ensures o.status == ReadyExecute || o.status == ActionDone || o.status == Error
    ensures o.status == Error <==> r.Failed?
    ensures o.status == Error ==> o.error == Some(ConnectError) && o.applied.None?
    ensures r.Body? ==> o.error.None? && o.applied == Some(ProcessResponse(r.data))
    ensures o.status == ReadyExecute <==> r.Body? && |ProcessResponse(r.data).steps| > 0
  {
    match r
    case Failed => Outcome(Error, Some(ConnectError), None)
    case Body(d) =>
      var resp := ProcessResponse(d);
      Outcome(if |resp.steps| > 0 then ReadyExecute else ActionDone, None, Some(resp))
  }

  /** The raw reply's `data.status === 'finished'`; reading a property of `null` throws. */
  datatype FinishCheck = IsFinished | NotFinished | ThrowsOnNull

  function CheckFinished(data: Json): FinishCheck
  {
    if data.JNull? then ThrowsOnNull
    else if Get(data, "status") == Some(JStr("finished")) then IsFinished
    else NotFinished
  }

  /** The status and message `requestNextSteps` ends in once the POST has a result. */
  function FeedbackOutcome(r: HttpResult): (o: Outcome)
    ensures o.status == ReadyExecute || o.status == Success || o.status == Error
    ensures r.Failed? ==> o == Outcome(Error, Some(ScanError), None)
    ensures r.Body? ==> o.applied == Some(ProcessResponse(r.data))
    ensures o.status == ReadyExecute <==> r.Body? && |ProcessResponse(r.data).steps| > 0
    ensures o.status == Success <==>
              r.Body? && ProcessResponse(r.data).steps == [] && r.data.JObj? &&
              Get(r.data, "status") == Some(JStr("finished"))
    ensures o.status == Error && o.error == Some(NoInfoError) <==>
              r.Body? && ProcessResponse(r.data).steps == [] && !r.data.JNull? &&
              Get(r.data, "status") != Some(JStr("finished"))
    ensures r.Body? && r.data.JNull? ==> o.status == Error && o.error == Some(ScanError)
    ensures o.status == ReadyExecute || o.status == Success ==> o.error.None?
  {
    match r
    case Failed => Outcome(Error, Some(ScanError), None)
    case Body(d) =>
      var resp := ProcessResponse(d);
      if |resp.steps| > 0 then Outcome(ReadyExecute, None, Some(resp))
      else match CheckFinished(d)
        case IsFinished => Outcome(Success, None, Some(resp))
        case NotFinished => Outcome(Error, Some(NoInfoError), Some(resp))
        case ThrowsOnNull => Outcome(Error, Some(ScanError), Some(resp))
  }

  /** Completion is read from the raw reply, not from the working object: a finished status
      inside a one-element array is not seen. */
  lemma FinishedReadOnRawReply(inner: Json)
    requires ProcessResponse(inner).steps == [] && Get(inner, "status") == Some(JStr("finished"))
    ensures FeedbackOutcome(Body(inner)).status == Success
    ensures FeedbackOutcome(Body(JArr([inner]))).status == Error
  {
    FirstElementWins(inner, []);
    assert [inner] + [] == [inner];
  }

  /** On a bare step object with a string `action` the two normalisers part ways: the code
      as written stores no steps, so `initSession` ends in ACTION_DONE and `requestNextSteps`
      in the no-information error, while the corrected rule offers the step. */
  lemma BareStepReplyOutcomes(w: WebhookStep)
    requires w.selector != "" && w.action != ""
    ensures ProcessResponseAsWritten(StepJson(w)).steps == []
    ensures InitOutcome(Body(StepJson(w))).status == ReadyExecute
    ensures InitOutcome(Body(StepJson(w))).applied == Some(Response(DefaultPhase, [StepJson(w)]))
    ensures FeedbackOutcome(Body(StepJson(w))).status == ReadyExecute
  {
    AsWrittenDropsSingleStep(w);
    ShapeTolerance(w);
  }

  // ---- the step loop -----------------------------------------------------------------------

  /** How many of `n` steps `runAutomation` dispatches when the host page answers with
      `results` (a missing answer leaves the loop waiting on the step just sent). */
  function Attempted(results: seq<bool>, n: nat): (k: nat)
    ensures k <= n && (n > 0 ==> k >= 1)
  {
    if n == 0 then 0
    else if results == [] || !results[0] then 1
    else 1 + Attempted(results[1..], n - 1)
  }

  /** The loop never ends because the answer to one step never comes. */
  predicate Stalls(results: seq<bool>, n: nat)
  {
    n > 0 && (results == [] || (results[0] && Stalls(results[1..], n - 1)))
  }

  /** The status `runAutomation` leaves behind. */
  function RunStatus(results: seq<bool>, n: nat, requireConfirm: bool): Status
  {
    if Stalls(results, n) then Executing
    else if requireConfirm then WaitingConfirm
    else ActionDone
  }

  /** Peeling off a prefix of successful steps. */
  lemma {:induction false} AttemptedSplit(results: seq<bool>, n: nat, i: nat)
    requires i <= n && i <= |results|
    requires forall j :: 0 <= j < i ==> results[j]
    ensures Attempted(results, n) == i + Attempted(results[i..], n - i)
    ensures Stalls(results, n) == Stalls(results[i..], n - i)
  {
    if i > 0 {
      assert results[1..][i - 1..] == results[i..];
      AttemptedSplit(results[1..], n - 1, i - 1);
    }
  }

  /** A step is dispatched only after every earlier step succeeded. */
  lemma {:induction false} DispatchOnlyAfterSuccess(results: seq<bool>, n: nat, i: nat)
    requires i + 1 < Attempted(results, n)
    ensures i < |results| && results[i]
  {
    if i > 0 {
      DispatchOnlyAfterSuccess(results[1..], n - 1, i - 1);
    }
  }

  /** The first failure at `k` stops the loop after `k + 1` dispatches. */
  lemma FirstFailureStops(results: seq<bool>, n: nat, k: nat)
    requires k < n && k < |results| && !results[k]
    requires forall j :: 0 <= j < k ==> results[j]
    ensures Attempted(results, n) == k + 1
    ensures !Stalls(results, n)
  {
    AttemptedSplit(results, n, k);
  }

  /** When the first `n` answers all succeed, every step is dispatched and the loop ends. */
  lemma AllSucceed(results: seq<bool>, n: nat)
    requires n <= |results|
    requires forall j :: 0 <= j < n ==> results[j]
    ensures Attempted(results, n) == n
    ensures !Stalls(results, n)
  {
    AttemptedSplit(results, n, n);
  }

  /** The loop stalls exactly when the page stops answering before a failure or the end. */
  lemma {:induction false} StallsIff(results: seq<bool>, n: nat)
    ensures Stalls(results, n) <==> |results| < n && forall j :: 0 <= j < |results| ==> results[j]
    ensures Stalls(results, n) ==> Attempted(results, n) == |results| + 1
  {
    if n > 0 && results != [] {
      StallsIff(results[1..], n - 1);
      if results[0] {
        assert forall j :: 1 <= j < |results| ==> results[j] == results[1..][j - 1];
      }
    }
  }

  /** The short-circuit case: of three steps whose second fails, two are dispatched. */
  lemma SecondOfThreeFails(results: seq<bool>)
    requires |results| >= 2 && results[0] && !results[1]
    ensures Attempted(results, 3) == 2 && RunStatus(results, 3, false) == ActionDone
  {
    FirstFailureStops(results, 3, 1);
  }

  // ---- the buttons ----------------------------------------------------------------------

  /** `setAnswers({...answers, <field>: <value>})` for each group of survey buttons. */
  datatype SurveyChoice =
    | ChooseDocument(documentType: string)
    | ChooseTarget(target: Target)
    | ChooseAgency(agencyLevel: AgencyLevel)
    | ChooseDelivery(deliveryMethod: DeliveryMethod)

  function Answer(a: UserAnswers, c: SurveyChoice): (r: UserAnswers)
    ensures c.ChooseDocument? ==> r == a.(documentType := c.documentType)
    ensures c.ChooseTarget? ==> r == a.(target := c.target)
    ensures c.ChooseAgency? ==> r == a.(agencyLevel := c.agencyLevel)
    ensures c.ChooseDelivery? ==> r == a.(deliveryMethod := c.deliveryMethod)
  {
    match c
    case ChooseDocument(d) => a.(documentType := d)
    case ChooseTarget(t) => a.(target := t)
    case ChooseAgency(l) => a.(agencyLevel := l)
    case ChooseDelivery(m) => a.(deliveryMethod := m)
  }

  /** Choices of different groups commute: the answers do not depend on the click order. */
  lemma ChoicesCommute(a: UserAnswers, c: SurveyChoice, d: SurveyChoice)
    requires c.ChooseDocument? != d.ChooseDocument? || c.ChooseTarget? != d.ChooseTarget? ||
             c.ChooseAgency? != d.ChooseAgency?
    ensures Answer(Answer(a, c), d) == Answer(Answer(a, d), c)
  {
  }

  /** A later choice of the same group overrides an earlier one: the survey keeps the last
      button pressed in each group. */
  lemma LastChoiceWins(a: UserAnswers, c: SurveyChoice, d: SurveyChoice)
    requires c.ChooseDocument? == d.ChooseDocument? && c.ChooseTarget? == d.ChooseTarget? &&
             c.ChooseAgency? == d.ChooseAgency?
    ensures Answer(Answer(a, c), d) == Answer(a, d)
  {
  }

  /** The labels the two document-type buttons store (line 299). */
  const DocumentLabels: seq<string> := ["Căn cước 12 số", "CMND 09 số"]

  /** The choices the survey renders a button for: the two document labels, and only the
      DIRECT and POST delivery buttons (the APP one is commented out at line 340). */
  predicate OnScreen(c: SurveyChoice)
  {
    match c
    case ChooseDocument(d) => d in DocumentLabels
    case ChooseDelivery(m) => m == Direct || m == Post
    case _ => true
  }

  /** The initial document type and delivery method are values no button offers, so neither
      group shows a selected button at first; and a pressed document button stores a label,
      never one of the declared codes `CCCD` and `CMND`. */
  lemma DefaultsNotOnScreen(a: UserAnswers, c: SurveyChoice)
    requires OnScreen(c) && c.ChooseDocument?
    ensures !OnScreen(ChooseDocument(DefaultAnswers.documentType))
    ensures !OnScreen(ChooseDelivery(DefaultAnswers.deliveryMethod))
    ensures Answer(a, c).documentType != "CCCD" && Answer(a, c).documentType != "CMND"
  {
    assert "CCCD" != DocumentLabels[0] && "CCCD" != DocumentLabels[1];
    assert "CMND" != DocumentLabels[0] && "CMND" != DocumentLabels[1];
  }

  datatype Button =
    | StartButton | ChoiceButton | SubmitSurveyButton | RunButton | FeedbackButton
    | NewRecordButton | RetryScanButton | BackToSurveyButton | SettingsResetButton

  /** Which buttons the widget renders in each status (lines 273-430); the settings panel's
      reset is always reachable. */
  predicate Offered(s: Status, b: Button)
  {
    match b
    case StartButton => s == Idle
    case ChoiceButton => s == Survey
    case SubmitSurveyButton => s == Survey
    case RunButton => s == ReadyExecute
    case FeedbackButton => s == ActionDone || s == WaitingConfirm
    case NewRecordButton => s == Success
    case RetryScanButton => s == Error
    case BackToSurveyButton => s == Error
    case SettingsResetButton => true
  }

  /** While a request or the step loop is in flight only the reset is offered; every other
      status offers a way forward. */
  lemma WaitingOffersOnlyReset(s: Status)
    ensures (s == InitSending || s == Scanning || s == Executing) <==>
            forall b :: Offered(s, b) ==> b == SettingsResetButton
  {
    if !(s == InitSending || s == Scanning || s == Executing) {
      var b := match s
        case Idle => StartButton
        case Survey => SubmitSurveyButton
        case ReadyExecute => RunButton
        case ActionDone => FeedbackButton
        case WaitingConfirm => FeedbackButton
        case Success => NewRecordButton
        case Error => RetryScanButton;
      assert Offered(s, b) && b != SettingsResetButton;
    }
  }

  /** Reloading frees a run whose step reply was lost, but not a lost scan reply. */
  lemma RestoreAfterLostReplies()
    ensures Offered(RestoredStatus(Executing), FeedbackButton)
    ensures forall b :: Offered(RestoredStatus(Scanning), b) ==> b == SettingsResetButton
  {
  }

  // ---- the widget's state ----------------------------------------------------------------

  class Assistant {
    var status: Status
    var errorMessage: Option<string>
    var sessionId: string
    var answers: UserAnswers
    var parsedSteps: seq<Json>
    var currentStepIndex: nat
    var phaseData: PhaseData
    /** `chrome.storage.local['dvc_session_state']` */
    var stored: Option<Snapshot>

    function Snap(): (s: Snapshot)
      reads this
    {
      Snapshot(status, sessionId, answers, parsedSteps, phaseData, Some(currentStepIndex))
    }

    ghost predicate Valid()
      reads this
    {
      WellFormed(Snap()) && (stored.Some? ==> WellFormed(stored.value))
    }

    /** Mounting the widget: defaults, a fresh session id, and whatever storage held. */
    constructor (freshId: string, saved: Option<Snapshot>)
      requires saved.Some? ==> WellFormed(saved.value)
      ensures Valid()
      ensures status == Idle && errorMessage.None? && sessionId == freshId
      ensures answers == DefaultAnswers && parsedSteps == [] && currentStepIndex == 0
      ensures phaseData == DefaultPhase && stored == saved
    {
      status := Idle;
      errorMessage := None;
      sessionId := freshId;
      answers := DefaultAnswers;
      parsedSteps := [];
      currentStepIndex := 0;
      phaseData := DefaultPhase;
      stored := saved;
    }

    /** The persistence effect (lines 88-94): every state other than IDLE is written. */
    method Persist()
      requires Valid()
      modifies this`stored
      ensures Valid()
      ensures stored == if status != Idle then Some(Snap()) else old(stored)
    {
      if status != Idle {
        stored := Some(Snap());
      }
    }

    /** The restore-on-load callback (lines 68-79), followed by the persistence effect. */
    method Restore()
      requires Valid()
      modifies this
      ensures Valid()
      ensures old(stored).None? ==> Snap() == old(Snap()) && errorMessage == old(errorMessage) && stored == old(stored)
      ensures old(stored).Some? ==>
                var s := old(stored).value;
                && status == RestoredStatus(s.status) && sessionId == s.sessionId
                && answers == s.answers && parsedSteps == s.parsedSteps && phaseData == s.phaseData
                && currentStepIndex == RestoredIndex(s.currentStepIndex)
                && errorMessage == old(errorMessage)
                && stored == if status != Idle then Some(Snap()) else old(stored)
    {
      if stored.Some? {
        var s := stored.value;
        status := RestoredStatus(s.status);
        sessionId := s.sessionId;
        answers := s.answers;
        parsedSteps := s.parsedSteps;
        phaseData := s.phaseData;
        currentStepIndex := RestoredIndex(s.currentStepIndex);
        Persist();
      }
    }

    /** The "start" button (line 290) and the "back to survey" button (line 430). */
    method OpenSurvey()
      requires Valid()
      modifies this
      ensures Valid()
      ensures status == Survey && stored == Some(Snap())
      ensures errorMessage == old(errorMessage) && sessionId == old(sessionId) && answers == old(answers)
      ensures parsedSteps == old(parsedSteps) && phaseData == old(phaseData)
      ensures currentStepIndex == old(currentStepIndex)
    {
      status := Survey;
      Persist();
    }

    /** A survey choice button (lines 300-344): one answer replaced; nothing is validated. */
    method Choose(c: SurveyChoice)
      requires Valid()
      modifies this
      ensures Valid()
      ensures answers == Answer(old(answers), c) && status == old(status) && errorMessage == old(errorMessage)
      ensures sessionId == old(sessionId) && parsedSteps == old(parsedSteps)
      ensures phaseData == old(phaseData) && currentStepIndex == old(currentStepIndex)
      ensures stored == if status != Idle then Some(Snap()) else old(stored)
    {
      answers := Answer(answers, c);
      Persist();
    }

    /** `processResponse`'s writes: phase and steps replaced together, the stored list returned. */
    method ApplyResponse(data: Json) returns (steps: seq<Json>)
      modifies this`phaseData, this`parsedSteps
      ensures steps == parsedSteps == ProcessResponse(data).steps
      ensures phaseData == ProcessResponse(data).phase
    {
      var r := ProcessResponse(data);
      phaseData := r.phase;
      parsedSteps := r.steps;
      steps := r.steps;
    }

    /** `initSession` (lines 141-166). */
    method InitSession(r: HttpResult)
      requires Valid()
      modifies this
      ensures Valid()
      ensures var o := InitOutcome(r);
        && status == o.status
        && errorMessage == (if o.error.Some? then o.error else old(errorMessage))
        && (o.applied.Some? ==> parsedSteps == o.applied.value.steps && phaseData == o.applied.value.phase)
        && (o.applied.None? ==> parsedSteps == old(parsedSteps) && phaseData == old(phaseData))
      ensures sessionId == old(sessionId) && answers == old(answers)
      ensures currentStepIndex == old(currentStepIndex)
      ensures stored == Some(Snap())
    {
      status := InitSending;
      Persist();
      match r {
        case Failed =>
          errorMessage := Some(ConnectError);
          status := Error;
        case Body(d) =>
          var steps := ApplyResponse(d);
          if |steps| > 0 {
            status := ReadyExecute;
          } else {
            status := ActionDone;
          }
      }
      Persist();
    }

    /** `requestNextSteps` (lines 174-216). */
    method RequestNextSteps(round: FeedbackRound)
      requires Valid()
      modifies this
      ensures Valid()
      ensures round.ScanLost? ==>
                status == Scanning && errorMessage == old(errorMessage)
                && parsedSteps == old(parsedSteps) && phaseData == old(phaseData)
      ensures round.Posted? ==>
                var o := FeedbackOutcome(round.response);
                && status == o.status
                && errorMessage == (if o.error.Some? then o.error else old(errorMessage))
                && (o.applied.Some? ==> parsedSteps == o.applied.value.steps && phaseData == o.applied.value.phase)
                && (o.applied.None? ==> parsedSteps == old(parsedSteps) && phaseData == old(phaseData))
      ensures sessionId == old(sessionId) && answers == old(answers)
      ensures currentStepIndex == old(currentStepIndex)
      ensures stored == Some(Snap())
    {
      status := Scanning;
      Persist();
      if round.ScanLost? {
        return;
      }
      match round.response {
        case Failed =>
          errorMessage := Some(ScanError);
          status := Error;
        case Body(d) =>
          var steps := ApplyResponse(d);
          if |steps| > 0 {
            status := ReadyExecute;
          } else {
            match CheckFinished(d) {
              case IsFinished =>
                status := Success;
              case NotFinished =>
                errorMessage := Some(NoInfoError);
                status := Error;
              case ThrowsOnNull =>
                errorMessage := Some(ScanError);
                status := Error;
            }
          }
      }
      Persist();
    }

    /** `runAutomation` (lines 222-246): `results[i]` is the host page's answer to step `i`;
        `sent` lists the steps posted to the page, in order. */
    method RunAutomation(results: seq<bool>) returns (sent: seq<Json>)
      requires Valid()
      modifies this
      ensures Valid()
      ensures var n := |parsedSteps|;
        && sent == parsedSteps[..Attempted(results, n)]
        && status == RunStatus(results, n, phaseData.requireConfirm)
        && currentStepIndex == (if sent == [] then old(currentStepIndex) else |sent| - 1)
      ensures parsedSteps == old(parsedSteps) && phaseData == old(phaseData)
      ensures errorMessage == old(errorMessage) && sessionId == old(sessionId) && answers == old(answers)
      ensures stored == Some(Snap())
    {
      status := Executing;
      ghost var n := |parsedSteps|;
      sent := [];
      var i := 0;
      while i < |parsedSteps|
        invariant 0 <= i <= n == |parsedSteps| && i <= |results|
        invariant forall j :: 0 <= j < i ==> results[j]
        invariant sent == parsedSteps[..i]
        invariant currentStepIndex == (if i == 0 then old(currentStepIndex) else i - 1)
        invariant parsedSteps == old(parsedSteps) && phaseData == old(phaseData)
        invariant errorMessage == old(errorMessage) && sessionId == old(sessionId) && answers == old(answers)
        invariant status == Executing && stored == old(stored)
      {
        currentStepIndex := i;
        sent := sent + [parsedSteps[i]];
        if i == |results| {
          // the answer to this step never arrives
          AttemptedSplit(results, n, i);
          Persist();
          return;
        }
        if !results[i] {
          AttemptedSplit(results, n, i);
          break;
        }
        i := i + 1;
      }
      if i == n {
        AttemptedSplit(results, n, i);
      }
      if phaseData.requireConfirm {
        status := WaitingConfirm;
      } else {
        status := ActionDone;
      }
      Persist();
    }

    /** `resetSession` (lines 248-252): storage cleared, IDLE, a new session id. The step
        list, phase, answers and cursor are kept. */
    method ResetSession(freshId: string)
      requires Valid()
      modifies this
      ensures Valid()
      ensures status == Idle && stored.None? && sessionId == freshId
      ensures errorMessage == old(errorMessage) && answers == old(answers) && parsedSteps == old(parsedSteps)
      ensures phaseData == old(phaseData) && currentStepIndex == old(currentStepIndex)
    {
      stored := None;
      status := Idle;
      sessionId := freshId;
    }
  }

  const ClickA: Json := JObj(map["selector" := JStr("#a"), "action" := JStr("click"), "description" := JStr("Click A")])
  const ReplyA: Json := JObj(map["guide_message" := JStr("Step A"), "actions" := JArr([ClickA])])

  /** The reply of the scenario below offers its one click step. */
  lemma ReplyAOffersClickA()
    ensures ProcessResponse(ReplyA).steps == [ClickA]
  {
    assert Root(ReplyA) == ReplyA && Candidate(ReplyA) == JArr([ClickA]);
    assert IsStep(ClickA);
    KeepStepsAll([ClickA]);
    assert StepList(JArr([ClickA])) == [ClickA] && WithFallback(ReplyA, [ClickA]) == [ClickA];
  }

  /** The end-to-end scenario: one click step, every step succeeding. */
  method EndToEnd()
  {
    var a := new Assistant("sess_a", None);
    a.OpenSurvey();
    a.Choose(ChooseDelivery(Direct));
    ReplyAOffersClickA();
    a.InitSession(Body(ReplyA));
    assert a.status == ReadyExecute && a.parsedSteps == [ClickA];
    var sent := a.RunAutomation([true]);
    AllSucceed([true], 1);
    assert sent == [ClickA];
    assert a.status == ActionDone && a.currentStepIndex == 0;
  }
}
