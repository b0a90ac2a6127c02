/** The records the extension exchanges: the survey answers, the steps and phase replies of
    the workflow webhook, and the element records of the page extractor. Optional fields
    (`x?: T`) and nullable ones (`T | null`) are both `Option`. */
module Types {
  import opened Json

  // ---- survey answers -------------------------------------------------------------------

  datatype Target = Self | Behalf
  datatype AgencyLevel = Province | Commune
  datatype DeliveryMethod = App | Direct | Post

  datatype UserAnswers = UserAnswers(
    target: Target,
    behalfRelation: Option<string>,
    behalfName: Option<string>,
    /** declared `'CMND' | 'CCCD'`; the survey buttons store their own labels */
    documentType: string,
    idNumber: Option<string>,
    agencyLevel: AgencyLevel,
    deliveryMethod: DeliveryMethod,
    postAddress: Option<string>)

  // ---- webhook protocol -----------------------------------------------------------------

  /** One DOM instruction as the webhook documents it. */
  datatype WebhookStep = WebhookStep(
    stepId: int,
    uiType: Option<string>,
    selector: string,
    action: string,
    value: Option<Option<string>>,   // absent, null, or a string
    description: string,
    audioScript: Option<string>)

  datatype PhaseStatus = Continue | Finished

  datatype PhaseResponse = PhaseResponse(
    status: PhaseStatus,
    currentPhase: Option<string>,
    requireConfirmation: Option<bool>,
    guideMessage: Option<string>,
    actions: seq<WebhookStep>)

  /** `m` with `key` set to the string when the optional field is present. */
  function PutOpt(m: map<string, Json>, key: string, o: Option<string>): (r: map<string, Json>)
    ensures r.Keys == if o.Some? then m.Keys + {key} else m.Keys
    ensures forall k :: k in m && k != key ==> r[k] == m[k]
    ensures o.Some? ==> r[key] == JStr(o.value)
  {
    if o.Some? then m[key := JStr(o.value)] else m
  }

  /** The JSON object a server sends for a step. */
  function StepJson(w: WebhookStep): (j: Json)
    ensures j.JObj? && Get(j, "selector") == Some(JStr(w.selector))
    ensures Get(j, "action") == Some(JStr(w.action))
    ensures j.fields.Keys <= {"step_id", "selector", "action", "description", "ui_type", "audio_script", "value"}
  {
    var m := map["step_id" := JNum(w.stepId), "selector" := JStr(w.selector),
                 "action" := JStr(w.action), "description" := JStr(w.description)];
    var m := PutOpt(PutOpt(m, "ui_type", w.uiType), "audio_script", w.audioScript);
    JObj(match w.value
         case None => m
         case Some(None) => m["value" := JNull]
         case Some(Some(v)) => m["value" := JStr(v)])
  }

  /** None of the keys the normaliser looks for besides `selector` and `action` is present. */
  lemma StepJsonKeys(w: WebhookStep)
    ensures var j := StepJson(w);
      && Get(j, "actions").None? && Get(j, "steps").None? && Get(j, "current_phase").None?
      && Get(j, "guide_message").None? && Get(j, "guide").None? && Get(j, "require_confirmation").None?
  {
    var keys: set<string> := {"step_id", "selector", "action", "description", "ui_type", "audio_script", "value"};
    forall k | k in keys
      ensures k != "actions" && k != "steps" && k != "current_phase"
      ensures k != "guide_message" && k != "guide" && k != "require_confirmation"
    {
    }
  }

  function StepsJson(ws: seq<WebhookStep>): (r: seq<Json>)
    ensures |r| == |ws| && forall i :: 0 <= i < |ws| ==> r[i] == StepJson(ws[i])
  {
    seq(|ws|, i requires 0 <= i < |ws| => StepJson(ws[i]))
  }

  /** The JSON object a server sends for a phase reply. */
  function PhaseResponseJson(p: PhaseResponse): (j: Json)
    ensures j.JObj? && Get(j, "actions") == Some(JArr(StepsJson(p.actions)))
    ensures Get(j, "current_phase") == (if p.currentPhase.Some? then Some(JStr(p.currentPhase.value)) else None)
    ensures Get(j, "guide_message") == (if p.guideMessage.Some? then Some(JStr(p.guideMessage.value)) else None)
    ensures Get(j, "require_confirmation") ==
              (if p.requireConfirmation.Some? then Some(JBool(p.requireConfirmation.value)) else None)
    ensures Get(j, "guide").None?
  {
    var m := map["status" := JStr(if p.status == Finished then "finished" else "continue"),
                 "actions" := JArr(StepsJson(p.actions))];
    var m := PutOpt(PutOpt(m, "current_phase", p.currentPhase), "guide_message", p.guideMessage);
    JObj(if p.requireConfirmation.Some? then m["require_confirmation" := JBool(p.requireConfirmation.value)] else m)
  }

  // ---- element records of the page extractor -----------------------------------------

  /** The attributes every element record carries (`BaseElement` without tag and flags). */
  datatype BaseAttributes = BaseAttributes(
    id: Option<string>,
    name: Option<string>,
    className: Option<string>,
    title: Option<string>,
    ariaLabel: Option<string>,
    role: Option<string>)

  datatype InputElement = InputElement(
    attrs: BaseAttributes,
    tag: string,
    inputType: string,
    value: Option<string>,
    checked: bool,
    placeholder: Option<string>,
    required: bool,
    disabled: bool,
    readonly: bool,
    maxlength: Option<string>,
    pattern: Option<string>,
    labelText: Option<string>)

  datatype SelectOption = SelectOption(
    value: Option<string>,
    text: string,
    selected: bool,
    disabled: bool)

  datatype SelectElement = SelectElement(
    attrs: BaseAttributes,
    tag: string,
    disabled: bool,
    required: bool,
    onchange: Option<string>,
    labelText: Option<string>,
    options: seq<SelectOption>,
    optionsCount: nat)

  datatype TextareaElement = TextareaElement(
    attrs: BaseAttributes,
    tag: string,
    value: string,
    placeholder: Option<string>,
    required: bool,
    disabled: bool,
    readonly: bool,
    rows: Option<string>,
    cols: Option<string>,
    labelText: Option<string>)

  datatype ButtonElement = ButtonElement(
    attrs: BaseAttributes,
    tag: string,
    buttonType: Option<string>,
    value: Option<string>,
    text: string,
    onclick: Option<string>,
    disabled: bool,
    isLoginButton: bool,
    isDropdown: bool)

  datatype LinkType = Javascript | Navigation | Trigger

  datatype LinkElement = LinkElement(
    attrs: BaseAttributes,
    tag: string,
    href: Option<string>,
    text: Option<string>,
    onclick: Option<string>,
    target: Option<string>,
    dataToggle: Option<string>,
    dataTarget: Option<string>,
    linkType: LinkType,
    disabled: bool)

  datatype ElementCount = ElementCount(inputs: nat, selects: nat, textareas: nat, buttons: nat)

  datatype FormElement = FormElement(
    id: Option<string>,
    name: Option<string>,
    action: Option<string>,
    httpMethod: string,
    enctype: Option<string>,
    ariaLabel: Option<string>,
    elementCount: ElementCount)

  datatype ExtractedData = ExtractedData(
    url: string,
    inputs: seq<InputElement>,
    selects: seq<SelectElement>,
    textareas: seq<TextareaElement>,
    buttons: seq<ButtonElement>,
    links: seq<LinkElement>,
    forms: seq<FormElement>,
    userAnswers: Option<UserAnswers>,
    extractedAt: Option<string>)
}
