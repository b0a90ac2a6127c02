/** The content script (content.js): the step executor that drives the host page, the
    router for messages from the widget frame, and the widget's visibility. The host page
    is a map from each selector that matches something to the element it selects first. */
module Content {
  import opened JsStrings
  import opened Json

  datatype EventKind = InputEvent | ChangeEvent | BlurEvent

  /** What happens to an element: a `click()` call or a dispatched event. */
  datatype DomEvent = Clicked | Dispatched(kind: EventKind, bubbles: bool)

  /** The parts of a host-page element that a step touches. */
  class Element {
    var value: string
    var outline: string
    var bg: string
    var events: seq<DomEvent>

    constructor (value: string, outline: string, bg: string)
      ensures this.value == value && this.outline == outline && this.bg == bg && events == []
    {
      this.value := value;
      this.outline := outline;
      this.bg := bg;
      events := [];
    }
  }

  const HighlightOutline: string := "5px solid #d4af37"
  const HighlightBg: string := "rgba(212, 175, 55, 0.1)"

  /** The action kinds that set a value. */
  const FillKinds: seq<string> := ["fill", "type", "input", "value"]

  // ---- what one step does --------------------------------------------------------------

  /** What `executeStep` does once the element is highlighted. */
  datatype Plan = Click | SetValue(v: string) | NoOp | Throws

  /** `(s.action || '').toLowerCase()`: a truthy action that is not a string has no
      `toLowerCase` and throws. */
  function ActionKind(s: Json): (k: Option<string>)
    ensures !TruthyAt(s, "action") ==> k == Some("")
    ensures TruthyAt(s, "action") && Get(s, "action").value.JStr? ==> k == Some(Lower(Get(s, "action").value.s))
    ensures k.None? <==> TruthyAt(s, "action") && !Get(s, "action").value.JStr?
    ensures k.Some? ==> NoAsciiUpper(k.value)
  {
    if !TruthyAt(s, "action") then Some("")
    else match Get(s, "action").value
      case JStr(a) => Some(Lower(a))
      case _ => None
  }

  /** `s.value || ''`, converted by the assignment to the `value` property. */
  function FillValue(s: Json): (v: string)
    ensures !TruthyAt(s, "value") ==> v == ""
    ensures TruthyAt(s, "value") && Get(s, "value").value.JStr? ==> v == Get(s, "value").value.s
  {
    if TruthyAt(s, "value") then ToJsString(Get(s, "value").value) else ""
  }

  function PlanOf(s: Json): (p: Plan)
    ensures p.Throws? <==> ActionKind(s).None?
    ensures p == Click <==> ActionKind(s) == Some("click")
    ensures p.SetValue? <==> ActionKind(s).Some? && ActionKind(s).value in FillKinds
    ensures p.SetValue? ==> p.v == FillValue(s)
    ensures p == NoOp <==> ActionKind(s).Some? && ActionKind(s).value != "click" && ActionKind(s).value !in FillKinds
  {
    match ActionKind(s)
    case None => Throws
    case Some(k) =>
      if k == "click" then Click
      else if k in FillKinds then SetValue(FillValue(s))
      else NoOp
  }

  /** The events a plan appends to the element's log: one click, or input, change and
      blur in that order, all bubbling. */
  function EventsOf(p: Plan): (r: seq<DomEvent>)
    ensures p == Click ==> r == [Clicked]
    ensures p.SetValue? ==> r == [Dispatched(InputEvent, true), Dispatched(ChangeEvent, true), Dispatched(BlurEvent, true)]
    ensures p == NoOp || p.Throws? ==> r == []
  {
    match p
    case Click => [Clicked]
    case SetValue(_) => [Dispatched(InputEvent, true), Dispatched(ChangeEvent, true), Dispatched(BlurEvent, true)]
    case _ => []
  }

  /** `s` with its `action` replaced. */
  function WithAction(s: Json, a: string): (r: Json)
    requires s.JObj?
    ensures Get(r, "action") == Some(JStr(a))
    ensures forall k :: k != "action" ==> Get(r, k) == Get(s, k)
  {
    JObj(s.fields["action" := JStr(a)])
  }

  /** Letter case of the action kind does not matter. */
  lemma PlanIgnoresCase(s: Json, a: string)
    requires s.JObj?
    ensures PlanOf(WithAction(s, Upper(a))) == PlanOf(WithAction(s, a))
  {
    LowerOfUpper(a);
    assert Truthy(JStr(Upper(a))) == Truthy(JStr(a));
    assert FillValue(WithAction(s, Upper(a))) == FillValue(WithAction(s, a));
  }

  /** A step without an action, or with one the executor does not know, does nothing. */
  lemma UnknownKindDoesNothing(s: Json)
    requires !TruthyAt(s, "action") || (Get(s, "action").value.JStr? && Lower(Get(s, "action").value.s) !in ["click"] + FillKinds)
    ensures PlanOf(s) == NoOp && EventsOf(PlanOf(s)) == []
  {
  }

  /** The selector a step names; a selector that is not a string matches nothing. */
  function SelectorOf(s: Json): (r: Option<string>)
    ensures r.Some? <==> Get(s, "selector").Some? && Get(s, "selector").value.JStr?
  {
    match Get(s, "selector")
    case Some(JStr(sel)) => Some(sel)
    case _ => None
  }

  /** A highlight whose later revert is pending: the element and its saved style. */
  datatype Highlight = Highlight(el: Element, outline: string, bg: string)

  // ---- the deferred hides of the widget ---------------------------------------------------

  /** The two 300 ms timers: the toggle's and the close message's. */
  datatype HideTimer = ToggleHide | CloseHide

  /** `display` after a timer fires, as written: only the toggle's timer asks whether the
      widget was shown again in the meantime. */
  function DisplayedAfterAsWritten(t: HideTimer, isVisible: bool, displayed: bool): bool
  {
    match t
    case ToggleHide => if !isVisible then false else displayed
    case CloseHide => false
  }

  /** Closing and then toggling the widget open within 300 ms: the close timer hides a
      widget whose flag says visible. */
  lemma CloseTimerHidesReopenedWidget()
    ensures !DisplayedAfterAsWritten(CloseHide, true, true)
  {
  }

  /** `display` after a timer fires, both timers guarded by the visibility flag. */
  function DisplayedAfter(t: HideTimer, isVisible: bool, displayed: bool): (r: bool)
    ensures isVisible ==> r == displayed
    ensures !isVisible ==> !r
  {
    if !isVisible then false else displayed
  }

  /** The guarded timers agree with the code whenever the flag is still false. */
  lemma GuardAgreesWhenHidden(t: HideTimer, displayed: bool)
    ensures DisplayedAfter(t, false, displayed) == DisplayedAfterAsWritten(t, false, displayed)
    ensures DisplayedAfter(ToggleHide, true, displayed) == DisplayedAfterAsWritten(ToggleHide, true, displayed)
  {
  }

  // ---- the script's state -------------------------------------------------------------

  /** What the content script posts to the widget frame. */
  datatype Reply = ScanResult(data: Json) | StepResult(success: bool)

  /** `event.data.type` when it is a string. */
  function MessageType(msg: Json): (r: Option<string>)
    ensures r.Some? <==> Get(msg, "type").Some? && Get(msg, "type").value.JStr?
  {
    match Get(msg, "type")
    case Some(JStr(t)) => Some(t)
    case _ => None
  }

  /** `event.data.step`; `undefined` behaves as `null` here (reading its selector throws). */
  function StepOf(msg: Json): Json
  {
    if Get(msg, "step").Some? then Get(msg, "step").value else JNull
  }

  class ContentScript {
    /** The host page's elements, by selector. */
    const elements: map<string, Element>
    /** `widgetIframe !== null` */
    var widget: bool
    /** whether the document holds an element with id `dvc-assistant-container` */
    var containerInPage: bool
    var isVisible: bool
    /** `style.display == 'block'` */
    var displayed: bool
    /** `transform: scale(1)` and `opacity: 1`, as opposed to shrunk and transparent */
    var shown: bool
    /** `storage.local['dvc_widget_visible']` */
    var storedVisible: Option<bool>
    /** the messages posted to the widget frame, in order */
    var outbox: seq<Reply>
    /** hide timers started and not yet fired, in the order they fire */
    var hideTimers: seq<HideTimer>
    /** the containers this script instance created */
    ghost var containersCreated: nat
    /** the page already held a container when the script was loaded (a script injected
        again after the extension lost its context, whose earlier container remains) */
    ghost const staleContainer: bool

    ghost predicate Valid()
      reads this
    {
      && (containerInPage <==> widget || staleContainer)
      && (staleContainer ==> !widget)
      && containersCreated == (if widget then 1 else 0)
      && (widget && isVisible ==> displayed && shown)
      && (isVisible && !widget ==> staleContainer)
      && (displayed || shown ==> widget)
    }

    /** The script as loaded: no widget, the given page and stored flag; `containerFound`
        says whether the page already holds a `dvc-assistant-container`. */
    constructor (elements: map<string, Element>, storedVisible: Option<bool>, containerFound: bool)
      ensures Valid()
      ensures this.elements == elements && this.storedVisible == storedVisible
      ensures containerInPage == containerFound && staleContainer == containerFound
      ensures !widget && !isVisible && !displayed && !shown && outbox == [] && hideTimers == []
    {
      this.elements := elements;
      widget := false;
      staleContainer := containerFound;
      containerInPage := containerFound;
      isVisible := false;
      displayed := false;
      shown := false;
      this.storedVisible := storedVisible;
      outbox := [];
      hideTimers := [];
      containersCreated := 0;
    }

    /** Whether `executeStep(s)` resolves to `true`: the selector matches and reading the
        action kind does not throw. */
    function StepSucceeds(s: Json): (ok: bool)
      ensures ok ==> SelectorOf(s).Some? && SelectorOf(s).value in elements
      ensures ok <==> SelectorOf(s).Some? && SelectorOf(s).value in elements && !PlanOf(s).Throws?
    {
      SelectorOf(s).Some? && SelectorOf(s).value in elements && !PlanOf(s).Throws?
    }

    /** `createWidget`: a call that finds a container does nothing, so a container left by
        an earlier script instance leaves `widgetIframe` null. */
    method CreateWidget()
      requires Valid()
      modifies this
      ensures Valid() && containerInPage
      ensures widget <==> !staleContainer
      ensures widget ==> containersCreated == 1
      ensures old(containerInPage) ==> widget == old(widget) && containersCreated == old(containersCreated)
      ensures !old(containerInPage) ==> widget && !displayed && !shown
      ensures old(containerInPage) ==> displayed == old(displayed) && shown == old(shown)
      ensures isVisible == old(isVisible) && storedVisible == old(storedVisible)
      ensures outbox == old(outbox) && hideTimers == old(hideTimers)
    {
      if containerInPage {
        return;
      }
      containerInPage := true;
      containersCreated := containersCreated + 1;
      widget := true;
      displayed := false;
      shown := false;
    }

    /** The restore callback (lines 29-45): a stored truthy flag reopens the widget. With a
        stale container the flag is set but the widget is null and showing it throws. */
    method RestoreVisibility()
      requires Valid()
      modifies this
      ensures Valid()
      ensures old(storedVisible) == Some(true) ==> isVisible && (widget <==> !staleContainer)
      ensures old(storedVisible) == Some(true) && widget ==> displayed && shown
      ensures old(storedVisible) == Some(true) && !widget ==> !displayed && !shown
      ensures old(storedVisible) != Some(true) ==>
                widget == old(widget) && isVisible == old(isVisible) &&
                displayed == old(displayed) && shown == old(shown)
      ensures storedVisible == old(storedVisible) && outbox == old(outbox) && hideTimers == old(hideTimers)
    {
      if storedVisible == Some(true) {
        CreateWidget();
        isVisible := true;
        if widget {
          displayed := true;
          shown := true;
        }
        // otherwise `widgetIframe.style` (line 41) throws on null
      }
    }

    /** `TOGGLE_WIDGET` from the extension (lines 120-135). With a stale container the flag
        is negated and stored, and then reading `widgetIframe.style` throws on null. */
    method Toggle()
      requires Valid()
      modifies this
      ensures Valid() && (widget <==> !staleContainer)
      ensures isVisible == !old(isVisible) && storedVisible == Some(isVisible)
      ensures widget && isVisible ==> displayed && shown && hideTimers == old(hideTimers)
      ensures widget && !isVisible ==> !shown && displayed == old(displayed) && hideTimers == old(hideTimers) + [ToggleHide]
      ensures !widget ==> !displayed && !shown && hideTimers == old(hideTimers)
      ensures (widget ==> containersCreated == 1) && outbox == old(outbox)
    {
      if !widget {
        CreateWidget();
      }
      isVisible := !isVisible;
      storedVisible := Some(isVisible);
      if !widget {
        return;
      }
      if isVisible {
        displayed := true;
        shown := true;
      } else {
        shown := false;
        hideTimers := hideTimers + [ToggleHide];
      }
    }

    /** The first pending hide timer fires, with the visibility guard on both timers. */
    method FireHideTimer()
      requires Valid() && hideTimers != []
      modifies this
      ensures Valid()
      ensures hideTimers == old(hideTimers[1..])
      ensures displayed == DisplayedAfter(old(hideTimers[0]), isVisible, old(displayed))
      ensures isVisible == old(isVisible) && shown == old(shown) && widget == old(widget)
      ensures storedVisible == old(storedVisible) && outbox == old(outbox)
    {
      displayed := DisplayedAfter(hideTimers[0], isVisible, displayed);
      hideTimers := hideTimers[1..];
    }

    /** The first pending hide timer fires as the code has it: the close timer hides the
        widget without consulting the flag, which can leave the invariant broken. */
    method FireHideTimerAsWritten()
      requires hideTimers != []
      modifies this
      ensures hideTimers == old(hideTimers[1..])
      ensures displayed == DisplayedAfterAsWritten(old(hideTimers[0]), isVisible, old(displayed))
      ensures isVisible == old(isVisible) && shown == old(shown) && widget == old(widget)
      ensures containerInPage == old(containerInPage) && containersCreated == old(containersCreated)
      ensures storedVisible == old(storedVisible) && outbox == old(outbox)
    {
      displayed := DisplayedAfterAsWritten(hideTimers[0], isVisible, displayed);
      hideTimers := hideTimers[1..];
    }

    /** What one run of `executeStep(s)` did to the page, `pending` being its deferred
        revert: no match changes nothing; a match is highlighted, gets the plan's value and
        events, and has its saved style pending unless the action kind threw; no other
        element changes. */
    twostate predicate Executed(s: Json, new pending: Option<Highlight>)
      reads elements.Values
    {
      if SelectorOf(s).None? || SelectorOf(s).value !in elements then
        pending.None? && forall e :: e in elements.Values ==> unchanged(e)
      else
        var el := elements[SelectorOf(s).value];
        var p := PlanOf(s);
        && el.outline == HighlightOutline && el.bg == HighlightBg
        && el.events == old(el.events) + EventsOf(p)
        && el.value == (if p.SetValue? then p.v else old(el.value))
        && (StepSucceeds(s) ==> pending == Some(Highlight(el, old(el.outline), old(el.bg))))
        && (!StepSucceeds(s) ==> pending.None?)
        && forall e :: e in elements.Values && e != el ==> unchanged(e)
    }

    /** `executeStep` (lines 165-200), up to its deferred revert, which is returned. */
    method ExecuteStep(s: Json) returns (ok: bool, pending: Option<Highlight>)
      modifies elements.Values
      ensures ok == StepSucceeds(s)
      ensures Executed(s, pending)
    {
      var sel := SelectorOf(s);
      if sel.None? || sel.value !in elements {
        return false, None;
      }
      var el := elements[sel.value];
      var saved := Highlight(el, el.outline, el.bg);
      el.outline := HighlightOutline;
      el.bg := HighlightBg;
      var p := PlanOf(s);
      match p {
        case Throws =>
          return false, None;
        case Click =>
          el.events := el.events + [Clicked];
        case SetValue(v) =>
          el.value := v;
          el.events := el.events + [Dispatched(InputEvent, true), Dispatched(ChangeEvent, true), Dispatched(BlurEvent, true)];
        case NoOp =>
      }
      return true, Some(saved);
    }

    /** The deferred revert of a highlight (lines 193-196). */
    method RevertHighlight(h: Highlight)
      modifies h.el
      ensures h.el.outline == h.outline && h.el.bg == h.bg
      ensures h.el.value == old(h.el.value) && h.el.events == old(h.el.events)
    {
      h.el.outline := h.outline;
      h.el.bg := h.bg;
    }

    /** The `message` listener (lines 139-163). `scan` is what `scanFrame` returns. */
    method HandleWindowMessage(msg: Json, scan: Json) returns (pending: Option<Highlight>)
      requires Valid()
      modifies this, elements.Values
      ensures Valid()
      ensures !old(widget) ==>
                outbox == old(outbox) && pending.None? && isVisible == old(isVisible) &&
                shown == old(shown) && storedVisible == old(storedVisible) &&
                hideTimers == old(hideTimers) && forall e :: e in elements.Values ==> unchanged(e)
      ensures old(widget) && MessageType(msg) == Some("DVC_REQUEST_SCAN") ==>
                outbox == old(outbox) + [ScanResult(scan)] && pending.None?
      ensures old(widget) && MessageType(msg) == Some("DVC_REQUEST_STEP") ==>
                outbox == old(outbox) + [StepResult(StepSucceeds(StepOf(msg)))] && Executed(StepOf(msg), pending)
      ensures old(widget) && MessageType(msg) == Some("DVC_CLOSE_WIDGET") ==>
                !isVisible && !shown && storedVisible == Some(false) &&
                hideTimers == old(hideTimers) + [CloseHide] && outbox == old(outbox)
      ensures MessageType(msg) != Some("DVC_CLOSE_WIDGET") ==>
                isVisible == old(isVisible) && shown == old(shown) &&
                storedVisible == old(storedVisible) && hideTimers == old(hideTimers)
      ensures MessageType(msg) != Some("DVC_REQUEST_STEP") ==> forall e :: e in elements.Values ==> unchanged(e)
      ensures MessageType(msg) !in {Some("DVC_REQUEST_SCAN"), Some("DVC_REQUEST_STEP")} ==> outbox == old(outbox)
      ensures widget == old(widget) && displayed == old(displayed)
    {
      pending := None;
      if !widget {
        return;
      }
      var t := MessageType(msg);
      if t == Some("DVC_REQUEST_SCAN") {
        outbox := outbox + [ScanResult(scan)];
      }
      if t == Some("DVC_REQUEST_STEP") {
        var ok;
        ok, pending := ExecuteStep(StepOf(msg));
        outbox := outbox + [StepResult(ok)];
      }
      if t == Some("DVC_CLOSE_WIDGET") {
        isVisible := false;
        storedVisible := Some(false);
        shown := false;
        hideTimers := hideTimers + [CloseHide];
      }
    }
  }

  /** Close from the widget, then toggle it open before the 300 ms pass, as the code has
      it: the close timer fires last and leaves the widget flagged visible but hidden. */
  method CloseThenReopenAsWritten() returns (cs: ContentScript)
    ensures cs.isVisible && cs.shown && !cs.displayed && cs.storedVisible == Some(true)
    ensures !cs.Valid()
  {
    cs := new ContentScript(map[], Some(true), false);
    cs.RestoreVisibility();
    var close := JObj(map["type" := JStr("DVC_CLOSE_WIDGET")]);
    assert MessageType(close) == Some("DVC_CLOSE_WIDGET");
    var _ := cs.HandleWindowMessage(close, JNull);
    assert cs.hideTimers == [CloseHide];
    cs.Toggle();
    cs.FireHideTimerAsWritten();
  }

  /** The script injected again into a page that still holds the earlier container: the
      stored flag turns visible, no widget ever appears, every toggle only flips the stored
      flag, and every message from a frame is ignored. */
  method StaleContainerScenario(msg: Json) returns (cs: ContentScript)
    ensures !cs.widget && cs.containerInPage && !cs.displayed && !cs.shown
    ensures !cs.isVisible && cs.storedVisible == Some(false) && cs.outbox == []
  {
    cs := new ContentScript(map[], Some(true), true);
    cs.RestoreVisibility();
    assert cs.isVisible;
    cs.Toggle();
    var _ := cs.HandleWindowMessage(msg, JNull);
  }

  /** One fill step on a page with one field: the value is set, three events fire, and the
      revert restores the style. */
  method FillScenario()
  {
    var field := new Element("", "none", "white");
    var cs := new ContentScript(map["#name" := field], Some(true), false);
    cs.RestoreVisibility();
    var step := JObj(map["selector" := JStr("#name"), "action" := JStr("Fill"), "value" := JStr("An")]);
    var msg := JObj(map["type" := JStr("DVC_REQUEST_STEP"), "step" := step]);
    assert MessageType(msg) == Some("DVC_REQUEST_STEP") && StepOf(msg) == step;
    assert SelectorOf(step) == Some("#name");
    assert Lower("Fill") == "fill";
    assert ActionKind(step) == Some("fill");
    assert PlanOf(step) == SetValue("An");
    assert cs.StepSucceeds(step);
    var pending := cs.HandleWindowMessage(msg, JNull);
    assert cs.outbox == [StepResult(true)];
    assert field.value == "An" && |field.events| == 3;
    cs.RevertHighlight(pending.value);
    assert field.outline == "none" && field.bg == "white";
  }
}
