/** The page extractor (utils/extractor.ts): the record it reports for each form control,
    button, link and form of the page, and the label it finds for a control. Each page
    element is an abstract record of the attributes and properties the extractor reads;
    which elements each selector query returns is given. */
module Extractor {
  import opened JsStrings
  import opened Json
  import opened Types

  // ---- attributes -------------------------------------------------------------------------

  /** `el.getAttribute(k)`: `None` is `null`. */
  function Attr(attrs: map<string, string>, k: string): (r: Option<string>)
    ensures r.Some? <==> k in attrs
  {
    if k in attrs then Some(attrs[k]) else None
  }

  /** `x || null` on a string that may be missing. */
  function OrNull(o: Option<string>): (r: Option<string>)
    ensures r.Some? <==> o.Some? && o.value != ""
    ensures r.Some? ==> r == o
  {
    if o.Some? && o.value != "" then o else None
  }

  /** `x || null` on a string. */
  function TextOrNull(s: string): (r: Option<string>)
    ensures r.None? <==> s == ""
    ensures r.Some? ==> r.value == s
  {
    if s == "" then None else Some(s)
  }

  /** `el.getAttribute(k) || null`; `el.id` and `el.className` reflect the `id` and
      `class` attributes, so they read the same way. */
  function AttrOrNull(attrs: map<string, string>, k: string): (r: Option<string>)
    ensures r.Some? <==> k in attrs && attrs[k] != ""
    ensures r.Some? ==> r.value == attrs[k]
  {
    OrNull(Attr(attrs, k))
  }

  /** `getAttributes` (lines 17-26): every attribute that is missing or empty is null. */
  function AttributesOf(attrs: map<string, string>): (b: BaseAttributes)
    ensures b.id == AttrOrNull(attrs, "id") && b.name == AttrOrNull(attrs, "name")
    ensures b.className == AttrOrNull(attrs, "class") && b.title == AttrOrNull(attrs, "title")
    ensures b.ariaLabel == AttrOrNull(attrs, "aria-label") && b.role == AttrOrNull(attrs, "role")
  {
    BaseAttributes(AttrOrNull(attrs, "id"), AttrOrNull(attrs, "name"), AttrOrNull(attrs, "class"),
                   AttrOrNull(attrs, "title"), AttrOrNull(attrs, "aria-label"), AttrOrNull(attrs, "role"))
  }

  /** No reported attribute is the empty string. */
  lemma AttributesNeverEmpty(attrs: map<string, string>)
    ensures var b := AttributesOf(attrs);
      forall o :: o in [b.id, b.name, b.className, b.title, b.ariaLabel, b.role] ==> o.None? || o.value != ""
  {
  }

  /** The six attributes are read by name and nothing else: setting any other attribute
      does not change what is reported. */
  lemma AttributesIgnoreOtherKeys(attrs: map<string, string>, k: string, v: string)
    requires k !in ["id", "name", "class", "title", "aria-label", "role"]
    ensures AttributesOf(attrs[k := v]) == AttributesOf(attrs)
  {
    assert AttrOrNull(attrs[k := v], "id") == AttrOrNull(attrs, "id");
    assert AttrOrNull(attrs[k := v], "name") == AttrOrNull(attrs, "name");
    assert AttrOrNull(attrs[k := v], "class") == AttrOrNull(attrs, "class");
    assert AttrOrNull(attrs[k := v], "title") == AttrOrNull(attrs, "title");
    assert AttrOrNull(attrs[k := v], "aria-label") == AttrOrNull(attrs, "aria-label");
    assert AttrOrNull(attrs[k := v], "role") == AttrOrNull(attrs, "role");
  }

  // ---- labels -----------------------------------------------------------------------------

  /** Where a label for a control can come from. */
  datatype LabelContext = LabelContext(
    /** text of the first label-like element in the closest form-group-like container,
        when there is one and it is not the control itself */
    containerLabel: Option<string>,
    /** text of the previous sibling, when it is a `LABEL` or has class `label-text` */
    previousLabel: Option<string>,
    /** text of the first `label[for=<id>]` in the document */
    forLabel: Option<string>,
    /** text of the closest enclosing `label` */
    wrappingLabel: Option<string>)

  /** `findLabel` (lines 28-49). The first source that applies decides, even when its text
      is empty and the result is `null`. */
  function FindLabel(attrs: map<string, string>, ctx: LabelContext): (r: Option<string>)
    ensures r.Some? ==> r.value != ""
    ensures ctx.containerLabel.Some? ==> r == TextOrNull(Trim(RemoveChar(ctx.containerLabel.value, '*')))
    ensures ctx.containerLabel.Some? && r.Some? ==> forall i :: 0 <= i < |r.value| ==> r.value[i] != '*'
  {
    if ctx.containerLabel.Some? then TextOrNull(Trim(RemoveChar(ctx.containerLabel.value, '*')))
    else if ctx.previousLabel.Some? then TextOrNull(Trim(ctx.previousLabel.value))
    else if AttrOrNull(attrs, "id").Some? && ctx.forLabel.Some? then TextOrNull(Trim(ctx.forLabel.value))
    else if ctx.wrappingLabel.Some? then TextOrNull(Trim(ctx.wrappingLabel.value))
    else if AttrOrNull(attrs, "aria-label").Some? then AttrOrNull(attrs, "aria-label")
    else if AttrOrNull(attrs, "placeholder").Some? then AttrOrNull(attrs, "placeholder")
    else AttrOrNull(attrs, "title")
  }

  /** The eight sources in order: `Some(result)` for one that applies. */
  function LabelSources(attrs: map<string, string>, ctx: LabelContext): (cs: seq<Option<Option<string>>>)
    ensures |cs| == 8 && cs[7] == Some(None)
  {
    [ if ctx.containerLabel.Some? then Some(TextOrNull(Trim(RemoveChar(ctx.containerLabel.value, '*')))) else None,
      if ctx.previousLabel.Some? then Some(TextOrNull(Trim(ctx.previousLabel.value))) else None,
      if AttrOrNull(attrs, "id").Some? && ctx.forLabel.Some? then Some(TextOrNull(Trim(ctx.forLabel.value))) else None,
      if ctx.wrappingLabel.Some? then Some(TextOrNull(Trim(ctx.wrappingLabel.value))) else None,
      if AttrOrNull(attrs, "aria-label").Some? then Some(AttrOrNull(attrs, "aria-label")) else None,
      if AttrOrNull(attrs, "placeholder").Some? then Some(AttrOrNull(attrs, "placeholder")) else None,
      if AttrOrNull(attrs, "title").Some? then Some(AttrOrNull(attrs, "title")) else None,
      Some(None) ]
  }

  /** The result of the first source that applies; `null` when none does. */
  function FirstApplicable(cs: seq<Option<Option<string>>>): Option<string>
  {
    if cs == [] then None
    else if cs[0].Some? then cs[0].value
    else FirstApplicable(cs[1..])
  }

  /** `FirstApplicable` returns the source at the first index that applies. */
  lemma {:induction false} FirstApplicableAt(cs: seq<Option<Option<string>>>, i: nat)
    requires i < |cs| && cs[i].Some?
    requires forall j :: 0 <= j < i ==> cs[j].None?
    ensures FirstApplicable(cs) == cs[i].value
  {
    if i > 0 {
      FirstApplicableAt(cs[1..], i - 1);
    }
  }

  /** `findLabel` is the first applicable source of the ordered list. */
  lemma FindLabelIsFirstApplicable(attrs: map<string, string>, ctx: LabelContext)
    ensures FindLabel(attrs, ctx) == FirstApplicable(LabelSources(attrs, ctx))
  {
    var cs := LabelSources(attrs, ctx);
    var i := if cs[0].Some? then 0 else if cs[1].Some? then 1 else if cs[2].Some? then 2
             else if cs[3].Some? then 3 else if cs[4].Some? then 4 else if cs[5].Some? then 5
             else if cs[6].Some? then 6 else 7;
    FirstApplicableAt(cs, i);
  }

  /** An earlier source shadows every later one: a container label with only asterisks
      and spaces yields `null` although the control has an `aria-label`. */
  lemma EmptyContainerLabelShadows(attrs: map<string, string>, ctx: LabelContext)
    requires ctx.containerLabel == Some("* ")
    ensures FindLabel(attrs, ctx).None?
  {
    assert RemoveChar("* ", '*') == " ";
    assert Trim(" ") == "";
  }

  // ---- per-element rules ------------------------------------------------------------------

  const PasswordMask: string := "********"

  /** Line 77: a password field's value is never reported. */
  function ReportedValue(inputType: string, value: string): (r: Option<string>)
    ensures inputType == "password" ==> r == Some(PasswordMask)
    ensures inputType != "password" ==> r == TextOrNull(value)
    ensures r != Some("")
  {
    if inputType == "password" then Some(PasswordMask) else TextOrNull(value)
  }

  /** Line 155: whether a link triggers script rather than navigating. */
  function LinkTypeOf(onclick: Option<string>, href: Option<string>): (t: LinkType)
    ensures t != Javascript
    ensures t == Trigger <==>
              OrNull(onclick).Some? || href == Some("#") ||
              (href.Some? && (StartsWith(href.value, "javascript:") || Contains(href.value, "choose_login")))
  {
    if OrNull(onclick).Some? || href == Some("#") ||
       (OrNull(href).Some? && (StartsWith(href.value, "javascript:") || Contains(href.value, "choose_login")))
    then Trigger
    else Navigation
  }

  /** Line 165: the form's method attribute upper-cased, `GET` when missing or empty. */
  function FormMethod(m: Option<string>): (r: string)
    ensures r != [] && NoAsciiLower(r)
    ensures OrNull(m).Some? ==> r == Upper(m.value)
    ensures OrNull(m).None? ==> r == "GET"
  {
    UpperHasNoLower(if OrNull(m).Some? then m.value else "GET");
    Upper(if OrNull(m).Some? then m.value else "GET")
  }

  /** The reported method is a fixed point: reading it back changes nothing. */
  lemma FormMethodCanonical(m: Option<string>)
    ensures FormMethod(Some(FormMethod(m))) == FormMethod(m)
  {
    UpperIdempotent(if OrNull(m).Some? then m.value else "GET");
  }

  /** Line 138: the class name mentions `dropdown` in any letter case. */
  function IsDropdown(className: string): (r: bool)
    ensures r <==> exists i :: OccursAt(Lower(className), "dropdown", i)
  {
    var lower := Lower(className);
    var r := Contains(lower, "dropdown");
    assert lower == Lower(className);
    r
  }

  lemma DropdownIgnoresCase(className: string)
    ensures IsDropdown(Upper(className)) == IsDropdown(className)
  {
    LowerOfUpper(className);
  }

  // ---- page elements and their records ----------------------------------------------------

  datatype PageInput = PageInput(
    attrs: map<string, string>,
    /** the `type` property */
    inputType: string,
    value: string,
    checked: bool,
    required: bool,
    disabled: bool,
    readOnly: bool,
    placeholder: string,
    labels: LabelContext)

  datatype PageOption = PageOption(value: string, text: string, selected: bool, disabled: bool)

  datatype PageSelect = PageSelect(
    attrs: map<string, string>,
    disabled: bool,
    required: bool,
    options: seq<PageOption>,
    labels: LabelContext)

  datatype PageTextarea = PageTextarea(
    attrs: map<string, string>,
    value: string,
    placeholder: string,
    required: bool,
    disabled: bool,
    readOnly: bool,
    labels: LabelContext)

  datatype PageButton = PageButton(
    attrs: map<string, string>,
    /** `el.tagName`, upper-case as the document reports it */
    tagName: string,
    /** whether the element is an `input` */
    isInputElement: bool,
    value: string,
    textContent: string,
    /** `el.disabled`; `false` for elements without that property */
    disabled: bool,
    /** whether the login keyword pattern matches its attributes or text */
    matchesLoginKeywords: bool)

  datatype PageLink = PageLink(attrs: map<string, string>, textContent: string)

  datatype PageForm = PageForm(attrs: map<string, string>, counts: ElementCount)

  /** What each of the six selector queries returns, in document order. */
  datatype Page = Page(
    inputs: seq<PageInput>,
    selects: seq<PageSelect>,
    textareas: seq<PageTextarea>,
    buttons: seq<PageButton>,
    links: seq<PageLink>,
    forms: seq<PageForm>)

  /** Lines 73-86. */
  function InputRecord(e: PageInput): (r: InputElement)
    ensures r.tag == "input" && r.inputType != ""
    ensures e.inputType == "password" ==> r.value == Some(PasswordMask)
    ensures r.required <==> e.required || Attr(e.attrs, "required") == Some("required")
    ensures r.labelText == FindLabel(e.attrs, e.labels)
  {
    InputElement(AttributesOf(e.attrs), "input", if e.inputType == "" then "text" else e.inputType,
                 ReportedValue(e.inputType, e.value), e.checked, TextOrNull(e.placeholder),
                 e.required || Attr(e.attrs, "required") == Some("required"), e.disabled, e.readOnly,
                 AttrOrNull(e.attrs, "maxlength"), AttrOrNull(e.attrs, "pattern"), FindLabel(e.attrs, e.labels))
  }

  function OptionRecord(o: PageOption): (r: SelectOption)
    ensures r.value == TextOrNull(o.value) && r.text == o.text
    ensures r.value != Some("")
  {
    SelectOption(TextOrNull(o.value), o.text, o.selected, o.disabled)
  }

  /** Lines 89-107. */
  function SelectRecord(e: PageSelect): (r: SelectElement)
    ensures r.tag == "select" && r.optionsCount == |r.options| == |e.options|
    ensures forall i :: 0 <= i < |e.options| ==> r.options[i] == OptionRecord(e.options[i])
    ensures r.onchange == Attr(e.attrs, "onchange")
  {
    var options := seq(|e.options|, i requires 0 <= i < |e.options| => OptionRecord(e.options[i]));
    SelectElement(AttributesOf(e.attrs), "select", e.disabled, e.required, Attr(e.attrs, "onchange"),
                  FindLabel(e.attrs, e.labels), options, |options|)
  }

  /** Lines 110-123. */
  function TextareaRecord(e: PageTextarea): (r: TextareaElement)
    ensures r.tag == "textarea" && r.value == e.value
    ensures r.rows == Attr(e.attrs, "rows") && r.cols == Attr(e.attrs, "cols")
    ensures r.placeholder != Some("") && r.labelText != Some("")
  {
    TextareaElement(AttributesOf(e.attrs), "textarea", e.value, TextOrNull(e.placeholder), e.required,
                    e.disabled, e.readOnly, Attr(e.attrs, "rows"), Attr(e.attrs, "cols"), FindLabel(e.attrs, e.labels))
  }

  /** `getTextContent(el)` of a button: an input's value, else the trimmed text. */
  function ButtonText(e: PageButton): (t: string)
    ensures e.isInputElement ==> t == e.value
    ensures !e.isInputElement ==> t == Trim(e.textContent)
    ensures !e.isInputElement && t != "" ==> !IsJsSpace(t[0]) && !IsJsSpace(t[|t| - 1])
  {
    if e.isInputElement then e.value else Trim(e.textContent)
  }

  /** Lines 126-139; the text is the value of an `input`, else the trimmed text content. */
  function ButtonRecord(e: PageButton): (r: ButtonElement)
    ensures r.tag == Lower(e.tagName) && NoAsciiUpper(r.tag) && |r.tag| == |e.tagName|
    ensures e.isInputElement ==> r.text == e.value && r.value == Some(e.value)
    ensures !e.isInputElement ==> r.text == Trim(e.textContent) && r.value.None?
    ensures !e.isInputElement && r.text != "" ==> !IsJsSpace(r.text[0]) && !IsJsSpace(r.text[|r.text| - 1])
    ensures r.disabled <==> e.disabled || Attr(e.attrs, "aria-disabled") == Some("true")
    ensures r.isDropdown == IsDropdown(if "class" in e.attrs then e.attrs["class"] else "")
  {
    LowerHasNoUpper(e.tagName);
    ButtonElement(AttributesOf(e.attrs), Lower(e.tagName), AttrOrNull(e.attrs, "type"),
                  if e.isInputElement then Some(e.value) else None, ButtonText(e), Attr(e.attrs, "onclick"),
                  e.disabled || Attr(e.attrs, "aria-disabled") == Some("true"), e.matchesLoginKeywords,
                  IsDropdown(if "class" in e.attrs then e.attrs["class"] else ""))
  }

  /** Lines 142-157. */
  function LinkRecord(e: PageLink): (r: LinkElement)
    ensures r.tag == "a" && r.href == AttrOrNull(e.attrs, "href")
    ensures r.linkType == LinkTypeOf(Attr(e.attrs, "onclick"), Attr(e.attrs, "href"))
    ensures r.text == TextOrNull(Trim(e.textContent))
    ensures r.href != Some("") && r.linkType != Javascript
    ensures r.text.Some? ==> r.text.value != "" && !IsJsSpace(r.text.value[0]) && !IsJsSpace(r.text.value[|r.text.value| - 1])
  {
    LinkElement(AttributesOf(e.attrs), "a", AttrOrNull(e.attrs, "href"), TextOrNull(Trim(e.textContent)),
                AttrOrNull(e.attrs, "onclick"), AttrOrNull(e.attrs, "target"), AttrOrNull(e.attrs, "data-toggle"),
                AttrOrNull(e.attrs, "data-target"), LinkTypeOf(Attr(e.attrs, "onclick"), Attr(e.attrs, "href")),
                Attr(e.attrs, "aria-disabled") == Some("true"))
  }

  /** Lines 161-174. */
  function FormRecord(e: PageForm): (r: FormElement)
    ensures r.httpMethod == FormMethod(Attr(e.attrs, "method")) && r.elementCount == e.counts
    ensures r.httpMethod != "" && NoAsciiLower(r.httpMethod)
    ensures r.id != Some("") && r.name != Some("") && r.action != Some("")
  {
    FormElement(AttrOrNull(e.attrs, "id"), AttrOrNull(e.attrs, "name"), AttrOrNull(e.attrs, "action"),
                FormMethod(Attr(e.attrs, "method")), AttrOrNull(e.attrs, "enctype"), AttrOrNull(e.attrs, "aria-label"),
                e.counts)
  }

  // ---- the scan -----------------------------------------------------------------------------

  /** One `querySelectorAll(...).forEach(el => list.push(record(el)))` loop. */
  method Collect<A, B>(elements: seq<A>, record: A -> B) returns (list: seq<B>)
    ensures |list| == |elements|
    ensures forall i :: 0 <= i < |elements| ==> list[i] == record(elements[i])
  {
    list := [];
    var i := 0;
    while i < |elements|
      invariant i <= |elements| && |list| == i
      invariant forall j :: 0 <= j < i ==> list[j] == record(elements[j])
    {
      list := list + [record(elements[i])];
      i := i + 1;
    }
  }

  /** `scanDocument` (lines 63-187): one record per element each query returns, in order.
      `url` and `extractedAt` are the location and the clock reading. */
  method ScanDocument(page: Page, url: string, extractedAt: string) returns (data: ExtractedData)
    ensures data.url == url && data.extractedAt == Some(extractedAt) && data.userAnswers.None?
    ensures |data.inputs| == |page.inputs| && forall i :: 0 <= i < |page.inputs| ==> data.inputs[i] == InputRecord(page.inputs[i])
    ensures |data.selects| == |page.selects| && forall i :: 0 <= i < |page.selects| ==> data.selects[i] == SelectRecord(page.selects[i])
    ensures |data.textareas| == |page.textareas| &&
            forall i :: 0 <= i < |page.textareas| ==> data.textareas[i] == TextareaRecord(page.textareas[i])
    ensures |data.buttons| == |page.buttons| && forall i :: 0 <= i < |page.buttons| ==> data.buttons[i] == ButtonRecord(page.buttons[i])
    ensures |data.links| == |page.links| && forall i :: 0 <= i < |page.links| ==> data.links[i] == LinkRecord(page.links[i])
    ensures |data.forms| == |page.forms| && forall i :: 0 <= i < |page.forms| ==> data.forms[i] == FormRecord(page.forms[i])
    ensures forall i :: 0 <= i < |page.inputs| && page.inputs[i].inputType == "password" ==>
              data.inputs[i].value == Some(PasswordMask)
  {
    var inputs := Collect(page.inputs, InputRecord);
    var selects := Collect(page.selects, SelectRecord);
    var textareas := Collect(page.textareas, TextareaRecord);
    var buttons := Collect(page.buttons, ButtonRecord);
    var links := Collect(page.links, LinkRecord);
    var forms := Collect(page.forms, FormRecord);
    data := ExtractedData(url, inputs, selects, textareas, buttons, links, forms, None, Some(extractedAt));
  }

  /** No password value leaves the page: in any list of input records of a page, as a scan
      reports them, every password input is masked and no reported value is a password's. */
  lemma ScanMasksPasswords(page: Page, data: ExtractedData)
    requires |data.inputs| == |page.inputs|
    requires forall i :: 0 <= i < |page.inputs| ==> data.inputs[i] == InputRecord(page.inputs[i])
    ensures forall i :: 0 <= i < |page.inputs| && page.inputs[i].inputType == "password" ==>
              data.inputs[i].value == Some(PasswordMask)
    ensures forall i :: 0 <= i < |data.inputs| && data.inputs[i].value.Some? && data.inputs[i].value != Some(PasswordMask) ==>
              page.inputs[i].inputType != "password" && data.inputs[i].value == Some(page.inputs[i].value)
  {
  }
}
