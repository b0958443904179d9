/** Message components (hertavilla/message/component.py): buttons, the
    size-limited component groups and the Panel segment that holds them.
    The pydantic models become datatypes, and their validators become
    functions that return the model or the error pydantic raises. */
module Components {
  import opened Wrappers

  const SMALL_MAX: nat := 4
  const MID_MAX: nat := 2
  const BIG_MAX: nat := 1

  /** `ButtonType`: how a button interacts. */
  datatype ButtonType = Callback | Input | Jump {
    function Value(): int {
      match this
      case Callback => 1
      case Input => 2
      case Jump => 3
    }
  }

  /** `ButtonType(v)`, None where pydantic rejects the value. */
  function ButtonTypeOf(v: int): (r: Option<ButtonType>)
    ensures r.Some? <==> 1 <= v <= 3
    ensures r.Some? ==> r.value.Value() == v
  {
    if v == 1 then Some(Callback) else if v == 2 then Some(Input) else if v == 3 then Some(Jump) else None
  }

  /** A `Component`, or its `Button` subclass (whose `type` is always 1). */
  datatype Component =
    | Plain(id: string, text: string, kind: int, needCallback: bool, extra: string)
    | Button(id: string, text: string, needCallback: bool, extra: string,
             cType: ButtonType, input: string, link: string, needToken: bool)
  {
    function Kind(): int {
      if Button? then 1 else kind
    }
  }

  /** What constructing a model raised. `KeyLookup` is the `KeyError` a
      Button validator raises when `c_type` itself failed validation:
      pydantic does not convert it into a validation error. */
  datatype ComponentError =
    | GroupTooLong(max: nat)        // ValueError "... component group max length is N"
    | PanelEmpty                    // ValueError "At least one of template_id, component group must be set"
    | InvalidButtonType             // ValidationError on c_type
    | InputRequired                 // ValueError "input is required"
    | LinkRequired                  // ValueError "link is required"
    | KeyLookup                     // KeyError('c_type')

  /** `Component(id=..., text=..., type=...)` with the declared defaults for
      the fields not passed. */
  function NewComponent(id: string, text: string, kind: int, needCallback: Option<bool>, extra: Option<string>): (c: Component)
    ensures c.Plain? && c.id == id && c.text == text && c.Kind() == kind
    ensures needCallback.None? ==> c.needCallback
    ensures needCallback.Some? ==> c.needCallback == needCallback.value
    ensures extra.None? ==> c.extra == ""
    ensures extra.Some? ==> c.extra == extra.value
  {
    Plain(id, text, kind,
          if needCallback.Some? then needCallback.value else true,
          if extra.Some? then extra.value else "")
  }

  // ---------------------------------------------------------------------
  // Component groups
  // ---------------------------------------------------------------------

  datatype GroupKind = Small | Mid | Big

  /** `SGroup`, `MGroup` and `BGroup` (alias `LGroup`) limits. */
  function GroupMax(k: GroupKind): nat {
    match k
    case Small => SMALL_MAX
    case Mid => MID_MAX
    case Big => BIG_MAX
  }

  /** The `__root__` validator of a group class. */
  function NewGroup(k: GroupKind, components: seq<Component>): (r: Result<seq<Component>, ComponentError>)
    ensures r.Success? <==> |components| <= GroupMax(k)
    ensures r.Success? ==> r.value == components
    ensures r.Failure? ==> r.error == GroupTooLong(GroupMax(k))
  {
    if |components| > GroupMax(k) then Failure(GroupTooLong(GroupMax(k))) else Success(components)
  }

  /** Concretely: a small group holds at most four components, a mid group
      two and a big group one. */
  lemma GroupLimits(cs: seq<Component>)
    ensures NewGroup(Small, cs).Success? <==> |cs| <= 4
    ensures NewGroup(Mid, cs).Success? <==> |cs| <= 2
    ensures NewGroup(Big, cs).Success? <==> |cs| <= 1
  {
  }

  // ---------------------------------------------------------------------
  // Panel
  // ---------------------------------------------------------------------

  /** A group list: the `__root__` of a `ComponentGroupList`. */
  type GroupList = seq<seq<Component>>

  datatype Panel = Panel(templateId: Option<int>, small: GroupList, mid: GroupList, big: GroupList)

  /** `Panel.__init__`. A group list that is passed counts as set even when
      it is empty: a pydantic model is always truthy. A template id of 0 is
      falsy and counts as not set. */
  function NewPanel(templateId: Option<int>, small: Option<GroupList>, mid: Option<GroupList>, big: Option<GroupList>): (r: Result<Panel, ComponentError>)
    ensures r.Failure? <==> (templateId.None? || templateId.value == 0) && small.None? && mid.None? && big.None?
    ensures r.Failure? ==> r.error == PanelEmpty
    ensures r.Success? ==> r.value.templateId == templateId
    ensures r.Success? ==> (small.None? ==> r.value.small == []) && (small.Some? ==> r.value.small == small.value)
    ensures r.Success? ==> (mid.None? ==> r.value.mid == []) && (mid.Some? ==> r.value.mid == mid.value)
    ensures r.Success? ==> (big.None? ==> r.value.big == []) && (big.Some? ==> r.value.big == big.value)
  {
    var templateSet := templateId.Some? && templateId.value != 0;
    if !templateSet && small.None? && mid.None? && big.None? then Failure(PanelEmpty)
    else
      Success(Panel(templateId,
                    if small.None? then [] else small.value,
                    if mid.None? then [] else mid.value,
                    if big.None? then [] else big.value))
  }

  /** What `Panel.to_dict` returns. */
  datatype PanelDict =
    | TemplateDict(templateId: int)
    | GroupsDict(smallList: GroupList, midList: GroupList, bigList: GroupList)

  /** `Panel.to_dict`: only the template id whenever one is stored (even 0),
      otherwise the three group lists. */
  function ToDict(p: Panel): (d: PanelDict)
    ensures d.TemplateDict? <==> p.templateId.Some?
    ensures d.TemplateDict? ==> d.templateId == p.templateId.value
    ensures d.GroupsDict? ==> d == GroupsDict(p.small, p.mid, p.big)
  {
    if p.templateId.Some? then TemplateDict(p.templateId.value) else GroupsDict(p.small, p.mid, p.big)
  }

  /** A panel built with template id 0 and some group list sends
      `{"template_id": 0}` and drops the groups it was given. */
  lemma ZeroTemplateDropsGroups(groups: GroupList)
    ensures NewPanel(Some(0), Some(groups), None, None).Success?
    ensures ToDict(NewPanel(Some(0), Some(groups), None, None).value) == TemplateDict(0)
  {
  }

  // ---------------------------------------------------------------------
  // Button
  // ---------------------------------------------------------------------

  /** The keyword arguments of `Button(...)`; None where one is not passed. */
  datatype ButtonArgs = ButtonArgs(
    id: string, text: string, cType: int,
    input: Option<string>, link: Option<string>,
    needCallback: Option<bool>, extra: Option<string>, needToken: Option<bool>)

  function OrElse<T>(o: Option<T>, d: T): T {
    if o.Some? then o.value else d
  }

  /** `Button(**args)` as pydantic v1 runs it: the `input` and `link`
      validators run only for a value that is passed, so a default ""
      is never checked; and when `c_type` failed, a validator that runs
      looks it up and raises `KeyError`. */
  function NewButton(a: ButtonArgs): (r: Result<Component, ComponentError>)
    ensures r.Success? ==> r.value.Button? && r.value.Kind() == 1
    ensures r.Success? ==> r.value.id == a.id && r.value.text == a.text && ButtonTypeOf(a.cType) == Some(r.value.cType)
    ensures r.Success? ==> r.value.input == OrElse(a.input, "") && r.value.link == OrElse(a.link, "")
    ensures r.Success? ==> r.value.needCallback == OrElse(a.needCallback, true)
    ensures r.Success? ==> r.value.extra == OrElse(a.extra, "") && r.value.needToken == OrElse(a.needToken, false)
    ensures r.Success? <==>
      && ButtonTypeOf(a.cType).Some?
      && !(a.input.Some? && a.cType == Input.Value() && a.input.value == "")
      && !(a.link.Some? && a.cType == Jump.Value() && a.link.value == "")
    ensures ButtonTypeOf(a.cType).None? && (a.input.Some? || a.link.Some?) ==> r == Failure(KeyLookup)
    ensures ButtonTypeOf(a.cType).None? && a.input.None? && a.link.None? ==> r == Failure(InvalidButtonType)
    ensures a.cType == Input.Value() && a.input == Some("") ==> r == Failure(InputRequired)
    ensures a.cType == Jump.Value() && a.link == Some("") ==> r == Failure(LinkRequired)
  {
    var ct := ButtonTypeOf(a.cType);
    if ct.None? then
      if a.input.Some? || a.link.Some? then Failure(KeyLookup) else Failure(InvalidButtonType)
    else if a.input.Some? && ct.value == Input && a.input.value == "" then Failure(InputRequired)
    else if a.link.Some? && ct.value == Jump && a.link.value == "" then Failure(LinkRequired)
    else
      Success(Button(a.id, a.text, OrElse(a.needCallback, true), OrElse(a.extra, ""),
                     ct.value, OrElse(a.input, ""), OrElse(a.link, ""), OrElse(a.needToken, false)))
  }

  /** An input button built without an `input` argument is accepted with
      an empty input, which the field's documentation forbids. */
  lemma InputButtonWithoutInputAccepted()
    ensures var r := NewButton(ButtonArgs("b", "Go", 2, None, None, None, None, None));
      r.Success? && r.value.cType == Input && r.value.input == ""
  {
  }

  /** The validators as they are evidently meant to work (`always=True`,
      reading `c_type` with a default): an input button always carries an
      input and a jump button a link. */
  function NewButtonChecked(a: ButtonArgs): (r: Result<Component, ComponentError>)
    ensures r.Success? ==> r.value.Button? && r.value.Kind() == 1
    ensures r.Success? ==> r.value.id == a.id && r.value.text == a.text && ButtonTypeOf(a.cType) == Some(r.value.cType)
    ensures r.Success? <==>
      && ButtonTypeOf(a.cType).Some?
      && !(a.cType == Input.Value() && OrElse(a.input, "") == "")
      && !(a.cType == Jump.Value() && OrElse(a.link, "") == "")
    ensures r.Success? ==> (r.value.cType == Input ==> r.value.input != "")
    ensures r.Success? ==> (r.value.cType == Jump ==> r.value.link != "")
    ensures r.Success? ==> NewButton(a) == r
    ensures ButtonTypeOf(a.cType).None? ==> r == Failure(InvalidButtonType)
    ensures a.cType == Input.Value() && OrElse(a.input, "") == "" ==> r == Failure(InputRequired)
    ensures a.cType == Jump.Value() && OrElse(a.link, "") == "" ==> r == Failure(LinkRequired)
  {
    var ct := ButtonTypeOf(a.cType);
    if ct.None? then Failure(InvalidButtonType)
    else if ct.value == Input && OrElse(a.input, "") == "" then Failure(InputRequired)
    else if ct.value == Jump && OrElse(a.link, "") == "" then Failure(LinkRequired)
    else
      Success(Button(a.id, a.text, OrElse(a.needCallback, true), OrElse(a.extra, ""),
                     ct.value, OrElse(a.input, ""), OrElse(a.link, ""), OrElse(a.needToken, false)))
  }

  /** The two differ only where a defaulted field skipped its validator:
      with a valid `c_type` and both `input` and `link` passed, the
      validators as written and as meant agree. */
  lemma ButtonChecksAgreeWhenPassed(a: ButtonArgs)
    requires ButtonTypeOf(a.cType).Some? && a.input.Some? && a.link.Some?
    ensures NewButtonChecked(a) == NewButton(a)
  {
  }
}
