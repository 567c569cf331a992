/**
 The widget toolkit of the menu: a tree of forms, each a plain form, a row,
 a column, a toggle button, a button, a label or a horizontal slider. Every
 widget has a palette, a position, optional outline and fill colours and a
 list of children; what differs is kept in its `Kind`.

 The operations follow the `Form` trait: hit testing, adding a child,
 `update` (layout and the events the widgets queued), hover, unhover,
 release, rebinding data from events, and drawing.
 */
module MenuForms {
  import opened Base
  import opened MenuGfx
  import CbRange

  /** A widget's event id (a UUID in the engine; only equality matters). */
  type EventId = nat

  /** `menu_events::Events`. */
  datatype MenuEvent = SingleRangeChange(range: CbRange.NormalizedRange) | BoolValueChange(flag: bool)

  /** An event together with the id of the widget it concerns. */
  type Binding = (EventId, MenuEvent)

  /** What distinguishes the widgets. */
  datatype Kind =
    | PlainForm
    | Row
    | Column
    | Toggle(value: bool)
    | Button
    | Label(text: string, textColor: Option<Color>)
    | Slider(eventId: EventId, pending: seq<Binding>, xValue: CbRange.NormalizedRange, startXy: Option<(nat, nat)>)

  /** A widget and its children. */
  datatype Form = Form(kind: Kind, palette: Palette, position: FormPosition, outline: Option<Color>, fill: Option<Color>, children: seq<Form>)

  const SQUARE: FormPosition := FormPosition(0, 0, 100, 100)

  /** `CbForm::new`: 640×480 at the origin, outlined in quaternary, filled in secondary. */
  function NewPlainForm(p: Palette): (f: Form)
    ensures f.kind == PlainForm && f.position == FormPosition(0, 0, 480, 640)
    ensures f.outline == Some(p.quaternary) && f.fill == Some(p.secondary) && f.children == []
  {
    Form(PlainForm, p, FormPosition(0, 0, 480, 640), Some(p.quaternary), Some(p.secondary), [])
  }

  /** `CbFormRow::new` and `CbFormColumn::new`: a wrapped plain form. */
  function NewRow(p: Palette): (f: Form)
    ensures f == NewPlainForm(p).(kind := Row)
  {
    NewPlainForm(p).(kind := Row)
  }

  function NewColumn(p: Palette): (f: Form)
    ensures f == NewPlainForm(p).(kind := Column)
  {
    NewPlainForm(p).(kind := Column)
  }

  /** `CbButtonToggle::new`: on, filled in primary, outlined in quaternary, 100×100. */
  function NewToggle(p: Palette): (f: Form)
    ensures f.kind == Toggle(true) && f.fill == Some(p.primary) && f.outline == Some(p.quaternary)
    ensures f.position == SQUARE && f.children == []
  {
    Form(Toggle(true), p, SQUARE, Some(p.quaternary), Some(p.primary), [])
  }

  /** `CbButton::new`: filled in primary, outlined in quaternary, 100×100. */
  function NewButton(p: Palette): (f: Form)
    ensures f.kind == Button && f.fill == Some(p.primary) && f.outline == Some(p.quaternary)
    ensures f.position == SQUARE && f.children == []
  {
    Form(Button, p, SQUARE, Some(p.quaternary), Some(p.primary), [])
  }

  /** `CbLabel::new`: the text, drawn in quaternary. */
  function NewLabel(p: Palette, text: string): (f: Form)
    ensures f.kind == Label(text, Some(p.quaternary)) && f.position == SQUARE && f.children == []
  {
    Form(Label(text, Some(p.quaternary)), p, SQUARE, None, None, [])
  }

  /**
   `CbSliderHorizontal::new`: a fresh event id (a parameter here), no
   pending events, the default range, filled in primary, outlined in
   quaternary.
   */
  function NewSlider(p: Palette, id: EventId, ops: CbRange.RangeOps): (f: Form)
    ensures f.kind == Slider(id, [], ops.default, None)
    ensures f.fill == Some(p.primary) && f.outline == Some(p.quaternary) && f.position == SQUARE && f.children == []
  {
    Form(Slider(id, [], ops.default, None), p, SQUARE, Some(p.quaternary), Some(p.primary), [])
  }

  /** `subscribe_to_event` of a slider: its own event id. */
  function SubscribeToEvent(f: Form): (id: EventId)
    requires f.kind.Slider?
    ensures id == f.kind.eventId
  {
    f.kind.eventId
  }

  /**
   The default `add_child`: the child is moved to the parent's corner and
   given the parent's height as its width (its height is kept), then
   appended.
   */
  function AddChildDefault(f: Form, c: Form): (r: Form)
    ensures r.kind == f.kind && r.position == f.position && |r.children| == |f.children| + 1
    ensures r.children[..|f.children|] == f.children
    ensures var placed := r.children[|f.children|];
      && placed.position == FormPosition(f.position.x, f.position.y, c.position.height, f.position.height)
      && placed == c.(position := placed.position)
  {
    var pos := FormPosition(f.position.x, f.position.y, c.position.height, f.position.height);
    f.(children := f.children + [c.(position := pos)])
  }

  /** No child before the `i`-th contains (x, y). */
  predicate NoHitBefore(f: Form, x: nat, y: nat, i: nat)
  {
    forall k :: 0 <= k < i && k < |f.children| ==> !InPosition(f.children[k].position, x, y)
  }

  /**
   `get_child_mut`: inside the form, the first child containing the point
   answers with its own deepest hit, or itself if it has none; outside the
   form, or when no child contains the point, there is no hit.
   */
  function GetChild(f: Form, x: nat, y: nat): (r: Option<Form>)
    ensures !InPosition(f.position, x, y) ==> r.None?
    ensures r.Some? ==> InPosition(r.value.position, x, y)
    ensures r.Some? ==> exists k :: 0 <= k < |f.children| && NoHitBefore(f, x, y, k)
                          && InPosition(f.children[k].position, x, y)
                          && r == (if GetChild(f.children[k], x, y).Some? then GetChild(f.children[k], x, y) else Some(f.children[k]))
    ensures InPosition(f.position, x, y) && (exists k :: 0 <= k < |f.children| && InPosition(f.children[k].position, x, y)) ==> r.Some?
    decreases f, 1
  {
    if !InPosition(f.position, x, y) then None else FirstHit(f, x, y, 0)
  }

  function FirstHit(f: Form, x: nat, y: nat, i: nat): (r: Option<Form>)
    requires NoHitBefore(f, x, y, i)
    ensures r.Some? ==> InPosition(r.value.position, x, y)
    ensures r.Some? ==> exists k :: i <= k < |f.children| && NoHitBefore(f, x, y, k)
                          && InPosition(f.children[k].position, x, y)
                          && r == (if GetChild(f.children[k], x, y).Some? then GetChild(f.children[k], x, y) else Some(f.children[k]))
    ensures (exists k :: i <= k < |f.children| && InPosition(f.children[k].position, x, y)) ==> r.Some?
    decreases f, 0, |f.children| - i
  {
    if i >= |f.children| then None
    else if InPosition(f.children[i].position, x, y) then
      var deeper := GetChild(f.children[i], x, y);
      if deeper.Some? then deeper else Some(f.children[i])
    else FirstHit(f, x, y, i + 1)
  }

  /** `f` moved to `pos`, if one is given. */
  function Place(f: Form, pos: Option<FormPosition>): Form
  {
    if pos.Some? then f.(position := pos.value) else f
  }

  /**
   The position a row or column gives child `i` of `k` when it lays its
   children out: equal shares of its width (row) or height (column); other
   widgets leave their children where they are.
   */
  function LayoutPos(parent: Form, k: nat, i: nat): Option<FormPosition>
    requires i < k
  {
    var p := parent.position;
    match parent.kind
    case Row => Some(FormPosition(p.x + i * (p.width / k), p.y, p.height, p.width / k))
    case Column => Some(FormPosition(p.x, p.y + i * (p.height / k), p.height / k, p.width))
    case _ => None
  }

  /** A kind after `update`: a slider's queue is emptied, nothing else changes. */
  function Drained(k: Kind): Kind
  {
    if k.Slider? then k.(pending := []) else k
  }

  /**
   `update` of `f` after it was moved to `pos`: rows and columns lay out
   their children, every child is updated, and the queued events are
   returned: a slider's own queue first, then its children's events in
   child order. A toggle and a column drop their children's events (their
   `update` returns nothing).
   */
  function UpdateAt(f: Form, pos: Option<FormPosition>): (r: (Form, seq<Binding>))
    ensures r.0.kind == Drained(f.kind) && r.0.position == Place(f, pos).position
    ensures r.0.palette == f.palette && r.0.outline == f.outline && r.0.fill == f.fill
    ensures |r.0.children| == |f.children|
    ensures forall j :: 0 <= j < |f.children| ==> r.0.children[j].kind == Drained(f.children[j].kind)
    ensures forall j :: 0 <= j < |f.children| ==>
      r.0.children[j].position == Place(f.children[j], LayoutPos(Place(f, pos), |f.children|, j)).position
    ensures f.kind.Slider? ==> |r.1| >= |f.kind.pending| && r.1[..|f.kind.pending|] == f.kind.pending
    ensures f.kind.Toggle? || f.kind.Column? ==> r.1 == []
    decreases f, 1
  {
    var g := Place(f, pos);
    var (cs, childEvents) := UpdateChildren(f, pos, 0);
    match g.kind
    case Slider(id, pending, xv, s) => (g.(kind := Slider(id, [], xv, s), children := cs), pending + childEvents)
    case Toggle(_) => (g.(children := cs), [])
    case Column => (g.(children := cs), [])
    case _ => (g.(children := cs), childEvents)
  }

  /** Children `i..` of `f` (moved to `pos`), updated in order, with their events concatenated. */
  function UpdateChildren(f: Form, pos: Option<FormPosition>, i: nat): (r: (seq<Form>, seq<Binding>))
    requires i <= |f.children|
    ensures |r.0| == |f.children| - i
    ensures forall j :: 0 <= j < |r.0| ==> r.0[j].kind == Drained(f.children[i + j].kind)
    ensures forall j :: 0 <= j < |r.0| ==>
      r.0[j].position == Place(f.children[i + j], LayoutPos(Place(f, pos), |f.children|, i + j)).position
    decreases f, 0, |f.children| - i
  {
    if i == |f.children| then ([], [])
    else
      var (c, e) := UpdateAt(f.children[i], LayoutPos(Place(f, pos), |f.children|, i));
      var (cs, es) := UpdateChildren(f, pos, i + 1);
      ([c] + cs, e + es)
  }

  /** `update`. */
  function Update(f: Form): (Form, seq<Binding>)
  {
    UpdateAt(f, None)
  }

  /** `add_child` of a row or column: append, then lay out (an update whose events are dropped). */
  function AddChildRelayout(f: Form, c: Form): (r: Form)
    requires f.kind.Row? || f.kind.Column?
    ensures r.kind == f.kind && r.position == f.position && |r.children| == |f.children| + 1
    ensures forall j :: 0 <= j < |f.children| ==> r.children[j].kind == Drained(f.children[j].kind)
    ensures r.children[|f.children|].kind == Drained(c.kind)
  {
    UpdateAt(f.(children := f.children + [c]), None).0
  }

  /** `add_child` of any widget. */
  function AddChild(f: Form, c: Form): (r: Form)
    ensures r.kind == Drained(f.kind) || r.kind == f.kind
    ensures |r.children| == |f.children| + 1
  {
    if f.kind.Row? || f.kind.Column? then AddChildRelayout(f, c) else AddChildDefault(f, c)
  }

  /** The fill of a toggle: tertiary when on, background when off. */
  function ToggleFill(p: Palette, value: bool): Option<Color>
  {
    Some(if value then p.tertiary else p.background)
  }

  /** `on_hover`: toggles and buttons take the accent fill; the others ignore it. */
  function OnHover(f: Form): (r: Form)
    ensures f.kind.Toggle? || f.kind.Button? ==> r == f.(fill := Some(f.palette.accent))
    ensures !(f.kind.Toggle? || f.kind.Button?) ==> r == f
  {
    match f.kind
    case Toggle(_) => f.(fill := Some(f.palette.accent))
    case Button => f.(fill := Some(f.palette.accent))
    case _ => f
  }

  /**
   `on_unhover`: every widget unhovers its children; a toggle also resets
   its fill from its value and a button to primary.
   */
  function OnUnhover(f: Form): (r: Form)
    ensures r.kind == f.kind && r.position == f.position && r.palette == f.palette && r.outline == f.outline
    ensures |r.children| == |f.children|
    ensures forall j :: 0 <= j < |f.children| ==> r.children[j] == OnUnhover(f.children[j])
    ensures f.kind.Toggle? ==> r.fill == ToggleFill(f.palette, f.kind.value)
    ensures f.kind.Button? ==> r.fill == Some(f.palette.primary)
    ensures !(f.kind.Toggle? || f.kind.Button?) ==> r.fill == f.fill
    decreases f
  {
    var cs := seq(|f.children|, j requires 0 <= j < |f.children| => OnUnhover(f.children[j]));
    match f.kind
    case Toggle(v) => f.(fill := ToggleFill(f.palette, v), children := cs)
    case Button => f.(fill := Some(f.palette.primary), children := cs)
    case _ => f.(children := cs)
  }

  /** `v` limited to `0..=hi`. */
  function Clamp(v: int, hi: nat): (c: nat)
    ensures c <= hi
    ensures 0 <= v <= hi ==> c == v
  {
    if v < 0 then 0 else if v > hi then hi else v
  }

  /**
   `on_release` at (x, y): a toggle flips its value and refills; a slider
   sets its value from the release's horizontal offset, clamped to its
   width, and queues one range change under its own id. Other widgets
   ignore it.
   */
  function OnRelease(f: Form, x: nat, y: nat): (r: Form)
    ensures r.position == f.position && r.children == f.children && r.outline == f.outline
    ensures f.kind.Toggle? ==> r.kind == Toggle(!f.kind.value) && r.fill == ToggleFill(f.palette, !f.kind.value)
    ensures f.kind.Slider? ==> r.kind.Slider? && r.kind.eventId == f.kind.eventId
    ensures f.kind.Slider? ==>
      var xv := r.kind.xValue;
      && 0 <= xv.value <= f.position.width && xv.lo == 0 && xv.hi == f.position.width
      && r.kind.pending == f.kind.pending + [(f.kind.eventId, SingleRangeChange(xv))]
    ensures f.kind.Slider? && f.position.x <= x <= f.position.x + f.position.width ==> r.kind.xValue.value == x - f.position.x
    ensures !(f.kind.Toggle? || f.kind.Slider?) ==> r == f
  {
    match f.kind
    case Toggle(v) => f.(kind := Toggle(!v), fill := ToggleFill(f.palette, !v))
    case Slider(id, pending, _, s) =>
      var xdiff := Clamp(x - f.position.x, f.position.width);
      var xr := CbRange.NormalizedRange(xdiff, 0, f.position.width);
      f.(kind := Slider(id, pending + [(id, SingleRangeChange(xr))], xr, s))
    case _ => f
  }

  /** One event of a slider's `rebind_data`. */
  function RebindOne(id: EventId, xv: CbRange.NormalizedRange, b: Binding, ops: CbRange.RangeOps): CbRange.NormalizedRange
  {
    if b.0 != id then xv
    else match b.1
      case BoolValueChange(v) => xv.(value := if v then ops.max(xv) else ops.min(xv))
      case SingleRangeChange(range) => range
  }

  /** A slider's `rebind_data` over the event list, in order. */
  function RebindValue(id: EventId, xv: CbRange.NormalizedRange, evs: seq<Binding>, ops: CbRange.RangeOps): CbRange.NormalizedRange
    decreases |evs|
  {
    if |evs| == 0 then xv else RebindValue(id, RebindOne(id, xv, evs[0], ops), evs[1..], ops)
  }

  /**
   `rebind_data`: a slider takes the events addressed to it; every widget
   passes the whole list on to each child.
   */
  function Rebind(f: Form, evs: seq<Binding>, ops: CbRange.RangeOps): (r: Form)
    ensures r.position == f.position && r.palette == f.palette && r.fill == f.fill && r.outline == f.outline
    ensures |r.children| == |f.children|
    ensures forall j :: 0 <= j < |f.children| ==> r.children[j] == Rebind(f.children[j], evs, ops)
    ensures f.kind.Slider? ==> r.kind == f.kind.(xValue := RebindValue(f.kind.eventId, f.kind.xValue, evs, ops))
    ensures !f.kind.Slider? ==> r.kind == f.kind
    decreases f
  {
    var cs := seq(|f.children|, j requires 0 <= j < |f.children| => Rebind(f.children[j], evs, ops));
    match f.kind
    case Slider(id, pending, xv, s) => f.(kind := Slider(id, pending, RebindValue(id, xv, evs, ops), s), children := cs)
    case _ => f.(children := cs)
  }

  /** A filled rectangle if there is a colour. */
  function FilledIfSome(pos: FormPosition, c: Option<Color>): seq<DrawCall>
  {
    if c.Some? then [FilledRect(pos, c.value)] else []
  }

  /** A wireframe rectangle if there is a colour. */
  function WireIfSome(pos: FormPosition, c: Option<Color>): seq<DrawCall>
  {
    if c.Some? then [WireframeRect(pos, c.value)] else []
  }

  /**
   The calls a widget draws for itself, before its children's: nothing for
   plain forms, rows and columns; fill then outline for toggles and buttons;
   the text for a label (black when it has no colour); background, the
   slider bar, the bar's outline and the outer outline for a slider, which
   fails without an outline colour.
   */
  function OwnCalls(f: Form, ops: CbRange.RangeOps): Result<seq<DrawCall>>
  {
    var pos := f.position;
    match f.kind
    case Toggle(_) => Ok(FilledIfSome(pos, f.fill) + WireIfSome(pos, f.outline))
    case Button => Ok(FilledIfSome(pos, f.fill) + WireIfSome(pos, f.outline))
    case Label(text, tc) => Ok([Text(pos, tc.GetOr(Black()), text)])
    case Slider(_, _, xv, _) =>
      if f.outline.None? then Fail(MissingColor)
      else
        var bar := pos.(width := ops.mapToRangeUsize(xv, 0, pos.width));
        Ok(FilledIfSome(pos, f.fill) + [FilledRect(bar, f.palette.accent), WireframeRect(bar, f.outline.value), WireframeRect(pos, f.outline.value)])
    case _ => Ok([])
  }

  /** `draw`: the widget's own calls, then each child's, in order. */
  function Draw(f: Form, ops: CbRange.RangeOps): (r: Result<seq<DrawCall>>)
    ensures r.Ok? ==> OwnCalls(f, ops).Ok? && |r.value| >= |OwnCalls(f, ops).value|
                      && r.value[..|OwnCalls(f, ops).value|] == OwnCalls(f, ops).value
    ensures OwnCalls(f, ops).Fail? ==> r.Fail?
    decreases f, 1
  {
    var own := OwnCalls(f, ops);
    if own.Fail? then own
    else
      var cs := DrawChildren(f, ops, 0);
      if cs.Fail? then cs else Ok(own.value + cs.value)
  }

  function DrawChildren(f: Form, ops: CbRange.RangeOps, i: nat): (r: Result<seq<DrawCall>>)
    requires i <= |f.children|
    decreases f, 0, |f.children| - i
  {
    if i == |f.children| then Ok([])
    else
      var c := Draw(f.children[i], ops);
      if c.Fail? then c
      else
        var rest := DrawChildren(f, ops, i + 1);
        if rest.Fail? then rest else Ok(c.value + rest.value)
  }

  /** `CbForm::reset`: the children are removed. */
  function Reset(f: Form): (r: Form)
    ensures r.children == [] && r.kind == f.kind && r.position == f.position
  {
    f.(children := [])
  }

  /** `set_position`. */
  function SetPosition(f: Form, p: FormPosition): (r: Form)
    ensures r.position == p && r.kind == f.kind && r.children == f.children
  {
    f.(position := p)
  }
}
