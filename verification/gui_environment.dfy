/**
 The menu environment: the window size, the mouse, a pending click, and a
 root form (the older `CbForm` declared next to `GuiEnvironment`, with a
 default colour it returns to after a hover). Nothing can give that root
 form children, so it is modelled without them.

 Mouse coordinates arrive as `i32` and are cast to `usize`, which wraps a
 negative coordinate around 2^64.
 */
module GuiEnvironment {
  import opened Base
  import opened MenuGfx
  import opened InputTypes

  /** The root form: position and colours; its child list is always empty. */
  datatype RootForm = RootForm(position: FormPosition, outline: Option<Color>, fill: Option<Color>, defaultColor: Option<Color>)

  /** The fill a hovered root form takes. */
  const HOVER_FILL: Color := Color(202, 62, 71)

  /** The root form's `new`: 100×100 at the origin, outlined in black, filled with its default grey. */
  function NewRootForm(): (f: RootForm)
    ensures f.position == FormPosition(0, 0, 100, 100)
    ensures f.defaultColor == Some(Color(52, 52, 52)) && f.fill == f.defaultColor && f.outline == Some(Black())
  {
    RootForm(FormPosition(0, 0, 100, 100), Some(Color(0, 0, 0)), Some(Color(52, 52, 52)), Some(Color(52, 52, 52)))
  }

  /** The handler of the root form that an event triggers. */
  datatype Handler = Hovered | Unhovered | Clicked | Released

  /** `GuiEnvironment`. */
  datatype Gui = Gui(root: RootForm, width: nat, height: nat, mouseX: nat, mouseY: nat, clickedAt: Option<(nat, nat)>)

  /** `GuiEnvironment::new`: the mouse in the middle of the window, no click pending. */
  function NewGui(width: nat, height: nat): (g: Gui)
    ensures g.mouseX == width / 2 && g.mouseY == height / 2 && g.clickedAt.None?
    ensures g.width == width && g.height == height && g.root == NewRootForm()
  {
    Gui(NewRootForm(), width, height, width / 2, height / 2, None)
  }

  const USIZE_MODULUS: int := 0x1_0000_0000_0000_0000

  /** `as usize` of an `i32`: negative values wrap around. */
  function AsUsize(v: int): (u: nat)
    requires -0x8000_0000 <= v < 0x8000_0000
    ensures 0 <= v ==> u == v
    ensures v < 0 ==> u == v + USIZE_MODULUS
  {
    if v < 0 then v + USIZE_MODULUS else v
  }

  /** `get_form_at_mut`: the root form is hit when the point lies in its closed box. */
  predicate HitsRoot(g: Gui, x: nat, y: nat)
  {
    InPosition(g.root.position, x, y)
  }

  /** The root form's `on_hover`: the hover colour, if the form has a default colour. */
  function Hover(f: RootForm): (r: RootForm)
    ensures f.defaultColor.Some? ==> r == f.(fill := Some(HOVER_FILL))
    ensures f.defaultColor.None? ==> r == f
  {
    if f.defaultColor.Some? then f.(fill := Some(HOVER_FILL)) else f
  }

  /** The root form's `on_unhover`: back to the default colour, if it has one. */
  function Unhover(f: RootForm): (r: RootForm)
    ensures f.defaultColor.Some? ==> r == f.(fill := f.defaultColor)
    ensures f.defaultColor.None? ==> r == f
  {
    if f.defaultColor.Some? then f.(fill := f.defaultColor) else f
  }

  /** Hovering and then leaving a root form restores its fill when that was its default colour. */
  lemma HoverThenUnhoverRestores(f: RootForm)
    requires f.fill == f.defaultColor
    ensures Unhover(Hover(f)) == f
  {
  }

  /** 32-bit mouse coordinates. */
  predicate InI32(v: int)
  {
    -0x8000_0000 <= v < 0x8000_0000
  }

  /** Every mouse event of the list carries 32-bit coordinates. */
  predicate MouseInRange(es: seq<Event>)
  {
    forall i :: 0 <= i < |es| ==> (es[i].MouseMotion? || es[i].MouseButtonDown? || es[i].MouseButtonUp?) ==> InI32(es[i].x) && InI32(es[i].y)
  }

  /**
   One event of `update`: a motion hovers the root when it is under the
   mouse and unhovers it otherwise; a button press records where it
   happened and clicks the root if it is there; a button release, when a
   press is recorded, releases the root if it is at the recorded place and
   forgets the press. Other events are ignored.
   */
  function Step(g: Gui, e: Event): (r: (Gui, seq<Handler>))
    requires (e.MouseMotion? || e.MouseButtonDown? || e.MouseButtonUp?) ==> InI32(e.x) && InI32(e.y)
    ensures e.MouseMotion? ==>
      if HitsRoot(g, AsUsize(e.x), AsUsize(e.y)) then r == (g.(root := Hover(g.root)), [Hovered])
      else r == (g.(root := Unhover(g.root)), [Unhovered])
    ensures e.MouseButtonDown? ==>
      && r.0 == g.(clickedAt := Some((AsUsize(e.x), AsUsize(e.y))))
      && r.1 == (if HitsRoot(g, AsUsize(e.x), AsUsize(e.y)) then [Clicked] else [])
    ensures e.MouseButtonUp? && g.clickedAt.Some? ==>
      && r.0 == g.(clickedAt := None)
      && r.1 == (if HitsRoot(g, g.clickedAt.value.0, g.clickedAt.value.1) then [Released] else [])
    ensures e.MouseButtonUp? && g.clickedAt.None? ==> r == (g, [])
    ensures !(e.MouseMotion? || e.MouseButtonDown? || e.MouseButtonUp?) ==> r == (g, [])
  {
    match e
    case MouseMotion(x, y) =>
      if HitsRoot(g, AsUsize(x), AsUsize(y)) then (g.(root := Hover(g.root)), [Hovered])
      else (g.(root := Unhover(g.root)), [Unhovered])
    case MouseButtonDown(x, y) =>
      var xy := (AsUsize(x), AsUsize(y));
      (g.(clickedAt := Some(xy)), if HitsRoot(g, xy.0, xy.1) then [Clicked] else [])
    case MouseButtonUp(_, _) =>
      if g.clickedAt.Some? then
        var xy := g.clickedAt.value;
        (g.(clickedAt := None), if HitsRoot(g, xy.0, xy.1) then [Released] else [])
      else (g, [])
    case _ => (g, [])
  }

  /**
   `GuiEnvironment::update` over the tick's events, in order, with the
   handlers run on the root form; the root's own `update` has no children to
   visit.
   */
  function Update(g: Gui, es: seq<Event>): (r: (Gui, seq<Handler>))
    requires MouseInRange(es)
    ensures r.0.width == g.width && r.0.height == g.height && r.0.root.position == g.root.position
    ensures |r.1| <= |es|
    decreases |es|
  {
    if |es| == 0 then (g, [])
    else
      var (g1, h1) := Step(g, es[0]);
      var (g2, h2) := Update(g1, es[1..]);
      (g2, h1 + h2)
  }

  /** A press then a release anywhere release the root exactly when the press was on it. */
  lemma PressThenReleaseUsesPressPosition(g: Gui, x: int, y: int, x': int, y': int)
    requires InI32(x) && InI32(y) && InI32(x') && InI32(y')
    ensures var es := [MouseButtonDown(x, y), MouseButtonUp(x', y')];
      var hit := HitsRoot(g, AsUsize(x), AsUsize(y));
      && MouseInRange(es)
      && Update(g, es).1 == (if hit then [Clicked, Released] else [])
      && Update(g, es).0.clickedAt.None?
  {
    var es := [MouseButtonDown(x, y), MouseButtonUp(x', y')];
    assert es[1..] == [MouseButtonUp(x', y')];
    assert es[1..][1..] == [];
    var g1 := Step(g, es[0]).0;
    assert g1.clickedAt == Some((AsUsize(x), AsUsize(y)));
    var g2 := Step(g1, es[1]).0;
    assert g2.clickedAt.None?;
    assert Update(g1, es[1..]).0 == Update(g2, []).0 == g2;
  }

  /** A release with no press recorded does nothing. */
  lemma ReleaseWithoutPressIsIgnored(g: Gui, x: int, y: int)
    requires g.clickedAt.None? && InI32(x) && InI32(y)
    ensures Step(g, MouseButtonUp(x, y)) == (g, [])
  {
  }

  /**
   The root form's `draw`: a filled rectangle in its fill colour, then a
   wireframe rectangle, also in its fill colour; the wireframe fails when
   there is an outline but no fill.
   */
  function Draw(g: Gui): (r: Result<seq<DrawCall>>)
    ensures g.root.fill.Some? && g.root.outline.Some? ==>
      r == Ok([FilledRect(g.root.position, g.root.fill.value), WireframeRect(g.root.position, g.root.fill.value)])
    ensures g.root.fill.None? && g.root.outline.Some? ==> r == Fail(MissingColor)
    ensures g.root.outline.None? ==> r.Ok? && |r.value| <= 1
  {
    var f := g.root;
    if f.outline.Some? then
      if f.fill.None? then Fail(MissingColor)
      else Ok([FilledRect(f.position, f.fill.value), WireframeRect(f.position, f.fill.value)])
    else if f.fill.Some? then Ok([FilledRect(f.position, f.fill.value)])
    else Ok([])
  }

  /** Events never clear the root form's fill, so a new environment can always be drawn, before and after any events. */
  lemma DrawNeverFailsAfterUpdate(width: nat, height: nat, es: seq<Event>)
    requires MouseInRange(es)
    ensures Draw(Update(NewGui(width, height), es).0).Ok?
  {
    UpdateKeepsColours(NewGui(width, height), es);
  }

  /** Hovering and unhovering keep a fill present when there is a default colour, and never touch the default or the outline. */
  lemma {:induction false} UpdateKeepsColours(g: Gui, es: seq<Event>)
    requires MouseInRange(es) && g.root.defaultColor.Some? && g.root.fill.Some?
    ensures var r := Update(g, es).0.root;
      r.defaultColor == g.root.defaultColor && r.outline == g.root.outline && r.fill.Some?
    decreases |es|
  {
    if |es| > 0 {
      UpdateKeepsColours(Step(g, es[0]).0, es[1..]);
    }
  }
}
