/**
 Properties of the menu widgets: how rows and columns share out their
 space, that `update` drains every queue in the tree, that a slider's
 released value comes back to it through `rebind_data`, that toggles and
 buttons return to their colours, and that drawing cannot fail on a menu
 whose sliders have outlines.
 */
module MenuWidgets {
  import opened Base
  import opened MenuGfx
  import opened MenuForms
  import CbRange

  /**
   A row with k > 0 children gives child j the x offset j·(width/k), the
   row's y and height, and width/k; neighbours touch, and the children
   together fall short of the row's width by less than k pixels.
   */
  lemma RowLayout(f: Form, j: nat)
    requires f.kind.Row? && j < |f.children|
    ensures var k, p, c := |f.children|, f.position, Update(f).0.children[j].position;
      && c == FormPosition(p.x + j * (p.width / k), p.y, p.height, p.width / k)
      && (j + 1 < k ==> c.x + c.width == Update(f).0.children[j + 1].position.x)
      && k * (p.width / k) <= p.width < k * (p.width / k) + k
  {
    var k, w := |f.children|, f.position.width;
    assert w == k * (w / k) + w % k;
  }

  /**
   A column with k > 0 children gives child j the y offset j·(height/k),
   the column's x and width, and height/k; neighbours touch, and the
   children together are no taller than the column.
   */
  lemma ColumnLayout(f: Form, j: nat)
    requires f.kind.Column? && j < |f.children|
    ensures var k, p, c := |f.children|, f.position, Update(f).0.children[j].position;
      && c == FormPosition(p.x, p.y + j * (p.height / k), p.height / k, p.width)
      && (j + 1 < k ==> c.y + c.height == Update(f).0.children[j + 1].position.y)
      && k * (p.height / k) <= p.height < k * (p.height / k) + k
  {
    var k, h := |f.children|, f.position.height;
    assert h == k * (h / k) + h % k;
  }

  /** No slider anywhere in the tree has a queued event. */
  predicate Quiet(f: Form)
    decreases f
  {
    && (f.kind.Slider? ==> f.kind.pending == [])
    && forall j :: 0 <= j < |f.children| ==> Quiet(f.children[j])
  }

  /** `update` leaves every queue in the tree empty, however it was placed. */
  lemma {:induction false} UpdateQuiets(f: Form, pos: Option<FormPosition>)
    ensures Quiet(UpdateAt(f, pos).0)
    decreases f, 1
  {
    UpdateChildrenQuiet(f, pos, 0);
  }

  lemma {:induction false} UpdateChildrenQuiet(f: Form, pos: Option<FormPosition>, i: nat)
    requires i <= |f.children|
    ensures forall j :: 0 <= j < |UpdateChildren(f, pos, i).0| ==> Quiet(UpdateChildren(f, pos, i).0[j])
    decreases f, 0, |f.children| - i
  {
    if i < |f.children| {
      UpdateQuiets(f.children[i], LayoutPos(Place(f, pos), |f.children|, i));
      UpdateChildrenQuiet(f, pos, i + 1);
    }
  }

  /** A tree with nothing queued returns no events from `update`. */
  lemma {:induction false} QuietUpdateIsSilent(f: Form, pos: Option<FormPosition>)
    requires Quiet(f)
    ensures UpdateAt(f, pos).1 == []
    decreases f, 1
  {
    QuietChildrenAreSilent(f, pos, 0);
  }

  lemma {:induction false} QuietChildrenAreSilent(f: Form, pos: Option<FormPosition>, i: nat)
    requires i <= |f.children|
    requires forall j :: 0 <= j < |f.children| ==> Quiet(f.children[j])
    ensures UpdateChildren(f, pos, i).1 == []
    decreases f, 0, |f.children| - i
  {
    if i < |f.children| {
      QuietUpdateIsSilent(f.children[i], LayoutPos(Place(f, pos), |f.children|, i));
      QuietChildrenAreSilent(f, pos, i + 1);
    }
  }

  /** Every queued event is delivered once: a second `update` returns nothing. */
  lemma UpdateTwiceIsSilent(f: Form)
    ensures Update(Update(f).0).1 == []
  {
    UpdateQuiets(f, None);
    QuietUpdateIsSilent(Update(f).0, None);
  }

  /** Events not addressed to the slider leave its value alone. */
  lemma {:induction false} RebindIgnoresOtherIds(id: EventId, xv: CbRange.NormalizedRange, evs: seq<Binding>, ops: CbRange.RangeOps)
    requires forall j :: 0 <= j < |evs| ==> evs[j].0 != id
    ensures RebindValue(id, xv, evs, ops) == xv
    decreases |evs|
  {
    if |evs| > 0 {
      RebindIgnoresOtherIds(id, xv, evs[1..], ops);
    }
  }

  /** Rebinding with two lists in turn is rebinding with their concatenation. */
  lemma {:induction false} RebindAppend(id: EventId, xv: CbRange.NormalizedRange, a: seq<Binding>, b: seq<Binding>, ops: CbRange.RangeOps)
    ensures RebindValue(id, xv, a + b, ops) == RebindValue(id, RebindValue(id, xv, a, ops), b, ops)
    decreases |a|
  {
    if |a| > 0 {
      assert (a + b)[0] == a[0] && (a + b)[1..] == a[1..] + b;
      RebindAppend(id, RebindOne(id, xv, a[0], ops), a[1..], b, ops);
    } else {
      assert a + b == b;
    }
  }

  /** The last range change addressed to the slider decides its value. */
  lemma LastRangeChangeWins(id: EventId, xv: CbRange.NormalizedRange, a: seq<Binding>, v: CbRange.NormalizedRange, b: seq<Binding>, ops: CbRange.RangeOps)
    requires forall j :: 0 <= j < |b| ==> b[j].0 != id
    ensures RebindValue(id, xv, a + [(id, SingleRangeChange(v))] + b, ops) == v
  {
    RebindAppend(id, xv, a + [(id, SingleRangeChange(v))], b, ops);
    RebindAppend(id, xv, a, [(id, SingleRangeChange(v))], ops);
    RebindIgnoresOtherIds(id, v, b, ops);
  }

  /**
   A slider without children, released and updated, hands out events that
   bring the value it took on release back to it when rebound.
   */
  lemma ReleaseUpdateRebindRoundTrip(s: Form, x: nat, y: nat, ops: CbRange.RangeOps)
    requires s.kind.Slider? && s.children == []
    ensures var released := OnRelease(s, x, y);
      var (updated, evs) := Update(released);
      && evs == released.kind.pending
      && Rebind(updated, evs, ops).kind.xValue == released.kind.xValue
  {
    var released := OnRelease(s, x, y);
    var (updated, evs) := Update(released);
    assert UpdateChildren(released, None, 0).1 == [];
    LastRangeChangeWins(s.kind.eventId, updated.kind.xValue, s.kind.pending, released.kind.xValue, [], ops);
    assert s.kind.pending + [(s.kind.eventId, SingleRangeChange(released.kind.xValue))] + [] == evs;
  }

  /**
   Two releases give a toggle back its value, with the fill that value
   calls for; a toggle whose fill already matched its value is restored
   exactly.
   */
  lemma ToggleReleaseTwice(t: Form, x: nat, y: nat, x': nat, y': nat)
    requires t.kind.Toggle?
    ensures var t2 := OnRelease(OnRelease(t, x, y), x', y');
      t2.kind == t.kind && t2.fill == ToggleFill(t.palette, t.kind.value)
      && (t.fill == ToggleFill(t.palette, t.kind.value) ==> t2 == t)
  {
  }

  /** The two fills of a toggle built from the engine's palette differ. */
  lemma ToggleStatesDistinguishable(v: bool)
    ensures ToggleFill(NewPalette(), v) != ToggleFill(NewPalette(), !v)
  {
    PaletteColoursDistinct();
  }

  /** Hovering then unhovering a new button gives it back its fill. */
  lemma ButtonHoverUnhover(p: Palette)
    ensures OnUnhover(OnHover(NewButton(p))) == NewButton(p)
    ensures OnHover(NewButton(p)).fill == Some(p.accent)
  {
  }

  /** Unhovering twice is unhovering once, anywhere in the tree. */
  lemma {:induction false} UnhoverIdempotent(f: Form)
    ensures OnUnhover(OnUnhover(f)) == OnUnhover(f)
    decreases f
  {
    var u := OnUnhover(f);
    forall j | 0 <= j < |f.children|
      ensures OnUnhover(u.children[j]) == u.children[j]
    {
      UnhoverIdempotent(f.children[j]);
    }
    assert OnUnhover(u).children == u.children;
  }

  /** Every slider in the tree has an outline colour. */
  predicate Outlined(f: Form)
    decreases f
  {
    && (f.kind.Slider? ==> f.outline.Some?)
    && forall j :: 0 <= j < |f.children| ==> Outlined(f.children[j])
  }

  /** Drawing succeeds on every tree whose sliders have outlines. */
  lemma {:induction false} DrawSucceeds(f: Form, ops: CbRange.RangeOps)
    requires Outlined(f)
    ensures Draw(f, ops).Ok?
    decreases f, 1
  {
    DrawChildrenSucceed(f, ops, 0);
  }

  lemma {:induction false} DrawChildrenSucceed(f: Form, ops: CbRange.RangeOps, i: nat)
    requires i <= |f.children| && forall j :: 0 <= j < |f.children| ==> Outlined(f.children[j])
    ensures DrawChildren(f, ops, i).Ok?
    decreases f, 0, |f.children| - i
  {
    if i < |f.children| {
      DrawSucceeds(f.children[i], ops);
      DrawChildrenSucceed(f, ops, i + 1);
    }
  }

  /** A slider without an outline cannot be drawn. */
  lemma SliderWithoutOutlineFails(f: Form, ops: CbRange.RangeOps)
    requires f.kind.Slider? && f.outline.None?
    ensures Draw(f, ops) == Fail(MissingColor)
  {
  }

  /** Toggles and buttons draw their fill, then their outline, before their children. */
  lemma ButtonsDrawFillThenOutline(f: Form, ops: CbRange.RangeOps)
    requires (f.kind.Toggle? || f.kind.Button?) && f.fill.Some? && f.outline.Some?
    ensures Draw(f, ops).Ok? ==> Draw(f, ops).value[..2] == [FilledRect(f.position, f.fill.value), WireframeRect(f.position, f.outline.value)]
  {
  }

  /** A label draws its text first, in its text colour or black. */
  lemma LabelDrawsTextFirst(f: Form, ops: CbRange.RangeOps)
    requires f.kind.Label?
    ensures Draw(f, ops).Ok? ==> Draw(f, ops).value[0] == Text(f.position, f.kind.textColor.GetOr(Black()), f.kind.text)
  {
  }

  /**
   A slider draws its background, its bar (as wide as its mapped value),
   the bar's outline and its own outline, before its children.
   */
  lemma SliderDrawOrder(f: Form, ops: CbRange.RangeOps)
    requires f.kind.Slider? && f.fill.Some? && f.outline.Some?
    ensures var bar := f.position.(width := ops.mapToRangeUsize(f.kind.xValue, 0, f.position.width));
      Draw(f, ops).Ok? ==> Draw(f, ops).value[..4] == [FilledRect(f.position, f.fill.value), FilledRect(bar, f.palette.accent),
                                                     WireframeRect(bar, f.outline.value), WireframeRect(f.position, f.outline.value)]
  {
  }

  /** A plain form, a row or a column draws nothing of its own; without children it draws nothing at all. */
  lemma ContainersDrawOnlyChildren(f: Form, ops: CbRange.RangeOps)
    requires f.kind.PlainForm? || f.kind.Row? || f.kind.Column?
    ensures Draw(f, ops) == DrawChildren(f, ops, 0)
    ensures f.children == [] ==> Draw(f, ops) == Ok([])
  {
  }
}
