/**
 The slider presenter: a model value, the rectangle it is shown in, and an
 editing flag; and the slider view, which turns the model into one
 rectangle that grows up from the bottom of the view.
 */
module Presenters {
  import opened CbRange

  /** `ViewPosition`: top-left corner and size, in pixels. */
  datatype ViewPosition = ViewPosition(x: nat, y: nat, width: nat, height: nat)

  /** `ViewObjectTypes`. */
  datatype ViewObjectType = Rectangle

  /** `ViewObject`. */
  datatype ViewObject = ViewObject(objectType: ViewObjectType, viewPosition: ViewPosition)

  /** `SliderView`. */
  datatype SliderView = SliderView(viewPosition: ViewPosition, model: NormalizedRange)

  /**
   `SliderView::get_view_objects`: one rectangle, half the view's width, as
   tall as the model mapped onto the view's height, and pushed down by
   whatever height is left over (never up).
   */
  function GetViewObjects(v: SliderView, ops: RangeOps): (objs: seq<ViewObject>)
    ensures |objs| == 1 && objs[0].objectType == Rectangle
    ensures var p, q := v.viewPosition, objs[0].viewPosition;
      && q.x == p.x && q.width == p.width / 2
      && q.height == ops.mapToRangeUsize(v.model, 0, p.height)
      && q.y == p.y + (if q.height < p.height then p.height - q.height else 0)
  {
    var p := v.viewPosition;
    var actualHeight := ops.mapToRangeUsize(v.model, 0, p.height);
    var yDiff := p.height - actualHeight;
    var yShift: nat := if yDiff <= 0 then 0 else yDiff;
    [ViewObject(Rectangle, p.(width := p.width / 2, y := p.y + yShift, height := actualHeight))]
  }

  /** When the mapped height fits in the view, the slider's bottom edge is the view's bottom edge. */
  lemma SliderSitsOnViewBottom(v: SliderView, ops: RangeOps)
    requires MapsIntoTarget(ops)
    ensures var q := GetViewObjects(v, ops)[0].viewPosition;
      && q.y + q.height == v.viewPosition.y + v.viewPosition.height
      && v.viewPosition.y <= q.y
  {
    var h := v.viewPosition.height;
    assert 0 <= ops.mapToRangeUsize(v.model, 0, h) <= h;
  }

  /** `SliderPresenter`. */
  datatype SliderPresenter = SliderPresenter(model: NormalizedRange, viewPosition: ViewPosition, editing: bool)

  /** `SliderPresenter::new`: not editing, the default range, a 100×100 view at the origin. */
  function NewSliderPresenter(ops: RangeOps): (p: SliderPresenter)
    ensures !p.editing && p.model == ops.default && p.viewPosition == ViewPosition(0, 0, 100, 100)
  {
    SliderPresenter(ops.default, ViewPosition(0, 0, 100, 100), false)
  }

  /** `set_view_position`. */
  function SetViewPosition(p: SliderPresenter, pos: ViewPosition): (r: SliderPresenter)
    ensures r.viewPosition == pos && r.model == p.model && r.editing == p.editing
  {
    p.(viewPosition := pos)
  }

  /** `set_model`. */
  function SetModel(p: SliderPresenter, value: NormalizedRange): (r: SliderPresenter)
    ensures r.model == value && r.viewPosition == p.viewPosition && r.editing == p.editing
  {
    p.(model := value)
  }

  /** `get_view`: the view shows the presenter's position and model. */
  function GetView(p: SliderPresenter): (v: SliderView)
    ensures v.viewPosition == p.viewPosition && v.model == p.model
  {
    SliderView(p.viewPosition, p.model)
  }

  /** What is set is what is read back, and each setter leaves the other part alone. */
  lemma SettersRoundTrip(p: SliderPresenter, pos: ViewPosition, value: NormalizedRange)
    ensures GetView(SetModel(SetViewPosition(p, pos), value)) == SliderView(pos, value)
    ensures GetView(SetViewPosition(SetModel(p, value), pos)) == SliderView(pos, value)
    ensures SetModel(p, p.model) == p && SetViewPosition(p, p.viewPosition) == p
  {
  }
}
