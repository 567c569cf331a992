/**
 The small simulation components: an editable flag, and a component that
 keeps a range value in step with the slider presenter that edits it.
 */
module Components {
  import opened CbRange
  import opened Presenters

  /** `EditableComponent`. */
  datatype EditableComponent = EditableComponent(editing: bool)

  /** `EditableComponent::new`. */
  function NewEditableComponent(editing: bool): (c: EditableComponent)
    ensures c.editing == editing
  {
    EditableComponent(editing)
  }

  /** `RangePresentableTestComponent`. */
  datatype RangePresentable = RangePresentable(range: NormalizedRange, presenter: SliderPresenter, editingComponent: bool)

  /** `RangePresentableTestComponent::new`: the default range, a new presenter, not editing. */
  function NewRangePresentable(ops: RangeOps): (c: RangePresentable)
    ensures c.range == ops.default && c.presenter == NewSliderPresenter(ops) && !c.editingComponent
  {
    RangePresentable(ops.default, NewSliderPresenter(ops), false)
  }

  /**
   `sync`: while the component is being edited the presenter's value wins;
   otherwise the component's value is pushed to the presenter unless the
   presenter is being edited, in which case nothing changes.
   */
  function Sync(c: RangePresentable): (r: RangePresentable)
    ensures c.editingComponent ==> r == c.(range := c.presenter.model)
    ensures !c.editingComponent && !c.presenter.editing ==> r == c.(presenter := SetModel(c.presenter, c.range))
    ensures !c.editingComponent && c.presenter.editing ==> r == c
    ensures r.editingComponent == c.editingComponent && r.presenter.editing == c.presenter.editing
    ensures r.presenter.viewPosition == c.presenter.viewPosition
  {
    if c.editingComponent then c.(range := c.presenter.model)
    else if !c.presenter.editing then c.(presenter := SetModel(c.presenter, c.range))
    else c
  }

  /** After a sync the two values agree, unless only the presenter is editing. */
  lemma SyncAgrees(c: RangePresentable)
    ensures c.editingComponent || !c.presenter.editing ==> Sync(c).range == Sync(c).presenter.model
    ensures c.editingComponent ==> Sync(c).range == c.presenter.model
    ensures !c.editingComponent && !c.presenter.editing ==> Sync(c).presenter.model == c.range
  {
  }

  /** Syncing twice is syncing once. */
  lemma SyncIdempotent(c: RangePresentable)
    ensures Sync(Sync(c)) == Sync(c)
  {
  }

  /** A new component syncs its default value into its presenter, which already holds it. */
  lemma NewIsInSync(ops: RangeOps)
    ensures Sync(NewRangePresentable(ops)) == NewRangePresentable(ops)
  {
  }
}
