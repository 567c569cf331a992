/**
 The voxel component: the chunk manager together with its editor. The
 editor is a column of rows of toggle buttons, one per voxel of a z-slice,
 plus a slider that picks the slice. The component keeps one callback per
 toggle (its event id and the voxel column it stands for) and the slider's
 event id, and turns the menu's events into voxel edits and into the
 toggle values to show for a new slice.

 Event ids are drawn from a generator in the engine; here the caller
 supplies them.
 */
module VoxelComponents {
  import opened Base
  import opened CbVoxels
  import opened MenuGfx
  import opened MenuForms
  import CbRange
  import CbMath

  /** `ActivateCallbacks`: the toggle with id `eventId` edits the voxel column (x, y). */
  datatype ActivateCallback = ActivateCallback(eventId: EventId, x: nat, y: nat)

  /** `VoxelEditor`. */
  datatype VoxelEditor = VoxelEditor(
    editing: bool,
    createdMenu: bool,
    zIndex: nat,
    zIndexCallback: Option<EventId>,
    toggleCallbacks: seq<ActivateCallback>)

  /** `VoxelComponent`. */
  datatype VoxelComponent = VoxelComponent(chunkManager: ChunkManager, editor: VoxelEditor)

  /** `VoxelEditor::new`: editing, no menu yet, slice 0, no callbacks. */
  function NewVoxelEditor(): (e: VoxelEditor)
    ensures e.editing && !e.createdMenu && e.zIndex == 0 && e.zIndexCallback.None? && e.toggleCallbacks == []
  {
    VoxelEditor(true, false, 0, None, [])
  }

  /** `VoxelEditor::reset`: not editing, no menu, slice 0, no callbacks. */
  function ResetEditor(e: VoxelEditor): (r: VoxelEditor)
    ensures !r.editing && !r.createdMenu && r.zIndex == 0 && r.zIndexCallback.None? && r.toggleCallbacks == []
  {
    VoxelEditor(false, false, 0, None, [])
  }

  /** `VoxelComponent::new`: a fresh chunk manager and a fresh editor. */
  function NewVoxelComponent(): (c: VoxelComponent)
    ensures c.chunkManager == CbVoxels.NewManager() && c.editor == NewVoxelEditor()
  {
    VoxelComponent(CbVoxels.NewManager(), NewVoxelEditor())
  }

  /** `stop_editing`: resets the editor; the voxels are kept. */
  function StopEditing(c: VoxelComponent): (r: VoxelComponent)
    ensures r.chunkManager == c.chunkManager && r.editor == ResetEditor(c.editor)
  {
    c.(editor := ResetEditor(c.editor))
  }

  /** The write a toggle's event makes: the voxel's active flag is negated. */
  function FlipActive(v: Voxel): Voxel
  {
    v.(active := !v.active)
  }

  /**
   Every callback with id `id`, in order, flips the active flag of its
   voxel (x, y, z); a failed lookup aborts.
   */
  function ToggleMatching(m: ChunkManager, cbs: seq<ActivateCallback>, id: EventId, z: nat, frame: nat, idx: Index3d): (r: Result<ChunkManager>)
    ensures (forall j :: 0 <= j < |cbs| ==> cbs[j].eventId != id) ==> r == Ok(m)
    ensures r.Fail? ==> r.fault == IndexOutOfBounds
    ensures r.Ok? ==> r.value.dirty == m.dirty && |r.value.chunks| == |m.chunks|
    decreases |cbs|
  {
    if |cbs| == 0 then Ok(m)
    else
      var m1 := if cbs[0].eventId == id then UpdateVoxel(m, cbs[0].x, cbs[0].y, z, frame, idx, FlipActive) else Ok(m);
      if m1.Fail? then m1 else ToggleMatching(m1.value, cbs[1..], id, z, frame, idx)
  }

  /**
   The toggle values for slice `z`: one BoolValueChange per callback, in
   callback order, carrying the active flag of the callback's voxel; a
   failed lookup aborts.
   */
  function SliceBindings(m: ChunkManager, cbs: seq<ActivateCallback>, z: nat, idx: Index3d): (r: Result<seq<Binding>>)
    ensures r.Ok? <==> forall j :: 0 <= j < |cbs| ==> GetVoxel(m, cbs[j].x, cbs[j].y, z, idx).Ok?
    ensures r.Ok? ==> |r.value| == |cbs|
    ensures r.Ok? ==> forall j :: 0 <= j < |cbs| ==>
      r.value[j] == (cbs[j].eventId, BoolValueChange(GetVoxel(m, cbs[j].x, cbs[j].y, z, idx).value.active))
    ensures r.Fail? ==> r.fault == IndexOutOfBounds
    decreases |cbs|
  {
    if |cbs| == 0 then Ok([])
    else
      var v := GetVoxel(m, cbs[0].x, cbs[0].y, z, idx);
      if v.Fail? then Fail(v.fault)
      else
        var rest := SliceBindings(m, cbs[1..], z, idx);
        if rest.Fail? then rest
        else Ok([(cbs[0].eventId, BoolValueChange(v.value.active))] + rest.value)
  }

  /** The event moves the slice slider: its id is the slider's and it carries a range. */
  predicate IsSliceChange(e: VoxelEditor, b: Binding)
  {
    e.zIndexCallback == Some(b.0) && b.1.SingleRangeChange?
  }

  /** How many of the events move the slice slider. */
  function CountSliceChanges(e: VoxelEditor, events: seq<Binding>): nat
  {
    if |events| == 0 then 0
    else (if IsSliceChange(e, events[0]) then 1 else 0) + CountSliceChanges(e, events[1..])
  }

  /**
   One event of `handle_events`: the matching toggles flip their voxels in
   the current slice; then, if the event moves the slice slider, the slice
   becomes the range mapped onto [0, voxel width] and the toggles' values
   for the new slice are returned.
   */
  function HandleEvent(c: VoxelComponent, b: Binding, frame: nat, idx: Index3d, ops: CbRange.RangeOps): (r: Result<(VoxelComponent, seq<Binding>)>)
    ensures r.Ok? ==> r.value.0.editor == (if IsSliceChange(c.editor, b)
      then c.editor.(zIndex := ops.mapToRangeUsize(b.1.range, 0, VoxelWidth(c.chunkManager))) else c.editor)
    ensures r.Ok? ==> |r.value.1| == if IsSliceChange(c.editor, b) then |c.editor.toggleCallbacks| else 0
    ensures r.Fail? ==> r.fault == IndexOutOfBounds
  {
    var e := c.editor;
    var m := ToggleMatching(c.chunkManager, e.toggleCallbacks, b.0, e.zIndex, frame, idx);
    if m.Fail? then Fail(m.fault)
    else if IsSliceChange(e, b) then
      var z := ops.mapToRangeUsize(b.1.range, 0, VoxelWidth(m.value));
      var bindings := SliceBindings(m.value, e.toggleCallbacks, z, idx);
      if bindings.Fail? then Fail(bindings.fault)
      else Ok((VoxelComponent(m.value, e.(zIndex := z)), bindings.value))
    else Ok((VoxelComponent(m.value, e), []))
  }

  /**
   `handle_events`: the events in order; the toggle values returned are
   those of every slice change, concatenated. Lookups outside the chunk
   vectors fail as the engine's indexing panics.
   */
  function HandleEvents(c: VoxelComponent, events: seq<Binding>, frame: nat, idx: Index3d, ops: CbRange.RangeOps): (r: Result<(VoxelComponent, seq<Binding>)>)
    ensures r.Ok? ==> var e := r.value.0.editor;
      && e.editing == c.editor.editing && e.createdMenu == c.editor.createdMenu
      && e.zIndexCallback == c.editor.zIndexCallback && e.toggleCallbacks == c.editor.toggleCallbacks
    ensures r.Ok? ==> |r.value.1| == |c.editor.toggleCallbacks| * CountSliceChanges(c.editor, events)
    ensures r.Fail? ==> r.fault == IndexOutOfBounds
    decreases |events|
  {
    if |events| == 0 then Ok((c, []))
    else
      match HandleEvent(c, events[0], frame, idx, ops)
      case Fail(f) => Fail(f)
      case Ok((c1, out1)) =>
        match HandleEvents(c1, events[1..], frame, idx, ops)
        case Fail(f) => Fail(f)
        case Ok((c2, out2)) =>
          CountSplit(c.editor, c1.editor, events, |c.editor.toggleCallbacks|);
          Ok((c2, out1 + out2))
  }

  /** The returned values of the first event and of the rest add up to one batch per slice change. */
  lemma CountSplit(e: VoxelEditor, e1: VoxelEditor, events: seq<Binding>, k: nat)
    requires |events| > 0 && e1.zIndexCallback == e.zIndexCallback
    ensures k * CountSliceChanges(e, events)
      == (if IsSliceChange(e, events[0]) then k else 0) + k * CountSliceChanges(e1, events[1..])
  {
    SameSliderSameCount(e, e1, events[1..]);
    CountDistributes(k, if IsSliceChange(e, events[0]) then 1 else 0, CountSliceChanges(e, events[1..]));
  }

  lemma CountDistributes(a: nat, b: nat, n: nat)
    ensures a * (b + n) == a * b + a * n
  {
  }

  /** The count depends only on the slider's id. */
  lemma {:induction false} SameSliderSameCount(e: VoxelEditor, e': VoxelEditor, events: seq<Binding>)
    requires e.zIndexCallback == e'.zIndexCallback
    ensures CountSliceChanges(e, events) == CountSliceChanges(e', events)
    decreases |events|
  {
    if |events| > 0 {
      SameSliderSameCount(e, e', events[1..]);
    }
  }

  /** With a single callback of id `id` at position k, the toggles do exactly that callback's write. */
  lemma {:induction false} ToggleMatchingSingle(m: ChunkManager, cbs: seq<ActivateCallback>, k: nat, z: nat, frame: nat, idx: Index3d)
    requires k < |cbs|
    requires forall j :: 0 <= j < |cbs| && j != k ==> cbs[j].eventId != cbs[k].eventId
    ensures ToggleMatching(m, cbs, cbs[k].eventId, z, frame, idx) == UpdateVoxel(m, cbs[k].x, cbs[k].y, z, frame, idx, FlipActive)
    decreases |cbs|
  {
    var id := cbs[k].eventId;
    if k == 0 {
      var m1 := UpdateVoxel(m, cbs[0].x, cbs[0].y, z, frame, idx, FlipActive);
      if m1.Ok? {
        assert forall j :: 0 <= j < |cbs[1..]| ==> cbs[1..][j].eventId != id by {
          forall j | 0 <= j < |cbs[1..]| ensures cbs[1..][j].eventId != id {
            assert cbs[1..][j] == cbs[j + 1];
          }
        }
      }
    } else {
      assert cbs[1..][k - 1] == cbs[k];
      forall j | 0 <= j < |cbs[1..]| && j != k - 1
        ensures cbs[1..][j].eventId != cbs[1..][k - 1].eventId
      {
        assert cbs[1..][j] == cbs[j + 1];
      }
      ToggleMatchingSingle(m, cbs[1..], k - 1, z, frame, idx);
    }
  }

  /**
   A toggle's event, when no other toggle and not the slider shares its
   id, flips exactly the voxel of the toggle's column in the current slice
   and returns nothing.
   */
  lemma ToggleEventFlipsItsVoxel(c: VoxelComponent, k: nat, ev: MenuEvent, frame: nat, idx: Index3d, ops: CbRange.RangeOps)
    requires k < |c.editor.toggleCallbacks|
    requires var cbs := c.editor.toggleCallbacks;
      forall j :: 0 <= j < |cbs| && j != k ==> cbs[j].eventId != cbs[k].eventId
    requires c.editor.zIndexCallback != Some(c.editor.toggleCallbacks[k].eventId)
    ensures var cb := c.editor.toggleCallbacks[k];
      var r := HandleEvents(c, [(cb.eventId, ev)], frame, idx, ops);
      && (r.Ok? <==> GetVoxel(c.chunkManager, cb.x, cb.y, c.editor.zIndex, idx).Ok?)
      && (r.Ok? ==>
          && r.value.1 == []
          && r.value.0.chunkManager == UpdateVoxel(c.chunkManager, cb.x, cb.y, c.editor.zIndex, frame, idx, FlipActive).value
          && GetVoxel(r.value.0.chunkManager, cb.x, cb.y, c.editor.zIndex, idx)
             == Ok(FlipActive(GetVoxel(c.chunkManager, cb.x, cb.y, c.editor.zIndex, idx).value)))
  {
    var cb := c.editor.toggleCallbacks[k];
    var z := c.editor.zIndex;
    ToggleMatchingSingle(c.chunkManager, c.editor.toggleCallbacks, k, z, frame, idx);
    var es := [(cb.eventId, ev)];
    assert es[1..] == [];
    var u := UpdateVoxel(c.chunkManager, cb.x, cb.y, z, frame, idx, FlipActive);
    if u.Ok? {
      ReadAfterUpdate(c.chunkManager, cb.x, cb.y, z, frame, idx, FlipActive);
    }
  }

  /**
   A slice change that no toggle shares the id of moves the slice to the
   mapped value and reports, for every toggle in order, its voxel's active
   flag in the new slice.
   */
  lemma SliceChangeReportsNewSlice(c: VoxelComponent, v: CbRange.NormalizedRange, frame: nat, idx: Index3d, ops: CbRange.RangeOps)
    requires c.editor.zIndexCallback.Some?
    requires forall j :: 0 <= j < |c.editor.toggleCallbacks| ==> c.editor.toggleCallbacks[j].eventId != c.editor.zIndexCallback.value
    ensures var z := ops.mapToRangeUsize(v, 0, 16);
      var cbs := c.editor.toggleCallbacks;
      var r := HandleEvents(c, [(c.editor.zIndexCallback.value, SingleRangeChange(v))], frame, idx, ops);
      && (r.Ok? <==> forall j :: 0 <= j < |cbs| ==> GetVoxel(c.chunkManager, cbs[j].x, cbs[j].y, z, idx).Ok?)
      && (r.Ok? ==>
          && r.value.0 == c.(editor := c.editor.(zIndex := z))
          && |r.value.1| == |cbs|
          && forall j :: 0 <= j < |cbs| ==>
               r.value.1[j] == (cbs[j].eventId, BoolValueChange(GetVoxel(c.chunkManager, cbs[j].x, cbs[j].y, z, idx).value.active)))
  {
    var es := [(c.editor.zIndexCallback.value, SingleRangeChange(v))];
    assert es[1..] == [];
  }

  /** Voxels in a 16-wide slice: columns x and y below CHUNK_SIZE · CHUNKS. */
  const SLICE_WIDTH: nat := CHUNK_SIZE * CHUNKS

  /** The number of toggles in the editor: one per voxel column of a slice. */
  const NUM_TOGGLES: nat := SLICE_WIDTH * SLICE_WIDTH

  /**
   The callback of the t-th toggle created: rows are built from the last
   (y = 15) down to the first, and in each row the toggles from x = 15
   down to 0.
   */
  function ExpectedCallback(ids: seq<EventId>, t: nat): ActivateCallback
    requires t < |ids| && t < NUM_TOGGLES
  {
    ActivateCallback(ids[t], SLICE_WIDTH - 1 - t % SLICE_WIDTH, SLICE_WIDTH - 1 - t / SLICE_WIDTH)
  }

  /** The toggle at column `i`, row `o` of the sweep is the callback number (15 - o) * 16 + (15 - i). */
  lemma NextCallbackPosition(t: nat, i: nat, o: nat)
    requires i < SLICE_WIDTH && o < SLICE_WIDTH
    requires t == (SLICE_WIDTH - 1 - o) * SLICE_WIDTH + (SLICE_WIDTH - i - 1)
    ensures t % SLICE_WIDTH == SLICE_WIDTH - 1 - i && t / SLICE_WIDTH == SLICE_WIDTH - 1 - o
  {
    CbMath.DivModUnique(t, SLICE_WIDTH, SLICE_WIDTH - 1 - o, SLICE_WIDTH - 1 - i);
  }

  /**
   Row `o` of `start_editing`'s grid: a toggle per x = 15..0 showing its
   voxel's `active` flag, each toggle's callback appended after those of the
   rows before. A voxel of the row that cannot be read fails the row.
   */
  method BuildRow(p: Palette, m: ChunkManager, z: nat, idx: Index3d, ids: seq<EventId>, o: nat, added: seq<ActivateCallback>)
    returns (r: Result<(Form, seq<ActivateCallback>)>)
    requires o < SLICE_WIDTH && |ids| == NUM_TOGGLES + 1
    requires |added| == (SLICE_WIDTH - 1 - o) * SLICE_WIDTH
    requires forall t :: 0 <= t < |added| ==> added[t] == ExpectedCallback(ids, t)
    ensures r.Ok? ==> |r.value.0.children| == SLICE_WIDTH && |r.value.1| == |added| + SLICE_WIDTH
    ensures r.Ok? ==> forall t :: 0 <= t < |r.value.1| ==> r.value.1[t] == ExpectedCallback(ids, t)
    ensures r.Fail? ==> r.fault == IndexOutOfBounds && exists x: nat :: x < SLICE_WIDTH && GetVoxel(m, x, o, z, idx).Fail?
  {
    var row := NewRow(p);
    var cbs := added;
    var i := SLICE_WIDTH;
    while i > 0
      invariant 0 <= i <= SLICE_WIDTH && |row.children| == SLICE_WIDTH - i
      invariant |cbs| == (SLICE_WIDTH - 1 - o) * SLICE_WIDTH + (SLICE_WIDTH - i)
      invariant forall t :: 0 <= t < |cbs| ==> cbs[t] == ExpectedCallback(ids, t)
    {
      i := i - 1;
      var v := GetVoxel(m, i, o, z, idx);
      if v.Fail? {
        return Fail(v.fault);
      }
      var button := NewToggle(p).(kind := Toggle(v.value.active));
      var t := |cbs|;
      NextCallbackPosition(t, i, o);
      cbs := cbs + [ActivateCallback(ids[t], i, o)];
      row := AddChild(row, button);
    }
    return Ok((row, cbs));
  }

  /**
   `start_editing`: fails if a menu was already created; otherwise builds a
   column holding one row per y (from 15 down to 0) of toggles per x (from
   15 down to 0), each showing its voxel's active flag in the current
   slice, followed by the slice slider set to the current slice; records
   one callback per toggle and the slider's id. `ids` supplies the toggles'
   ids in creation order and then the slider's.
   */
  method StartEditing(c: VoxelComponent, ids: seq<EventId>, ops: CbRange.RangeOps, idx: Index3d) returns (r: Result<(VoxelComponent, Form)>)
    requires |ids| == NUM_TOGGLES + 1
    ensures c.editor.createdMenu ==> r == Fail(MenuAlreadyCreated)
    ensures r.Fail? ==> r.fault == MenuAlreadyCreated || r.fault == IndexOutOfBounds
    ensures r.Ok? ==> var (c', menu) := r.value;
      && c'.chunkManager == c.chunkManager
      && |c'.editor.toggleCallbacks| == |c.editor.toggleCallbacks| + NUM_TOGGLES
      && c'.editor == c.editor.(createdMenu := true, zIndexCallback := Some(ids[NUM_TOGGLES]),
                               toggleCallbacks := c.editor.toggleCallbacks + c'.editor.toggleCallbacks[|c.editor.toggleCallbacks|..])
      && (forall t :: 0 <= t < NUM_TOGGLES ==> c'.editor.toggleCallbacks[|c.editor.toggleCallbacks| + t] == ExpectedCallback(ids, t))
      && menu.kind == Column && |menu.children| == SLICE_WIDTH + 1
      && menu.children[SLICE_WIDTH].kind.Slider? && menu.children[SLICE_WIDTH].kind.eventId == ids[NUM_TOGGLES]
      && menu.children[SLICE_WIDTH].kind.xValue == CbRange.NormalizedRange(c.editor.zIndex, 0, 16)
    ensures !c.editor.createdMenu && r.Fail? ==>
      exists x: nat, y: nat ::
        && x < SLICE_WIDTH && y < SLICE_WIDTH
        && GetVoxel(c.chunkManager, x, y, c.editor.zIndex, idx).Fail?
  {
    if c.editor.createdMenu {
      return Fail(MenuAlreadyCreated);
    }
    var p := NewPalette();
    var m := c.chunkManager;
    var z := c.editor.zIndex;
    var columns := NewColumn(p);
    var added: seq<ActivateCallback> := [];
    var o := SLICE_WIDTH;
    while o > 0
      invariant 0 <= o <= SLICE_WIDTH
      invariant columns.kind == Column && |columns.children| == SLICE_WIDTH - o
      invariant |added| == (SLICE_WIDTH - o) * SLICE_WIDTH
      invariant forall t :: 0 <= t < |added| ==> added[t] == ExpectedCallback(ids, t)
    {
      o := o - 1;
      var built := BuildRow(p, m, z, idx, ids, o, added);
      if built.Fail? {
        var x: nat :| x < SLICE_WIDTH && GetVoxel(m, x, o, z, idx).Fail?;
        return Fail(built.fault);
      }
      var row;
      row, added := built.value.0, built.value.1;
      columns := AddChild(columns, row);
    }
    var slider := NewSlider(p, ids[NUM_TOGGLES], ops);
    slider := slider.(kind := slider.kind.(xValue := CbRange.NormalizedRange(z, 0, VoxelWidth(m))));
    columns := AddChildRelayout(columns, slider);
    var e := c.editor.(createdMenu := true, zIndexCallback := Some(ids[NUM_TOGGLES]), toggleCallbacks := c.editor.toggleCallbacks + added);
    assert e.toggleCallbacks[|c.editor.toggleCallbacks|..] == added;
    return Ok((VoxelComponent(m, e), columns));
  }

  /** After `stop_editing` the menu can be created again. */
  lemma StopEditingAllowsRestart(c: VoxelComponent)
    ensures !StopEditing(c).editor.createdMenu && StopEditing(c).editor.toggleCallbacks == []
    ensures StopEditing(c).chunkManager == c.chunkManager
  {
  }
}
