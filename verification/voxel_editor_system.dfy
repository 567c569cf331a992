/**
 The voxel editor system: for every voxel-editor context in the world's
 inputs, it moves every camera (rotation, then view presets) and adds or
 removes the voxel under the cursor in every voxel component. It also
 models the console's steps: choosing the mode, reading an "x,y,z"
 coordinate, and the add mode's write of that voxel in every voxel
 component.

 The cursor's `map_to_range_usize` is not part of this model and is a
 parameter; the console's reads from standard input are parameters too.
 */
module VoxelEditorSystem {
  import opened Base
  import opened InputTypes
  import opened InputContexts
  import opened CbVoxels
  import opened Text

  /** The fields of `CameraComponent`. */
  datatype Camera = Camera(
    orthographic: bool,
    posX: int, posY: int, posZ: int,
    targetX: int, targetY: int, targetZ: int,
    pitch: int, yaw: int, roll: int)

  /** `CameraComponent::new`: perspective, everything at 0. */
  function NewCamera(): (c: Camera)
    ensures !c.orthographic && c.posX == c.posY == c.posZ == 0 && c.targetX == c.targetY == c.targetZ == 0
    ensures c.pitch == c.yaw == c.roll == 0
  {
    Camera(false, 0, 0, 0, 0, 0, 0, 0, 0, 0)
  }

  const MAX_EDITOR_X: int := 2500
  const MAX_EDITOR_Y: int := 2500
  const MAX_EDITOR_Z: int := 2500
  const MAX_ROTATION: int := 100

  /** The centre of the editing volume, which every preset looks at. */
  const CENTRE: (int, int, int) := (MAX_EDITOR_X / 2, MAX_EDITOR_Y / 2, MAX_EDITOR_Z / 2)

  /** A camera placed at `pos`, looking at the centre. */
  function Preset(c: Camera, pos: (int, int, int)): Camera
  {
    c.(posX := pos.0, posY := pos.1, posZ := pos.2, targetX := CENTRE.0, targetY := CENTRE.1, targetZ := CENTRE.2)
  }

  /** A voxel-editor context presses one of the four view presets. */
  predicate AnyPreset(ctx: Context)
    requires ctx.VoxelEditorContext?
  {
    ctx.frontView == Pressed || ctx.leftView == Pressed || ctx.rightView == Pressed || ctx.topView == Pressed
  }

  /**
   One camera's step for one voxel-editor context: rotate up (or else
   down) moves the target's y by 100; then the first pressed of front,
   left, right and top places the camera and aims it at the centre, and
   only when none is pressed does the orthographic toggle flip the view.
   */
  function CameraStep(c: Camera, ctx: Context): (r: Camera)
    requires ctx.VoxelEditorContext?
    ensures r.pitch == c.pitch && r.yaw == c.yaw && r.roll == c.roll
    ensures AnyPreset(ctx) ==> (r.targetX, r.targetY, r.targetZ) == (1250, 1250, 1250) && r.orthographic == c.orthographic
    ensures ctx.frontView == Pressed ==> (r.posX, r.posY, r.posZ) == (1250, 1250, -2500)
    ensures ctx.frontView != Pressed && ctx.leftView == Pressed ==> (r.posX, r.posY, r.posZ) == (2500, 1250, 1250)
    ensures ctx.frontView != Pressed && ctx.leftView != Pressed && ctx.rightView == Pressed ==> (r.posX, r.posY, r.posZ) == (-2500, 1250, 1250)
    ensures ctx.frontView != Pressed && ctx.leftView != Pressed && ctx.rightView != Pressed && ctx.topView == Pressed ==>
      (r.posX, r.posY, r.posZ) == (1250, 1250, 2500)
    ensures !AnyPreset(ctx) ==>
      && (r.posX, r.posY, r.posZ, r.targetX, r.targetZ) == (c.posX, c.posY, c.posZ, c.targetX, c.targetZ)
      && r.targetY == c.targetY + (if ctx.rotateCameraUp == Pressed then 100 else if ctx.rotateCameraDown == Pressed then -100 else 0)
      && (r.orthographic <==> (c.orthographic != (ctx.toggleOrthographicView == Pressed)))
  {
    var rotated :=
      if ctx.rotateCameraUp == Pressed then c.(targetY := c.targetY + MAX_ROTATION)
      else if ctx.rotateCameraDown == Pressed then c.(targetY := c.targetY - MAX_ROTATION)
      else c;
    if ctx.frontView == Pressed then Preset(rotated, (MAX_EDITOR_X / 2, MAX_EDITOR_Y / 2, -MAX_EDITOR_Z))
    else if ctx.leftView == Pressed then Preset(rotated, (MAX_EDITOR_X, MAX_EDITOR_Y / 2, MAX_EDITOR_Z / 2))
    else if ctx.rightView == Pressed then Preset(rotated, (-MAX_EDITOR_X, MAX_EDITOR_Y / 2, MAX_EDITOR_Z / 2))
    else if ctx.topView == Pressed then Preset(rotated, (MAX_EDITOR_X / 2, MAX_EDITOR_Y / 2, MAX_EDITOR_Z))
    else if ctx.toggleOrthographicView == Pressed then rotated.(orthographic := !rotated.orthographic)
    else rotated
  }

  /** A preset forgets where the camera was: applying it again changes nothing. */
  lemma PresetIsIdempotent(c: Camera, ctx: Context)
    requires ctx.VoxelEditorContext? && AnyPreset(ctx)
    ensures CameraStep(CameraStep(c, ctx), ctx) == CameraStep(c, ctx)
  {
  }

  /** Without presets, pressing the orthographic toggle twice restores the view, and rotating up then down restores the target. */
  lemma ToggleAndRotationUndo(c: Camera, ctx: Context, ctx': Context)
    requires ctx.VoxelEditorContext? && ctx'.VoxelEditorContext? && !AnyPreset(ctx) && !AnyPreset(ctx')
    requires ctx.rotateCameraUp == Pressed && ctx'.rotateCameraUp == NotPressed && ctx'.rotateCameraDown == Pressed
    requires ctx.toggleOrthographicView == Pressed && ctx'.toggleOrthographicView == Pressed
    ensures CameraStep(CameraStep(c, ctx), ctx') == c
  {
  }

  /** The cursor's `map_to_range_usize`, supplied by the caller. */
  type CursorMap = (Range, nat, nat) -> nat

  /** The voxel column under the cursor: both cursor axes mapped onto the voxel width. */
  function CursorVoxel(m: ChunkManager, ctx: Context, mapCursor: CursorMap): (nat, nat)
    requires ctx.VoxelEditorContext?
  {
    (mapCursor(ctx.cursorX, 0, VoxelWidth(m)), mapCursor(ctx.cursorY, 0, VoxelWidth(m)))
  }

  function SetActive(on: bool): Voxel -> Voxel
  {
    (v: Voxel) => v.(active := on)
  }

  /**
   The add/remove step on one chunk manager: add wins over remove; either
   writes the voxel under the cursor in slice 0, stamped with the frame.
   */
  function EditVoxel(m: ChunkManager, ctx: Context, frame: nat, idx: Index3d, mapCursor: CursorMap): (r: Result<ChunkManager>)
    requires ctx.VoxelEditorContext?
    ensures ctx.addVoxel == NotPressed && ctx.removeVoxel == NotPressed ==> r == Ok(m)
    ensures var (x, y) := CursorVoxel(m, ctx, mapCursor);
      ctx.addVoxel == Pressed || ctx.removeVoxel == Pressed ==> (r.Ok? <==> Locate(m, x, y, 0, idx).Ok?)
  {
    var (x, y) := CursorVoxel(m, ctx, mapCursor);
    if ctx.addVoxel == Pressed then UpdateVoxel(m, x, y, 0, frame, idx, SetActive(true))
    else if ctx.removeVoxel == Pressed then UpdateVoxel(m, x, y, 0, frame, idx, SetActive(false))
    else Ok(m)
  }

  /** After an edit the voxel under the cursor is active exactly when add was pressed. */
  lemma EditSetsVoxelUnderCursor(m: ChunkManager, ctx: Context, frame: nat, idx: Index3d, mapCursor: CursorMap)
    requires ctx.VoxelEditorContext? && (ctx.addVoxel == Pressed || ctx.removeVoxel == Pressed)
    requires EditVoxel(m, ctx, frame, idx, mapCursor).Ok?
    ensures var (x, y) := CursorVoxel(m, ctx, mapCursor);
      var r := EditVoxel(m, ctx, frame, idx, mapCursor).value;
      && GetVoxel(r, x, y, 0, idx).Ok?
      && GetVoxel(r, x, y, 0, idx).value.active == (ctx.addVoxel == Pressed)
      && GetVoxel(r, x, y, 0, idx).value == GetVoxel(m, x, y, 0, idx).value.(active := ctx.addVoxel == Pressed)
  {
    var (x, y) := CursorVoxel(m, ctx, mapCursor);
    ReadAfterUpdate(m, x, y, 0, frame, idx, SetActive(ctx.addVoxel == Pressed));
  }

  /** The cameras and the voxel components' chunk managers the system writes. */
  datatype World = World(cameras: seq<Camera>, managers: seq<ChunkManager>)

  /** Every camera takes its step. */
  function StepCameras(cams: seq<Camera>, ctx: Context): (r: seq<Camera>)
    requires ctx.VoxelEditorContext?
    ensures |r| == |cams| && forall k :: 0 <= k < |cams| ==> r[k] == CameraStep(cams[k], ctx)
  {
    seq(|cams|, k requires 0 <= k < |cams| => CameraStep(cams[k], ctx))
  }

  /** Every voxel component takes the edit, in order; the first failed lookup aborts. */
  function EditAll(ms: seq<ChunkManager>, ctx: Context, frame: nat, idx: Index3d, mapCursor: CursorMap): (r: Result<seq<ChunkManager>>)
    requires ctx.VoxelEditorContext?
    ensures r.Ok? <==> forall k :: 0 <= k < |ms| ==> EditVoxel(ms[k], ctx, frame, idx, mapCursor).Ok?
    ensures r.Ok? ==> |r.value| == |ms| && forall k :: 0 <= k < |ms| ==> r.value[k] == EditVoxel(ms[k], ctx, frame, idx, mapCursor).value
    decreases |ms|
  {
    if |ms| == 0 then Ok([])
    else
      var m := EditVoxel(ms[0], ctx, frame, idx, mapCursor);
      if m.Fail? then Fail(m.fault)
      else
        var rest := EditAll(ms[1..], ctx, frame, idx, mapCursor);
        if rest.Fail? then rest else Ok([m.value] + rest.value)
  }

  /** One context slot: voxel-editor contexts move the cameras and edit voxels; anything else is skipped. */
  function ApplySlot(w: World, slot: Option<Context>, frame: nat, idx: Index3d, mapCursor: CursorMap): (r: Result<World>)
    ensures !(slot.Some? && slot.value.VoxelEditorContext?) ==> r == Ok(w)
  {
    if slot.Some? && slot.value.VoxelEditorContext? then
      var ctx := slot.value;
      var ms := EditAll(w.managers, ctx, frame, idx, mapCursor);
      if ms.Fail? then Fail(ms.fault) else Ok(World(StepCameras(w.cameras, ctx), ms.value))
    else Ok(w)
  }

  /** The slots of one context manager, from `i` on. */
  function ApplySlots(w: World, slots: seq<Option<Context>>, i: nat, frame: nat, idx: Index3d, mapCursor: CursorMap): (r: Result<World>)
    requires i <= |slots|
    decreases |slots| - i
  {
    if i == |slots| then Ok(w)
    else
      var w1 := ApplySlot(w, slots[i], frame, idx, mapCursor);
      if w1.Fail? then w1 else ApplySlots(w1.value, slots, i + 1, frame, idx, mapCursor)
  }

  /** `run`: every input of the world, every slot of its context manager, in order. */
  function Run(w: World, inputs: seq<GameInput>, frame: nat, idx: Index3d, mapCursor: CursorMap): (r: Result<World>)
    decreases |inputs|
  {
    if |inputs| == 0 then Ok(w)
    else
      var w1 := ApplySlots(w, inputs[0].contextManager.contexts, 0, frame, idx, mapCursor);
      if w1.Fail? then w1 else Run(w1.value, inputs[1..], frame, idx, mapCursor)
  }

  /** No slot of the manager holds a voxel-editor context. */
  predicate NoEditorContext(m: ContextManager)
  {
    forall k :: 0 <= k < |m.contexts| ==> m.contexts[k].None? || !m.contexts[k].value.VoxelEditorContext?
  }

  lemma {:induction false} SlotsWithoutEditorChangeNothing(w: World, slots: seq<Option<Context>>, i: nat, frame: nat, idx: Index3d, mapCursor: CursorMap)
    requires i <= |slots|
    requires forall k :: i <= k < |slots| ==> slots[k].None? || !slots[k].value.VoxelEditorContext?
    ensures ApplySlots(w, slots, i, frame, idx, mapCursor) == Ok(w)
    decreases |slots| - i
  {
    if i < |slots| {
      SlotsWithoutEditorChangeNothing(w, slots, i + 1, frame, idx, mapCursor);
    }
  }

  /** Inputs without a voxel-editor context leave every camera and every voxel as it was. */
  lemma {:induction false} OnlyEditorContextsAct(w: World, inputs: seq<GameInput>, frame: nat, idx: Index3d, mapCursor: CursorMap)
    requires forall j :: 0 <= j < |inputs| ==> NoEditorContext(inputs[j].contextManager)
    ensures Run(w, inputs, frame, idx, mapCursor) == Ok(w)
    decreases |inputs|
  {
    if |inputs| > 0 {
      SlotsWithoutEditorChangeNothing(w, inputs[0].contextManager.contexts, 0, frame, idx, mapCursor);
      OnlyEditorContextsAct(w, inputs[1..], frame, idx, mapCursor);
    }
  }

  /** A manager whose only context is `ctx`, in slot 0, as `add_context` leaves it. */
  lemma SingleEditorContextSteps(w: World, ctx: Context, frame: nat, idx: Index3d, mapCursor: CursorMap)
    requires ctx.VoxelEditorContext?
    ensures var input := GameInput(1, AddContext(InputContexts.NewManager(), ctx));
      var r := Run(w, [input], frame, idx, mapCursor);
      && (r.Ok? <==> EditAll(w.managers, ctx, frame, idx, mapCursor).Ok?)
      && (r.Ok? ==> r.value == World(StepCameras(w.cameras, ctx), EditAll(w.managers, ctx, frame, idx, mapCursor).value))
  {
    var slots := AddContext(InputContexts.NewManager(), ctx).contexts;
    var w1 := ApplySlot(w, slots[0], frame, idx, mapCursor);
    if w1.Ok? {
      SlotsWithoutEditorChangeNothing(w1.value, slots, 1, frame, idx, mapCursor);
    }
    var input := GameInput(1, AddContext(InputContexts.NewManager(), ctx));
    assert [input][1..] == [];
  }

  /** The console's mode menu: "1" adds a voxel, "2" removes one, anything else is refused. */
  datatype Mode = AddMode | RemoveMode | InvalidChoice

  function ConsoleMode(choice: string): (r: Mode)
    ensures r == AddMode <==> choice == "1"
    ensures r == RemoveMode <==> choice == "2"
  {
    if choice == "1" then AddMode else if choice == "2" then RemoveMode else InvalidChoice
  }

  /** What the console does with one line read in add mode. */
  datatype ConsoleOutcome = Reprompt | Coordinates(x: nat, y: nat, z: nat) | Panics

  /** The parts of a line that parse as `usize`, in order. */
  function ParsedParts(parts: seq<string>): (vs: seq<nat>)
    ensures |vs| <= |parts|
    ensures (forall k :: 0 <= k < |parts| ==> ParseUsize(parts[k]).Some?) ==>
      |vs| == |parts| && forall k :: 0 <= k < |parts| ==> vs[k] == ParseUsize(parts[k]).value
    decreases |parts|
  {
    if |parts| == 0 then []
    else
      var p := ParseUsize(parts[0]);
      (if p.Some? then [p.value] else []) + ParsedParts(parts[1..])
  }

  /**
   The coordinate step as written: a line that does not split on ',' into
   three parts is refused and read again; a part that does not parse is
   only skipped, and the first three parsed values are then indexed, which
   panics when fewer than three parsed.
   */
  function ConsoleCoordinates(line: string): (r: ConsoleOutcome)
    ensures |Split(line, ',')| != 3 <==> r == Reprompt
  {
    var parts := Split(line, ',');
    if |parts| != 3 then Reprompt
    else
      var vs := ParsedParts(parts);
      if |vs| < 3 then Panics else Coordinates(vs[0], vs[1], vs[2])
  }

  /** The line "1,x,3" has three parts, one of which does not parse, and makes the console panic. */
  lemma ConsoleCoordinatesPanics()
    ensures ConsoleCoordinates("1,x,3") == Panics
  {
    SplitThree("1", "x", "3", ',');
    assert "1" + [','] + "x" + [','] + "3" == "1,x,3";
    var parts := ["1", "x", "3"];
    assert ParseUsize("1") == Some(1) by { assert AllDigits("1"); }
    assert ParseUsize("3") == Some(3) by { assert AllDigits("3"); }
    assert ParseUsize("x").None? by { assert !IsDigit('x'); }
    assert parts[1..] == ["x", "3"];
    assert parts[1..][1..] == ["3"];
    assert ParsedParts(parts) == [1, 3];
  }

  /**
   The coordinate step as its message "invalid format!" intends: a line is
   refused and read again unless it is exactly three comma-separated
   `usize` values.
   */
  function ConsoleCoordinatesIntended(line: string): (r: ConsoleOutcome)
    ensures r != Panics
    ensures var parts := Split(line, ',');
      r.Coordinates? <==> |parts| == 3 && ParseUsize(parts[0]).Some? && ParseUsize(parts[1]).Some? && ParseUsize(parts[2]).Some?
    ensures r.Coordinates? ==> var parts := Split(line, ',');
      |parts| == 3 && Some(r.x) == ParseUsize(parts[0]) && Some(r.y) == ParseUsize(parts[1]) && Some(r.z) == ParseUsize(parts[2])
  {
    var parts := Split(line, ',');
    if |parts| != 3 then Reprompt
    else
      var x, y, z := ParseUsize(parts[0]), ParseUsize(parts[1]), ParseUsize(parts[2]);
      if x.Some? && y.Some? && z.Some? then Coordinates(x.value, y.value, z.value) else Reprompt
  }

  /** Coordinates printed as "x,y,z" are read back exactly by the intended step, and agree with the step as written. */
  lemma ConsoleCoordinatesRoundTrip(x: nat, y: nat, z: nat)
    requires x <= USIZE_MAX && y <= USIZE_MAX && z <= USIZE_MAX
    ensures var line := Decimal(x) + "," + Decimal(y) + "," + Decimal(z);
      && ConsoleCoordinatesIntended(line) == Coordinates(x, y, z)
      && ConsoleCoordinates(line) == Coordinates(x, y, z)
  {
    var dx, dy, dz := Decimal(x), Decimal(y), Decimal(z);
    assert ',' !in dx && ',' !in dy && ',' !in dz by {
      assert AllDigits(dx) && AllDigits(dy) && AllDigits(dz);
    }
    SplitThree(dx, dy, dz, ',');
    assert dx + "," + dy + "," + dz == dx + [','] + dy + [','] + dz;
    ParsePrinted(x);
    ParsePrinted(y);
    ParsePrinted(z);
  }

  /** The intended step never panics, and where the written step does not panic the two agree. */
  lemma ConsoleIntendedAgrees(line: string)
    ensures ConsoleCoordinates(line) != Panics ==> ConsoleCoordinates(line) == ConsoleCoordinatesIntended(line)
  {
    var parts := Split(line, ',');
    if |parts| == 3 && ConsoleCoordinates(line) != Panics {
      ParsedAllOrFewer(parts);
    }
  }

  /** Fewer values than parts come back exactly when some part does not parse. */
  lemma {:induction false} ParsedAllOrFewer(parts: seq<string>)
    ensures (exists k :: 0 <= k < |parts| && ParseUsize(parts[k]).None?) ==> |ParsedParts(parts)| < |parts|
    decreases |parts|
  {
    if |parts| > 0 {
      ParsedAllOrFewer(parts[1..]);
      if exists k :: 0 <= k < |parts| && ParseUsize(parts[k]).None? {
        var k :| 0 <= k < |parts| && ParseUsize(parts[k]).None?;
        if k > 0 {
          assert parts[1..][k - 1] == parts[k];
        }
      }
    }
  }
  /**
   The console's add mode once it holds coordinates: every voxel component
   sets that voxel active, stamped with the frame; the first failed lookup aborts.
   */
  function ConsoleAdd(ms: seq<ChunkManager>, x: nat, y: nat, z: nat, frame: nat, idx: Index3d): (r: Result<seq<ChunkManager>>)
    ensures r.Ok? <==> forall k :: 0 <= k < |ms| ==> Locate(ms[k], x, y, z, idx).Ok?
    ensures r.Ok? ==> |r.value| == |ms| && forall k :: 0 <= k < |ms| ==>
      GetVoxel(r.value[k], x, y, z, idx) == Ok(GetVoxel(ms[k], x, y, z, idx).value.(active := true))
    decreases |ms|
  {
    if |ms| == 0 then Ok([])
    else
      var m := UpdateVoxel(ms[0], x, y, z, frame, idx, SetActive(true));
      if m.Fail? then Fail(m.fault)
      else
        var rest := ConsoleAdd(ms[1..], x, y, z, frame, idx);
        if rest.Fail? then rest
        else
          ReadAfterUpdate(ms[0], x, y, z, frame, idx, SetActive(true));
          Ok([m.value] + rest.value)
  }
}
