/**
 The input contexts a player's input is sent in, their numeric ids, and the
 context manager: a fixed array of ten optional contexts, of which only the
 first slot is ever written.
 */
module InputContexts {
  import opened Base
  import opened InputTypes

  /** `CbInputContexts`: one variant per game mode, each with its own inputs. */
  datatype Context =
    | FightingContext(
        networked: Networked,
        up: State, down: State, left: State, right: State,
        punchLight: Press, punchHeavy: Press, kickLight: Press, kickHeavy: Press)
    | RtsContext(
        networked: Networked,
        select: Press, target: Press, cancel: Press,
        moveUnit: Press, attackMoveUnit: Press, activateAbility: Press,
        cursorX: Range, cursorY: Range)
    | ShooterContext(
        networked: Networked,
        jump: Press,
        crouching: State, running: State, prone: State,
        moveForward: State, moveBackward: State, moveLeft: State, moveRight: State,
        lookX: Range, lookY: Range)
    | VoxelEditorContext(
        networked: Networked,
        openConsole: Press,
        cursorX: Range, cursorY: Range,
        toggleOrthographicView: Press,
        frontView: Press, topView: Press, rightView: Press, leftView: Press,
        rotateCameraUp: Press, rotateCameraDown: Press, rotateCameraLeft: Press, rotateCameraRight: Press,
        addVoxel: Press, removeVoxel: Press)

  /** `ContextId` is a `u8`. */
  type ContextId = b: int | 0 <= b < 256

  /** The id of an empty slot; every context id is allocated after it. */
  const EMPTY_CONTENTS: ContextId := 0
  const FIGHTING_CONTEXT_ID: ContextId := EMPTY_CONTENTS + 1
  const RTS_CONTEXT_ID: ContextId := FIGHTING_CONTEXT_ID + 1
  const SHOOTER_CONTEXT_ID: ContextId := RTS_CONTEXT_ID + 1
  const VOXEL_EDITOR_CONTEXT_ID: ContextId := SHOOTER_CONTEXT_ID + 1

  /** `get_context_id_from_context`. */
  function ContextIdOf(c: Context): ContextId
  {
    match c
    case FightingContext(_, _, _, _, _, _, _, _, _) => FIGHTING_CONTEXT_ID
    case RtsContext(_, _, _, _, _, _, _, _, _) => RTS_CONTEXT_ID
    case ShooterContext(_, _, _, _, _, _, _, _, _, _, _) => SHOOTER_CONTEXT_ID
    case VoxelEditorContext(_, _, _, _, _, _, _, _, _, _, _, _, _, _, _) => VOXEL_EDITOR_CONTEXT_ID
  }

  /** Two contexts share an id exactly when they are the same variant, and no context has the empty id. */
  lemma ContextIdsIdentifyVariants(a: Context, b: Context)
    ensures ContextIdOf(a) != EMPTY_CONTENTS
    ensures ContextIdOf(a) == ContextIdOf(b) <==>
      (a.FightingContext? && b.FightingContext?) || (a.RtsContext? && b.RtsContext?)
      || (a.ShooterContext? && b.ShooterContext?) || (a.VoxelEditorContext? && b.VoxelEditorContext?)
  {
  }

  const NUM_ACTIVE_CONTEXTS: nat := 10

  /** The slots of a manager: always NUM_ACTIVE_CONTEXTS of them. */
  type Slots = s: seq<Option<Context>> | |s| == NUM_ACTIVE_CONTEXTS witness seq(10, _ => None)

  /** `CbContextManager`. */
  datatype ContextManager = ContextManager(contexts: Slots)

  /** `CbContextManager::new`: every slot empty. */
  function NewManager(): (m: ContextManager)
    ensures forall i :: 0 <= i < |m.contexts| ==> m.contexts[i].None?
  {
    ContextManager(seq(NUM_ACTIVE_CONTEXTS, _ => None))
  }

  /** Slot `i` holds a context with id `id`. */
  predicate Holds(slots: seq<Option<Context>>, i: int, id: ContextId)
    requires 0 <= i < |slots|
  {
    slots[i].Some? && ContextIdOf(slots[i].value) == id
  }

  /** The first slot from `from` on that holds a context with id `id`. */
  function FirstWithId(slots: seq<Option<Context>>, id: ContextId, from: nat): (r: Option<Context>)
    requires from <= |slots|
    ensures r.Some? ==> exists i :: from <= i < |slots| && Holds(slots, i, id) && slots[i] == r
                          && forall k :: from <= k < i ==> !Holds(slots, k, id)
    ensures r.None? <==> forall i :: from <= i < |slots| ==> !Holds(slots, i, id)
    decreases |slots| - from
  {
    if from == |slots| then None
    else if Holds(slots, from, id) then slots[from]
    else FirstWithId(slots, id, from + 1)
  }

  /**
   `get_context`: the first occupied slot whose context has id `id`, or
   None when there is none.
   */
  function GetContext(m: ContextManager, id: ContextId): (r: Option<Context>)
    ensures r.Some? ==> ContextIdOf(r.value) == id
    ensures r.Some? ==> exists i :: 0 <= i < |m.contexts| && m.contexts[i] == r
                          && forall k :: 0 <= k < i ==> !Holds(m.contexts, k, id)
    ensures r.None? <==> forall i :: 0 <= i < |m.contexts| ==> !Holds(m.contexts, i, id)
  {
    FirstWithId(m.contexts, id, 0)
  }

  /** `add_context`: writes slot 0; every other slot is unchanged. */
  function AddContext(m: ContextManager, c: Context): (m': ContextManager)
    ensures m'.contexts[0] == Some(c)
    ensures forall i :: 1 <= i < |m.contexts| ==> m'.contexts[i] == m.contexts[i]
  {
    ContextManager(m.contexts[0 := Some(c)])
  }

  /** `CbGameInput`: a player id and that player's context manager. */
  datatype GameInput = GameInput(playerId: nat, contextManager: ContextManager)

  /** A context just added is the one found under its id. */
  lemma AddThenGet(m: ContextManager, c: Context)
    ensures GetContext(AddContext(m, c), ContextIdOf(c)) == Some(c)
  {
    var m' := AddContext(m, c);
    assert Holds(m'.contexts, 0, ContextIdOf(c));
  }

  /** In a new manager no id is found. */
  lemma NewManagerFindsNothing(id: ContextId)
    ensures GetContext(NewManager(), id) == None
  {
  }
}
