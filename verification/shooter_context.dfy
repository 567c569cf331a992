/**
 The shooter input context, computed from one tick's key events and the
 cursor. Unlike the fighting context, held inputs start released every tick:
 only this tick's key transitions count.
 */
module ShooterContexts {
  import opened Base
  import opened InputTypes
  import opened InputContexts

  /** `new_shooter_context`: networked, nothing held or pressed, looking at (0, 0). */
  function NewShooterContext(): (c: Context)
    ensures c.ShooterContext? && c.networked == NetOn && c.jump == NotPressed
    ensures c.crouching == c.running == c.prone == Off
    ensures c.moveForward == c.moveBackward == c.moveLeft == c.moveRight == Off
    ensures c.lookX == Range(0) && c.lookY == Range(0)
  {
    ShooterContext(NetOn, NotPressed, Off, Off, Off, Off, Off, Off, Off, Range(0), Range(0))
  }

  /** The loop's locals: `new_jump` and the seven `new_*` states. */
  datatype Inputs = Inputs(
    jump: Press,
    crouching: State, running: State, prone: State,
    moveForward: State, moveBackward: State, moveLeft: State, moveRight: State)

  const RELEASED: Inputs := Inputs(NotPressed, Off, Off, Off, Off, Off, Off, Off)

  /** The effect of one event; the arms are tried in source order. */
  function Step(n: Inputs, e: Event): Inputs
  {
    match e
    case Quit => n
    case KeyDown(Some(Escape)) => n
    case KeyDown(Some(Space)) => n.(jump := Pressed)
    case KeyDown(Some(W)) => n.(moveForward := On)
    case KeyDown(Some(A)) => n.(moveLeft := On)
    case KeyDown(Some(S)) => n.(moveBackward := On)
    case KeyDown(Some(D)) => n.(moveRight := On)
    case KeyDown(Some(C)) => n.(crouching := On)
    case KeyDown(Some(LCtrl)) => n.(prone := On)
    case KeyDown(Some(LShift)) => n.(running := On)
    case KeyUp(Some(W)) => n.(moveForward := Off)
    case KeyUp(Some(A)) => n.(moveLeft := Off)
    case KeyUp(Some(S)) => n.(moveBackward := Off)
    case KeyUp(Some(D)) => n.(moveRight := Off)
    case KeyUp(Some(C)) => n.(crouching := Off)
    case KeyUp(Some(LCtrl)) => n.(prone := Off)
    case KeyUp(Some(LShift)) => n.(running := Off)
    case _ => n
  }

  /** The event loop, in order. */
  function Fold(n: Inputs, es: seq<Event>): Inputs
    decreases |es|
  {
    if |es| == 0 then n else Fold(Step(n, es[0]), es[1..])
  }

  /** Quitting and Escape are recognised and ignored. */
  lemma QuitAndEscapeChangeNothing(n: Inputs)
    ensures Step(n, Quit) == n && Step(n, KeyDown(Some(Escape))) == n
  {
  }

  /** What one event does to a held input: a key-down of its key turns it on, a key-up off. */
  function Follow(e: Event, key: Keycode, s: State): State
  {
    if e == KeyDown(Some(key)) then On else if e == KeyUp(Some(key)) then Off else s
  }

  /** One step, field by field. */
  lemma StepByField(n: Inputs, e: Event)
    ensures var r := Step(n, e);
      && r.jump == (if e == KeyDown(Some(Space)) then Pressed else n.jump)
      && r.moveForward == Follow(e, W, n.moveForward)
      && r.moveLeft == Follow(e, A, n.moveLeft)
      && r.moveBackward == Follow(e, S, n.moveBackward)
      && r.moveRight == Follow(e, D, n.moveRight)
      && r.crouching == Follow(e, C, n.crouching)
      && r.prone == Follow(e, LCtrl, n.prone)
      && r.running == Follow(e, LShift, n.running)
  {
  }

  /**
   The event loop against the reference definitions: `jump` is pressed iff
   Space went down (or it already was), and W/A/S/D, C, LCtrl, LShift drive
   forward/left/backward/right, crouching, prone and running.
   */
  lemma {:induction false} FoldMatchesReference(n: Inputs, es: seq<Event>)
    ensures var r := Fold(n, es);
      && r.jump == (if AnyKeyDown(es, Space) then Pressed else n.jump)
      && r.moveForward == LastState(es, W, n.moveForward)
      && r.moveLeft == LastState(es, A, n.moveLeft)
      && r.moveBackward == LastState(es, S, n.moveBackward)
      && r.moveRight == LastState(es, D, n.moveRight)
      && r.crouching == LastState(es, C, n.crouching)
      && r.prone == LastState(es, LCtrl, n.prone)
      && r.running == LastState(es, LShift, n.running)
    decreases |es|
  {
    if |es| > 0 {
      StepByField(n, es[0]);
      FoldMatchesReference(Step(n, es[0]), es[1..]);
      AnyKeyDownSplit(es, Space);
      LastStateSplit(es, W, n.moveForward);
      LastStateSplit(es, A, n.moveLeft);
      LastStateSplit(es, S, n.moveBackward);
      LastStateSplit(es, D, n.moveRight);
      LastStateSplit(es, C, n.crouching);
      LastStateSplit(es, LCtrl, n.prone);
      LastStateSplit(es, LShift, n.running);
    }
  }

  /**
   `get_shooter_context_from_keys`: the events are read only when the
   previous context (or a new one, when there is none) is a shooter context;
   the held inputs ignore the previous values; the look inputs are the
   cursor's coordinates, which are parameters here.
   */
  function GetShooterContextFromKeys(es: seq<Event>, previous: Option<Context>, cursorX: int, cursorY: int): (r: Context)
    ensures r.ShooterContext? && r.networked == NetOn
    ensures r.lookX == Range(cursorX) && r.lookY == Range(cursorY)
    ensures var read := previous.None? || previous.value.ShooterContext?;
      var ev := if read then es else [];
      && r.jump == (if AnyKeyDown(ev, Space) then Pressed else NotPressed)
      && r.moveForward == LastState(ev, W, Off)
      && r.moveLeft == LastState(ev, A, Off)
      && r.moveBackward == LastState(ev, S, Off)
      && r.moveRight == LastState(ev, D, Off)
      && r.crouching == LastState(ev, C, Off)
      && r.prone == LastState(ev, LCtrl, Off)
      && r.running == LastState(ev, LShift, Off)
  {
    var ctx := if previous.None? then NewShooterContext() else previous.value;
    var n := if ctx.ShooterContext? then Fold(RELEASED, es) else RELEASED;
    FoldMatchesReference(RELEASED, es);
    ShooterContext(NetOn, n.jump, n.crouching, n.running, n.prone,
                   n.moveForward, n.moveBackward, n.moveLeft, n.moveRight,
                   Range(cursorX), Range(cursorY))
  }

  /** A held key does not carry over: with no events every held input is released. */
  lemma NoEventsReleaseEverything(previous: Option<Context>, cursorX: int, cursorY: int)
    ensures var r := GetShooterContextFromKeys([], previous, cursorX, cursorY);
      r.jump == NotPressed && r.moveForward == Off && r.moveLeft == Off && r.moveBackward == Off
      && r.moveRight == Off && r.crouching == Off && r.prone == Off && r.running == Off
  {
  }

  /**
   `get_rmercury_inputs`: player 1's input, with a new manager holding the
   tick's shooter context in slot 0 and nothing else.
   */
  function GetRmercuryInputs(es: seq<Event>, previous: Option<Context>, cursorX: int, cursorY: int): (gi: GameInput)
    ensures gi.playerId == 1
    ensures gi.contextManager.contexts[0] == Some(GetShooterContextFromKeys(es, previous, cursorX, cursorY))
    ensures forall i :: 1 <= i < |gi.contextManager.contexts| ==> gi.contextManager.contexts[i].None?
    ensures GetContext(gi.contextManager, SHOOTER_CONTEXT_ID) == Some(GetShooterContextFromKeys(es, previous, cursorX, cursorY))
  {
    var shooter := GetShooterContextFromKeys(es, previous, cursorX, cursorY);
    AddThenGet(NewManager(), shooter);
    GameInput(1, AddContext(NewManager(), shooter))
  }
}
