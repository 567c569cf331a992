/**
 The fighting-game input context: four directions and a parry held down,
 five buttons pressed this tick, computed from one tick's events and the
 previous tick's context, with simultaneous opposite directions cleaned
 (left + right gives neutral, up + down gives up).
 */
module FightingContexts {
  import opened Base
  import opened InputTypes

  /** `FightingContext` of the fighting module. */
  datatype FightingContext = FightingContext(
    up: State, down: State, left: State, right: State,
    punchLight: Press, punchHeavy: Press, kickLight: Press, kickHeavy: Press,
    switchStance: Press,
    parryBlock: State)

  /** `FightingContext::new`: nothing held, nothing pressed. */
  function NewFightingContext(): (c: FightingContext)
    ensures c.up == c.down == c.left == c.right == c.parryBlock == Off
    ensures c.punchLight == c.punchHeavy == c.kickLight == c.kickHeavy == c.switchStance == NotPressed
  {
    FightingContext(Off, Off, Off, Off, NotPressed, NotPressed, NotPressed, NotPressed, NotPressed, Off)
  }

  /** The key bindings. */
  const UP_KEYS: seq<Keycode> := [Space]
  const DOWN_KEYS: seq<Keycode> := [S]
  const LEFT_KEYS: seq<Keycode> := [A]
  const RIGHT_KEYS: seq<Keycode> := [D]
  const PARRY_BLOCK_KEYS: seq<Keycode> := [O]
  const PUNCH_LIGHT_KEYS: seq<Keycode> := [U]
  const PUNCH_HEAVY_KEYS: seq<Keycode> := [I]
  const KICK_LIGHT_KEYS: seq<Keycode> := [J]
  const KICK_HEAVY_KEYS: seq<Keycode> := [K]
  const SWITCH_STANCE_KEYS: seq<Keycode> := [L]

  /** The previous context with every press released. */
  function ResetPresses(c: FightingContext): FightingContext
  {
    c.(punchLight := NotPressed, punchHeavy := NotPressed, kickLight := NotPressed,
       kickHeavy := NotPressed, switchStance := NotPressed)
  }

  /** Sets every state whose binding holds `k` to `s`. */
  function SetStates(c: FightingContext, k: Keycode, s: State): FightingContext
  {
    c.(up := if k in UP_KEYS then s else c.up,
       down := if k in DOWN_KEYS then s else c.down,
       left := if k in LEFT_KEYS then s else c.left,
       right := if k in RIGHT_KEYS then s else c.right,
       parryBlock := if k in PARRY_BLOCK_KEYS then s else c.parryBlock)
  }

  /** Presses every button whose binding holds `k`. */
  function SetPresses(c: FightingContext, k: Keycode): FightingContext
  {
    c.(punchLight := if k in PUNCH_LIGHT_KEYS then Pressed else c.punchLight,
       punchHeavy := if k in PUNCH_HEAVY_KEYS then Pressed else c.punchHeavy,
       kickLight := if k in KICK_LIGHT_KEYS then Pressed else c.kickLight,
       kickHeavy := if k in KICK_HEAVY_KEYS then Pressed else c.kickHeavy,
       switchStance := if k in SWITCH_STANCE_KEYS then Pressed else c.switchStance)
  }

  /** The effect of one event of the mapping loop. */
  function Step(c: FightingContext, e: Event): FightingContext
  {
    match e
    case KeyDown(Some(k)) => SetPresses(SetStates(c, k, On), k)
    case KeyUp(Some(k)) => SetStates(c, k, Off)
    case _ => c
  }

  /** The mapping loop over the tick's events, in order. */
  function Fold(c: FightingContext, es: seq<Event>): FightingContext
    decreases |es|
  {
    if |es| == 0 then c else Fold(Step(c, es[0]), es[1..])
  }

  /** A key-up touches no press. */
  lemma KeyUpNeverPresses(c: FightingContext, k: Option<Keycode>)
    ensures var c' := Step(c, KeyUp(k));
      c'.punchLight == c.punchLight && c'.punchHeavy == c.punchHeavy && c'.kickLight == c.kickLight
      && c'.kickHeavy == c.kickHeavy && c'.switchStance == c.switchStance
  {
  }

  /** Quitting and Escape are recognised and ignored: they change nothing. */
  lemma QuitAndEscapeChangeNothing(c: FightingContext)
    ensures Step(c, Quit) == c
    ensures Step(c, KeyDown(Some(Escape))) == c
    ensures Step(c, KeyUp(Some(Escape))) == c
  {
  }

  /**
   The mapping loop against the reference definitions: each held input ends
   in the state of its key's last transition, each button is pressed iff its
   key went down or it already was.
   */
  lemma FoldMatchesReference(c: FightingContext, es: seq<Event>)
    ensures var r := Fold(c, es);
      && r.up == LastState(es, Space, c.up)
      && r.down == LastState(es, S, c.down)
      && r.left == LastState(es, A, c.left)
      && r.right == LastState(es, D, c.right)
      && r.parryBlock == LastState(es, O, c.parryBlock)
      && r.punchLight == (if AnyKeyDown(es, U) then Pressed else c.punchLight)
      && r.punchHeavy == (if AnyKeyDown(es, I) then Pressed else c.punchHeavy)
      && r.kickLight == (if AnyKeyDown(es, J) then Pressed else c.kickLight)
      && r.kickHeavy == (if AnyKeyDown(es, K) then Pressed else c.kickHeavy)
      && r.switchStance == (if AnyKeyDown(es, L) then Pressed else c.switchStance)
  {
    FoldStates(c, es);
    FoldPresses(c, es);
  }

  /** The held inputs of the mapping loop, by induction on the events. */
  lemma {:induction false} FoldStates(c: FightingContext, es: seq<Event>)
    ensures var r := Fold(c, es);
      && r.up == LastState(es, Space, c.up)
      && r.down == LastState(es, S, c.down)
      && r.left == LastState(es, A, c.left)
      && r.right == LastState(es, D, c.right)
      && r.parryBlock == LastState(es, O, c.parryBlock)
    decreases |es|
  {
    if |es| > 0 {
      FoldStates(Step(c, es[0]), es[1..]);
      LastStateSplit(es, Space, c.up);
      LastStateSplit(es, S, c.down);
      LastStateSplit(es, A, c.left);
      LastStateSplit(es, D, c.right);
      LastStateSplit(es, O, c.parryBlock);
    }
  }

  /** The buttons of the mapping loop, by induction on the events. */
  lemma {:induction false} FoldPresses(c: FightingContext, es: seq<Event>)
    ensures var r := Fold(c, es);
      && r.punchLight == (if AnyKeyDown(es, U) then Pressed else c.punchLight)
      && r.punchHeavy == (if AnyKeyDown(es, I) then Pressed else c.punchHeavy)
      && r.kickLight == (if AnyKeyDown(es, J) then Pressed else c.kickLight)
      && r.kickHeavy == (if AnyKeyDown(es, K) then Pressed else c.kickHeavy)
      && r.switchStance == (if AnyKeyDown(es, L) then Pressed else c.switchStance)
    decreases |es|
  {
    if |es| > 0 {
      FoldPresses(Step(c, es[0]), es[1..]);
      AnyKeyDownSplit(es, U);
      AnyKeyDownSplit(es, I);
      AnyKeyDownSplit(es, J);
      AnyKeyDownSplit(es, K);
      AnyKeyDownSplit(es, L);
    }
  }

  /** SOCD cleaning: left + right is neutral, up + down is up. */
  function Clean(c: FightingContext): FightingContext
  {
    var c1 := if c.left == On && c.right == On then c.(left := Off, right := Off) else c;
    if c1.down == On && c1.up == On then c1.(down := Off, up := On) else c1
  }

  /**
   `get_fighting_context`: presses are those whose key went down this tick;
   each held input follows its key's last transition, else keeps its previous
   state; then opposite directions are cleaned. The game tick is unused.
   */
  function GetFightingContext(gameTick: nat, es: seq<Event>, prev: FightingContext): (r: FightingContext)
    ensures r.punchLight == (if AnyKeyDown(es, U) then Pressed else NotPressed)
    ensures r.punchHeavy == (if AnyKeyDown(es, I) then Pressed else NotPressed)
    ensures r.kickLight == (if AnyKeyDown(es, J) then Pressed else NotPressed)
    ensures r.kickHeavy == (if AnyKeyDown(es, K) then Pressed else NotPressed)
    ensures r.switchStance == (if AnyKeyDown(es, L) then Pressed else NotPressed)
    ensures r.parryBlock == LastState(es, O, prev.parryBlock)
    ensures var l, rt := LastState(es, A, prev.left), LastState(es, D, prev.right);
      if l == On && rt == On then r.left == Off && r.right == Off else r.left == l && r.right == rt
    ensures var u, d := LastState(es, Space, prev.up), LastState(es, S, prev.down);
      r.up == u && r.down == (if u == On && d == On then Off else d)
    ensures !(r.left == On && r.right == On) && !(r.up == On && r.down == On)
  {
    FoldMatchesReference(ResetPresses(prev), es);
    Clean(Fold(ResetPresses(prev), es))
  }

  /**
   The cleaning is applied to the stored context, which is the next tick's
   previous context: after left then right go down, releasing left leaves
   right Off although its key is still held.
   */
  lemma CleanedStatePersists()
    ensures var t1 := GetFightingContext(1, [KeyDown(Some(A))], NewFightingContext());
      var t2 := GetFightingContext(2, [KeyDown(Some(D))], t1);
      var t3 := GetFightingContext(3, [KeyUp(Some(A))], t2);
      t1.left == On && t2.left == Off && t2.right == Off && t3.right == Off
  {
  }
}
