/**
 The input vocabulary shared by the contexts: the three input kinds
 (`Press`, `State`, `Range`), the `Networked` flag, and the part of the
 window system's event stream the engine reads.

 Two reference definitions describe what a fold over one tick's events
 should produce: the last transition of a held key, and whether a key went
 down at all.
 */
module InputTypes {
  import opened Base

  /** A one-tick input: pressed during this tick or not. */
  datatype Press = Pressed | NotPressed

  /** A held input. */
  datatype State = On | Off

  /** An analogue input (`Range { value: i32 }`). */
  datatype Range = Range(value: int)

  /** Whether a context is sent over the network. */
  datatype Networked = NetOn | NetOff

  /** The keys the engine binds; every other key is `OtherKey`. */
  datatype Keycode = Space | W | A | S | D | C | O | U | I | J | K | L | Z | Y | LCtrl | LShift | Escape | OtherKey

  /** The window events the engine distinguishes. */
  datatype Event =
    | KeyDown(keycode: Option<Keycode>)
    | KeyUp(keycode: Option<Keycode>)
    | Quit
    | MouseMotion(x: int, y: int)
    | MouseButtonDown(x: int, y: int)
    | MouseButtonUp(x: int, y: int)
    | OtherEvent

  /**
   The state a held key is left in by `es`: On after its last key-down, Off
   after its last key-up, `prev` if neither occurs.
   */
  function LastState(es: seq<Event>, key: Keycode, prev: State): State
    decreases |es|
  {
    if |es| == 0 then prev
    else if es[|es| - 1] == KeyDown(Some(key)) then On
    else if es[|es| - 1] == KeyUp(Some(key)) then Off
    else LastState(es[..|es| - 1], key, prev)
  }

  /** Some event of `es` is a key-down of `key`. */
  predicate AnyKeyDown(es: seq<Event>, key: Keycode)
  {
    exists i :: 0 <= i < |es| && es[i] == KeyDown(Some(key))
  }

  /** Folding from the front: the last state of `es` is the last state of its tail, starting from the first event's effect. */
  lemma {:induction false} LastStateSplit(es: seq<Event>, key: Keycode, prev: State)
    requires |es| > 0
    ensures LastState(es, key, prev) == LastState(es[1..], key, LastState(es[..1], key, prev))
    decreases |es|
  {
    if |es| > 1 {
      var init := es[..|es| - 1];
      assert init[1..] == es[1..][..|es[1..]| - 1];
      assert init[..1] == es[..1];
      LastStateSplit(init, key, prev);
    }
  }

  /** An event that is neither a key-down nor a key-up of `key` leaves its state alone. */
  lemma UnrelatedEventKeepsState(es: seq<Event>, key: Keycode, prev: State)
    requires forall i :: 0 <= i < |es| ==> es[i] != KeyDown(Some(key)) && es[i] != KeyUp(Some(key))
    ensures LastState(es, key, prev) == prev
  {
    if |es| > 0 {
      UnrelatedEventKeepsState(es[..|es| - 1], key, prev);
    }
  }

  /** `AnyKeyDown` of a non-empty list splits at its first event. */
  lemma AnyKeyDownSplit(es: seq<Event>, key: Keycode)
    requires |es| > 0
    ensures AnyKeyDown(es, key) <==> es[0] == KeyDown(Some(key)) || AnyKeyDown(es[1..], key)
  {
    if AnyKeyDown(es, key) {
      var i :| 0 <= i < |es| && es[i] == KeyDown(Some(key));
      if i > 0 {
        assert es[1..][i - 1] == es[i];
      }
    }
    if AnyKeyDown(es[1..], key) {
      var i :| 0 <= i < |es[1..]| && es[1..][i] == KeyDown(Some(key));
      assert es[i + 1] == es[1..][i];
    }
  }
}
