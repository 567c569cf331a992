/**
 The command pattern's macro command: a stack of commands that runs them
 all, oldest first. A command is any value; running one is recorded as it
 appearing in the returned trace.
 */
module Commands {

  /** `MacroCommand`. */
  datatype MacroCommand<C> = MacroCommand(stack: seq<C>)

  /** `MacroCommand::new`: nothing to run. */
  function NewMacro<C>(): (m: MacroCommand<C>)
    ensures |m.stack| == 0
  {
    MacroCommand([])
  }

  /** `append`: the new command goes on top; the others stay where they were. */
  function Append<C>(m: MacroCommand<C>, c: C): (r: MacroCommand<C>)
    ensures |r.stack| == |m.stack| + 1 && r.stack[|m.stack|] == c
    ensures r.stack[..|m.stack|] == m.stack
  {
    MacroCommand(m.stack + [c])
  }

  /** `undo`: the top command goes; on an empty stack nothing happens. */
  function Undo<C>(m: MacroCommand<C>): (r: MacroCommand<C>)
    ensures |m.stack| == 0 ==> r == m
    ensures |m.stack| > 0 ==> |r.stack| == |m.stack| - 1 && r.stack == m.stack[..|m.stack| - 1]
  {
    if |m.stack| == 0 then m else MacroCommand(m.stack[..|m.stack| - 1])
  }

  /** `clear`. */
  function Clear<C>(m: MacroCommand<C>): (r: MacroCommand<C>)
    ensures |r.stack| == 0
  {
    MacroCommand([])
  }

  /** Undoing an append gives the stack back. */
  lemma UndoAfterAppend<C>(m: MacroCommand<C>, c: C)
    ensures Undo(Append(m, c)) == m
  {
    assert (m.stack + [c])[..|m.stack|] == m.stack;
  }

  /** `execute`: runs every command, in the order they were appended. */
  method Execute<C>(m: MacroCommand<C>) returns (trace: seq<C>)
    ensures |trace| == |m.stack|
    ensures forall i :: 0 <= i < |trace| ==> trace[i] == m.stack[i]
  {
    trace := [];
    var i := 0;
    while i < |m.stack|
      invariant 0 <= i <= |m.stack|
      invariant trace == m.stack[..i]
    {
      trace := trace + [m.stack[i]];
      i := i + 1;
    }
  }
}
