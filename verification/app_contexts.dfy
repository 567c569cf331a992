/**
 The application client's context manager: a stack of contexts that, for
 now, always holds exactly the main menu, and whose tick ignores the
 inputs and starts over.
 */
module AppContexts {

  /** `GameTick`. */
  type GameTick = nat

  /** `Input`. */
  datatype Input = Input(gameTick: GameTick)

  /** `RunType`. */
  datatype RunType = RunWhenActive | AlwaysRun

  /** `Context`. */
  datatype AppContext = AppContext(runType: RunType)

  /** `ContextManager`. */
  datatype AppContextManager = AppContextManager(contextStack: seq<AppContext>)

  /** `new`: the stack holds the main menu, which runs only when active. */
  function NewAppManager(): (m: AppContextManager)
    ensures m.contextStack == [AppContext(RunWhenActive)]
    ensures HasActiveContext(m)
  {
    InitMainMenu(AppContextManager([]))
  }

  /** `init_main_menu`: pushes the main menu. */
  function InitMainMenu(m: AppContextManager): (r: AppContextManager)
    ensures r.contextStack == m.contextStack + [AppContext(RunWhenActive)]
  {
    AppContextManager(m.contextStack + [AppContext(RunWhenActive)])
  }

  /** `tick`: the inputs are not used; the result is a new manager. */
  function Tick(m: AppContextManager, inputs: seq<Input>): (r: AppContextManager)
    ensures r == NewAppManager()
  {
    NewAppManager()
  }

  /** `has_active_context`. */
  predicate HasActiveContext(m: AppContextManager)
  {
    |m.contextStack| != 0
  }

  /** Every manager reachable by ticks has an active context, whatever the inputs. */
  lemma {:induction false} TicksKeepAContext(m: AppContextManager, ticks: seq<seq<Input>>)
    requires HasActiveContext(m)
    ensures HasActiveContext(TickAll(m, ticks))
    ensures |ticks| > 0 ==> TickAll(m, ticks) == NewAppManager()
    decreases |ticks|
  {
    if |ticks| > 0 {
      TicksKeepAContext(Tick(m, ticks[0]), ticks[1..]);
    }
  }

  /** A run of ticks, one per input batch. */
  function TickAll(m: AppContextManager, ticks: seq<seq<Input>>): AppContextManager
    decreases |ticks|
  {
    if |ticks| == 0 then m else TickAll(Tick(m, ticks[0]), ticks[1..])
  }
}
