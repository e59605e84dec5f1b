/** The application loop of the monitor test: the static table from states
    to their operations, the application context, the double-buffered
    graphics context, and `Run`, which calls the current state's Init once
    and then, while Running is TRUE, calls its Doit and copies the back
    buffer into the front buffer.

    The menu operations themselves are not part of this model. A call
    through one of the table's function pointers is an oracle: the `Effect`
    given for that call says what it leaves in the context and what it draws
    into the back buffer. Termination of the loop depends on those
    operations, so `Run` is given the effects of finitely many Doit calls
    and stops, reporting so, when they are used up while Running is still
    TRUE. */
module RunLoop {
  import opened Efi

  /** UMT_STATE: the application's states, as far as the one-entry table
      initializer shows them (the declaring header is not modelled). */
  datatype UmtState = MainMenu

  /** UMT_STATE_END: the number of states, and the size of the table. */
  const UMT_STATE_END: nat := 1

  function StateIndex(s: UmtState): (i: nat) {
    match s
    case MainMenu => 0
  }

  /** The menu functions the table's pointers designate. */
  datatype ActionFn = MainMenuInit | MainMenuDoit | MainMenuTip | MainMenuKeyRight | MainMenuKeyLeft

  /** UMT_STATE_ACTIONS: the five operations bound to one state. */
  datatype StateActions = StateActions(Init: ActionFn, Doit: ActionFn, Tip: ActionFn, KeyRight: ActionFn, KeyLeft: ActionFn)

  /** mStateActions, indexed by state. */
  const mStateActions: seq<StateActions> :=
    [StateActions(MainMenuInit, MainMenuDoit, MainMenuTip, MainMenuKeyRight, MainMenuKeyLeft)]

  /** The table entry for `s`: the table covers every state, and each entry
      binds five distinct operations, one per slot. */
  function ActionsOf(s: UmtState): (a: StateActions)
    ensures |mStateActions| == UMT_STATE_END && StateIndex(s) < UMT_STATE_END
    ensures a == mStateActions[StateIndex(s)]
    ensures a.Init != a.Doit && a.Init != a.Tip && a.Init != a.KeyRight && a.Init != a.KeyLeft
    ensures a.Doit != a.Tip && a.Doit != a.KeyRight && a.Doit != a.KeyLeft
    ensures a.Tip != a.KeyRight && a.Tip != a.KeyLeft && a.KeyRight != a.KeyLeft
  {
    mStateActions[StateIndex(s)]
  }

  /** The part of UMT_CONTEXT the operations read and write. */
  datatype View = View(state: UmtState, running: Boolean, showTip: Boolean, actions: StateActions)

  /** Actions designates the table entry of State. */
  predicate InSync(v: View) {
    v.actions == ActionsOf(v.state)
  }

  /** The context Run builds before any operation is called. */
  const InitialView: View := View(MainMenu, TRUE, FALSE, ActionsOf(MainMenu))

  /** What one call of a menu operation does: the context fields it leaves
      behind, Actions included, and the bytes it draws at the start of the
      back buffer. A well-behaved operation that changes State also points
      Actions at the new state's entry (`KeepsSync`); the harness does not
      rely on it. */
  datatype Effect = Effect(state: UmtState, running: Boolean, showTip: Boolean, actions: StateActions, frame: seq<uint8>)

  predicate KeepsSync(e: Effect) {
    e.actions == ActionsOf(e.state)
  }

  /** The context an operation leaves: its effect's fields, nothing else. */
  function Applied(e: Effect): (v: View)
    ensures v.state == e.state && v.running == e.running && v.showTip == e.showTip
    ensures InSync(v) <==> KeepsSync(e)
  {
    View(e.state, e.running, e.showTip, e.actions)
  }

  /** The back buffer after `frame` is drawn over its first bytes. */
  function Paint(back: seq<uint8>, frame: seq<uint8>): (r: seq<uint8>)
    ensures |r| == |back|
    ensures forall i | 0 <= i < |r| :: r[i] == if i < |frame| then frame[i] else back[i]
  {
    var k := if |frame| < |back| then |frame| else |back|;
    frame[..k] + back[k..]
  }

  /** Everything one tick touches: the context view, the back buffer and
      the whole front buffer, of which the first |back| bytes are copied. */
  datatype Machine = Machine(view: View, back: seq<uint8>, front: seq<uint8>)

  predicate Fits(m: Machine) {
    |m.back| <= |m.front|
  }

  /** A menu operation's call. */
  function Act(m: Machine, e: Effect): (r: Machine)
    ensures r.view == Applied(e) && r.front == m.front && |r.back| == |m.back|
  {
    Machine(Applied(e), Paint(m.back, e.frame), m.front)
  }

  /** The buffer swap: the back buffer over the first |back| bytes of the
      front buffer; nothing else changes. */
  function Swap(m: Machine): (r: Machine)
    requires Fits(m)
    ensures Fits(r) && r.view == m.view && r.back == m.back && |r.front| == |m.front|
    ensures r.front[..|m.back|] == m.back && r.front[|m.back|..] == m.front[|m.back|..]
  {
    Machine(m.view, m.back, m.back + m.front[|m.back|..])
  }

  function Tick(m: Machine, e: Effect): (r: Machine)
    requires Fits(m)
  {
    Swap(Act(m, e))
  }

  /** The number of Doit calls the loop makes with these effects. */
  function TickCount(m: Machine, ticks: seq<Effect>): (n: nat)
    requires Fits(m)
    ensures n <= |ticks|
    ensures n == 0 <==> m.view.running != TRUE || ticks == []
    decreases |ticks|
  {
    if m.view.running != TRUE || ticks == [] then 0
    else 1 + TickCount(Tick(m, ticks[0]), ticks[1..])
  }

  /** What the loop leaves behind. */
  function Loop(m: Machine, ticks: seq<Effect>): (r: Machine)
    requires Fits(m)
    ensures Fits(r) && |r.back| == |m.back| && |r.front| == |m.front|
    decreases |ticks|
  {
    if m.view.running != TRUE || ticks == [] then m
    else Loop(Tick(m, ticks[0]), ticks[1..])
  }

  /** What Run calls, in order: the operation called through each slot with
      the context it sees, and each swap with the number of bytes copied. */
  datatype Event = Init(fn: ActionFn, seen: View) | Doit(fn: ActionFn, seen: View) | Copy(bytes: nat)

  /** The two slots of UMT_STATE_ACTIONS that Run calls through. */
  datatype Slot = InitSlot | DoitSlot

  /** The event of a call through `slot` on the context `v`: the operation
      is the one `v`'s Actions entry holds in that slot. */
  function CallOf(slot: Slot, v: View): (ev: Event) {
    match slot
    case InitSlot => Init(v.actions.Init, v)
    case DoitSlot => Doit(v.actions.Doit, v)
  }

  function LoopTrace(m: Machine, ticks: seq<Effect>): (r: seq<Event>)
    requires Fits(m)
    ensures |r| == 2 * TickCount(m, ticks)
    decreases |ticks|
  {
    if m.view.running != TRUE || ticks == [] then []
    else [Doit(m.view.actions.Doit, m.view), Copy(|m.back|)] + LoopTrace(Tick(m, ticks[0]), ticks[1..])
  }

  /** The machine when the loop is entered: the initial context, after Init. */
  function Started(back: seq<uint8>, front: seq<uint8>, init: Effect): (m: Machine) {
    Act(Machine(InitialView, back, front), init)
  }

  function RunTrace(m: Machine, ticks: seq<Effect>): (r: seq<Event>)
    requires Fits(m)
  {
    [Init(InitialView.actions.Init, InitialView)] + LoopTrace(m, ticks)
  }

  /** Each iteration is one Doit followed by one swap of the whole back
      buffer; nothing else is called. So the loop calls Doit and swaps
      exactly TickCount times each. */
  lemma {:induction false} LoopTraceShape(m: Machine, ticks: seq<Effect>)
    requires Fits(m)
    ensures forall j | 0 <= j < |LoopTrace(m, ticks)| ::
      (LoopTrace(m, ticks)[j].Doit? <==> j % 2 == 0) &&
      (LoopTrace(m, ticks)[j].Copy? <==> j % 2 == 1) &&
      (LoopTrace(m, ticks)[j].Copy? ==> LoopTrace(m, ticks)[j].bytes == |m.back|)
    decreases |ticks|
  {
    if m.view.running == TRUE && ticks != [] {
      var m' := Tick(m, ticks[0]);
      LoopTraceShape(m', ticks[1..]);
      var rest := LoopTrace(m', ticks[1..]);
      var tr := LoopTrace(m, ticks);
      assert tr == [Doit(m.view.actions.Doit, m.view), Copy(|m.back|)] + rest;
      forall j | 2 <= j < |tr| ensures tr[j] == rest[j - 2] && (j - 2) % 2 == j % 2 { }
    }
  }

  /** Init is called once, first, with the context Run built; every later
      call is a Doit or a swap. */
  lemma InitOnceFirst(m: Machine, ticks: seq<Effect>)
    requires Fits(m)
    ensures RunTrace(m, ticks)[0] == Init(MainMenuInit, View(MainMenu, TRUE, FALSE, ActionsOf(MainMenu)))
    ensures forall j | 1 <= j < |RunTrace(m, ticks)| :: !RunTrace(m, ticks)[j].Init?
    ensures |RunTrace(m, ticks)| == 1 + 2 * TickCount(m, ticks)
  {
    LoopTraceShape(m, ticks);
    var tr := RunTrace(m, ticks);
    forall j | 1 <= j < |tr| ensures !tr[j].Init? {
      assert tr[j] == LoopTrace(m, ticks)[j - 1];
    }
  }

  /** Each Doit is called through the Doit slot of the context it sees, and
      that context is exactly what the previous operation left: the harness
      itself never writes State, Actions, Running or ShowTip between calls. */
  lemma {:induction false} DoitSeesPreviousAction(m: Machine, ticks: seq<Effect>)
    requires Fits(m)
    ensures forall j | 0 <= j < |LoopTrace(m, ticks)| && LoopTrace(m, ticks)[j].Doit? ::
      LoopTrace(m, ticks)[j].fn == LoopTrace(m, ticks)[j].seen.actions.Doit &&
      LoopTrace(m, ticks)[j].seen == (if j < 2 then m.view else Applied(ticks[j / 2 - 1]))
    decreases |ticks|
  {
    if m.view.running == TRUE && ticks != [] {
      var m' := Tick(m, ticks[0]);
      DoitSeesPreviousAction(m', ticks[1..]);
      var rest := LoopTrace(m', ticks[1..]);
      var tr := LoopTrace(m, ticks);
      assert tr == [Doit(m.view.actions.Doit, m.view), Copy(|m.back|)] + rest;
      forall j | 0 <= j < |tr| && tr[j].Doit?
        ensures tr[j].fn == tr[j].seen.actions.Doit
        ensures tr[j].seen == (if j < 2 then m.view else Applied(ticks[j / 2 - 1]))
      {
        if j >= 2 {
          assert tr[j] == rest[j - 2];
          if j - 2 < 2 {
            assert m'.view == Applied(ticks[0]);
          } else {
            assert (j - 2) / 2 - 1 == j / 2 - 2;
            assert ticks[1..][j / 2 - 2] == ticks[j / 2 - 1];
          }
        }
      }
    }
  }

  /** The loop stops only after a Doit that leaves Running other than TRUE:
      every Doit before the last one left it TRUE, and the context the loop
      leaves is the one the last operation left. */
  lemma {:induction false} ExitOnlyAfterStop(m: Machine, ticks: seq<Effect>)
    requires Fits(m)
    ensures forall j | 0 <= j < TickCount(m, ticks) - 1 :: ticks[j].running == TRUE
    ensures Loop(m, ticks).view == if TickCount(m, ticks) == 0 then m.view else Applied(ticks[TickCount(m, ticks) - 1])
    ensures TickCount(m, ticks) < |ticks| ==> Loop(m, ticks).view.running != TRUE
    decreases |ticks|
  {
    if m.view.running == TRUE && ticks != [] {
      var m' := Tick(m, ticks[0]);
      ExitOnlyAfterStop(m', ticks[1..]);
      var n := TickCount(m, ticks);
      assert n == 1 + TickCount(m', ticks[1..]);
      forall j | 0 <= j < n - 1 ensures ticks[j].running == TRUE {
        if j > 0 {
          assert ticks[j] == ticks[1..][j - 1];
        }
      }
      if n > 1 {
        assert ticks[n - 1] == ticks[1..][n - 2];
      }
    }
  }

  /** When the loop starts in sync and every operation that changes State
      also moves Actions to the new state's entry, every Doit goes through
      the Doit slot of its State's table entry and the loop ends in sync. */
  lemma ActionsStayInSync(m: Machine, ticks: seq<Effect>)
    requires Fits(m) && InSync(m.view)
    requires forall j | 0 <= j < |ticks| :: KeepsSync(ticks[j])
    ensures forall j | 0 <= j < |LoopTrace(m, ticks)| && LoopTrace(m, ticks)[j].Doit? ::
      InSync(LoopTrace(m, ticks)[j].seen) &&
      LoopTrace(m, ticks)[j].fn == ActionsOf(LoopTrace(m, ticks)[j].seen.state).Doit
    ensures InSync(Loop(m, ticks).view)
  {
    DoitSeesPreviousAction(m, ticks);
    ExitOnlyAfterStop(m, ticks);
  }

  /** After the loop the first BufferSize bytes of the front buffer equal the
      back buffer, unless no tick ran, in which case nothing changed; the
      bytes of the front buffer beyond BufferSize are never touched. */
  lemma {:induction false} FrontMirrorsBack(m: Machine, ticks: seq<Effect>)
    requires Fits(m)
    ensures Fits(Loop(m, ticks)) && |Loop(m, ticks).back| == |m.back| && |Loop(m, ticks).front| == |m.front|
    ensures Loop(m, ticks).front[|m.back|..] == m.front[|m.back|..]
    ensures TickCount(m, ticks) > 0 ==> Loop(m, ticks).front[..|m.back|] == Loop(m, ticks).back
    ensures TickCount(m, ticks) == 0 ==> Loop(m, ticks) == m
    decreases |ticks|
  {
    if m.view.running == TRUE && ticks != [] {
      var m' := Tick(m, ticks[0]);
      FrontMirrorsBack(m', ticks[1..]);
    }
  }

  /** N Doit calls that all leave Running TRUE: exactly N swaps, the effects
      run out with the loop still running, and the front buffer shows what
      the last Doit drew. */
  lemma {:induction false} SteadyTicks(m: Machine, ticks: seq<Effect>)
    requires Fits(m) && m.view.running == TRUE
    requires forall j | 0 <= j < |ticks| :: ticks[j].running == TRUE
    ensures TickCount(m, ticks) == |ticks|
    ensures Loop(m, ticks).view.running == TRUE
    ensures |ticks| > 0 ==> Loop(m, ticks).front[..|m.back|] == Loop(m, ticks).back
    decreases |ticks|
  {
    FrontMirrorsBack(m, ticks);
    if ticks != [] {
      var m' := Tick(m, ticks[0]);
      SteadyTicks(m', ticks[1..]);
    }
  }

  /** GRAPHICS_CONTEXT: the front buffer borrowed from the display and the
      back buffer the application owns; BufferSize bytes are copied per
      swap. */
  class GraphicsContext {
    var FrontBuffer: array<uint8>
    var BackBuffer: array<uint8>
    var BufferSize: nat

    ghost predicate Valid()
      reads this
    {
      FrontBuffer != BackBuffer && BackBuffer.Length == BufferSize && BufferSize <= FrontBuffer.Length
    }

    /** PrepareGraphicsInfo when it succeeds: the front buffer is borrowed,
        a back buffer of `size` bytes is allocated. */
    constructor Prepare(front: array<uint8>, size: nat)
      requires size <= front.Length
      ensures Valid() && FrontBuffer == front && BufferSize == size && fresh(BackBuffer)
    {
      FrontBuffer := front;
      BackBuffer := new uint8[size];
      BufferSize := size;
    }

    ghost function Buffers(view: View): (m: Machine)
      reads this, FrontBuffer, BackBuffer
      requires Valid()
      ensures Fits(m)
    {
      Machine(view, BackBuffer[..], FrontBuffer[..])
    }
  }

  /** UMT_CONTEXT. */
  class UmtContext {
    var State: UmtState
    var Running: Boolean
    var ShowTip: Boolean
    var Actions: StateActions
    var Graphics: GraphicsContext
    /** The calls made so far through this context's table entry, and the
        buffer swaps, in order. */
    ghost var Calls: seq<Event>

    function Snapshot(): (v: View)
      reads this
    {
      View(State, Running, ShowTip, Actions)
    }

    /** The context as Run fills it in before calling any operation. */
    constructor (graphics: GraphicsContext)
      ensures Snapshot() == InitialView && Graphics == graphics && Calls == []
    {
      State := MainMenu;
      Running := TRUE;
      ShowTip := FALSE;
      Actions := ActionsOf(MainMenu);
      Graphics := graphics;
      Calls := [];
    }
  }

  /** CopyMem of `n` bytes from `src` to `dst`. */
  method CopyMem(dst: array<uint8>, src: array<uint8>, n: nat)
    requires dst != src && n <= dst.Length && n <= src.Length
    modifies dst
    ensures dst[..] == src[..n] + old(dst[n..])
  {
    forall i | 0 <= i < n {
      dst[i] := src[i];
    }
  }

  /** A call through the `slot` pointer of the context's current Actions
      entry. The operation's body is not part of this model; `e` says what
      the call leaves in the context and draws into the back buffer. The
      call is appended to the context's log with the context it saw. */
  method Invoke(slot: Slot, ctx: UmtContext, e: Effect)
    requires ctx.Graphics.Valid()
    modifies ctx`State, ctx`Running, ctx`ShowTip, ctx`Actions, ctx`Calls, ctx.Graphics.BackBuffer
    ensures ctx.Calls == old(ctx.Calls) + [CallOf(slot, old(ctx.Snapshot()))]
    ensures ctx.Snapshot() == Applied(e)
    ensures ctx.Graphics.BackBuffer[..] == Paint(old(ctx.Graphics.BackBuffer[..]), e.frame)
  {
    var fn := match slot case InitSlot => ctx.Actions.Init case DoitSlot => ctx.Actions.Doit;
    ctx.Calls := ctx.Calls + [if slot == InitSlot then Init(fn, ctx.Snapshot()) else Doit(fn, ctx.Snapshot())];
    ctx.State, ctx.Running, ctx.ShowTip, ctx.Actions := e.state, e.running, e.showTip, e.actions;
    var back := ctx.Graphics.BackBuffer;
    forall i | 0 <= i < back.Length && i < |e.frame| {
      back[i] := e.frame[i];
    }
  }

  /** The buffer swap of Run's loop: a CopyMem of BufferSize bytes from the
      back buffer to the front buffer, appended to the context's log. */
  method SwapBuffers(ctx: UmtContext)
    requires ctx.Graphics.Valid()
    modifies ctx`Calls, ctx.Graphics.FrontBuffer
    ensures ctx.Calls == old(ctx.Calls) + [Copy(ctx.Graphics.BufferSize)]
    ensures ctx.Graphics.FrontBuffer[..] ==
      ctx.Graphics.BackBuffer[..] + old(ctx.Graphics.FrontBuffer[ctx.Graphics.BufferSize..])
  {
    var graphics := ctx.Graphics;
    CopyMem(graphics.FrontBuffer, graphics.BackBuffer, graphics.BufferSize);
    assert graphics.BackBuffer[..graphics.BufferSize] == graphics.BackBuffer[..];
    ctx.Calls := ctx.Calls + [Copy(graphics.BufferSize)];
  }

  /** One pass of Run's loop body: the current state's Doit, then the
      buffer swap. */
  method DoitAndSwap(ctx: UmtContext, graphics: GraphicsContext, e: Effect)
    requires ctx.Graphics == graphics && graphics.Valid()
    modifies ctx`State, ctx`Running, ctx`ShowTip, ctx`Actions, ctx`Calls, graphics.FrontBuffer, graphics.BackBuffer
    ensures graphics.Buffers(ctx.Snapshot()) == Tick(old(graphics.Buffers(ctx.Snapshot())), e)
    ensures ctx.Calls == old(ctx.Calls) + [Doit(old(ctx.Actions.Doit), old(ctx.Snapshot())), Copy(graphics.BufferSize)]
  {
    ghost var cur := graphics.Buffers(ctx.Snapshot());
    ghost var next := Tick(cur, e);
    assert next.front == next.back + cur.front[|cur.back|..];
    Invoke(DoitSlot, ctx, e);
    ghost var painted := graphics.BackBuffer[..];
    assert painted == next.back;
    SwapBuffers(ctx);
    assert graphics.BackBuffer[..] == painted;
    assert ctx.Snapshot() == next.view;
  }

  /** One pass of the loop, seen from the functions: a running machine with
      effects left does one Doit and one swap, then loops on the rest. */
  lemma Unroll(m: Machine, ticks: seq<Effect>, i: nat)
    requires Fits(m) && m.view.running == TRUE && i < |ticks|
    ensures LoopTrace(m, ticks[i..]) ==
      [Doit(m.view.actions.Doit, m.view), Copy(|m.back|)] + LoopTrace(Tick(m, ticks[i]), ticks[i + 1..])
    ensures Loop(m, ticks[i..]) == Loop(Tick(m, ticks[i]), ticks[i + 1..])
  {
  }

  /** Run's loop: tick while Running is TRUE and effects remain. The
      buffers and context end as `Loop` says, the log grows by `LoopTrace`,
      and `exhausted` reports that the effects ran out with Running still
      TRUE. */
  method TickLoop(ctx: UmtContext, graphics: GraphicsContext, ticks: seq<Effect>) returns (exhausted: bool)
    requires ctx.Graphics == graphics && graphics.Valid()
    modifies ctx`State, ctx`Running, ctx`ShowTip, ctx`Actions, ctx`Calls, graphics.FrontBuffer, graphics.BackBuffer
    ensures graphics.Buffers(ctx.Snapshot()) == Loop(old(graphics.Buffers(ctx.Snapshot())), ticks)
    ensures ctx.Calls == old(ctx.Calls) + LoopTrace(old(graphics.Buffers(ctx.Snapshot())), ticks)
    ensures exhausted == (ctx.Running == TRUE)
  {
    ghost var start := graphics.Buffers(ctx.Snapshot());
    ghost var cur := start;
    assert ticks[0..] == ticks;
    var i := 0;
    while ctx.Running == TRUE && i < |ticks|
      invariant 0 <= i <= |ticks|
      invariant ctx.Graphics == graphics && graphics.Valid()
      invariant cur == graphics.Buffers(ctx.Snapshot())
      invariant Loop(cur, ticks[i..]) == Loop(start, ticks)
      invariant ctx.Calls + LoopTrace(cur, ticks[i..]) == old(ctx.Calls) + LoopTrace(start, ticks)
      decreases |ticks| - i
    {
      Unroll(cur, ticks, i);
      ghost var next := Tick(cur, ticks[i]);
      ghost var before := ctx.Calls;
      DoitAndSwap(ctx, graphics, ticks[i]);
      assert ctx.Calls + LoopTrace(next, ticks[i + 1..]) == before + LoopTrace(cur, ticks[i..]);
      cur := next;
      i := i + 1;
    }
    exhausted := ctx.Running == TRUE;
  }

  /** Run: build the context, call Init once, then tick while Running is
      TRUE. `init` is what Init does and `ticks[i]` what the i-th Doit does;
      `exhausted` reports that the ticks were used up with Running still
      TRUE, where the program itself would go on. `log` is the context's
      log of calls and swaps. The result is always EFI_SUCCESS. */
  method Run(graphics: GraphicsContext, init: Effect, ticks: seq<Effect>)
    returns (status: Status, exhausted: bool, ghost log: seq<Event>)
    requires graphics.Valid()
    modifies graphics.FrontBuffer, graphics.BackBuffer
    ensures status == EFI_SUCCESS
    ensures var m := Started(old(graphics.BackBuffer[..]), old(graphics.FrontBuffer[..]), init);
      Fits(m) &&
      graphics.Buffers(Loop(m, ticks).view) == Loop(m, ticks) &&
      log == RunTrace(m, ticks) &&
      exhausted == (Loop(m, ticks).view.running == TRUE)
  {
    var ctx := new UmtContext(graphics);
    ghost var m0 := graphics.Buffers(ctx.Snapshot());
    Invoke(InitSlot, ctx, init);
    assert ctx.Calls == [Init(InitialView.actions.Init, InitialView)];
    assert graphics.Buffers(ctx.Snapshot()) == Act(m0, init);
    exhausted := TickLoop(ctx, graphics, ticks);
    log := ctx.Calls;
    status := EFI_SUCCESS;
  }
}
