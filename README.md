# UEFI monitor test: startup sequence and run loop

A model of the core of the UEFI monitor test application, a diagnostic
program that runs before an operating system is loaded and draws an
interactive menu on a raw graphics surface. The model covers two parts of
`UefiMonitorTest/UefiMonitorTest.c`:

- **The startup sequence** (`UefiMain`, `RegisterHiiPackage`,
  `GetGraphicsOutputProtocol`), in `startup.dfy`, module `Startup`. These
  functions are straight chains of early returns, so they are modelled as
  pure functions. Every firmware service is an oracle: its answer is a field
  of a `Firmware` value. Each function returns the status (or protocol) the
  program returns, together with a trace of the services it called, in
  order. The Graphics Output Protocol is the one in section 12.9 of the UEFI
  Specification.
- **The run loop** (`Run`, the `mStateActions` table, `UMT_CONTEXT`,
  `GRAPHICS_CONTEXT`), in `run_loop.dfy`, module `RunLoop`. This part is
  imperative. The context and the graphics context are classes. The front
  and back buffers are byte arrays. `CopyMem` writes the front buffer in
  place. `Run`'s `while` loop is the method `TickLoop`. Both are proved against pure
  functions (`Loop`, `LoopTrace`, `TickCount`), and lemmas state what the
  loop promises in terms of those functions.
- `efi.dfy`, module `Efi`: the status word and `EFI_ERROR`, with the status
  codes of Appendix D of the UEFI Specification (a 64-bit `UINTN`, errors
  with the top bit set), plus `UINT8` and `BOOLEAN`.

The menu's own operations (`MainMenuInit`, `MainMenuDoit`) are not part of
this model. A call through the table's `Init` or `Doit` pointer is an oracle
too. The `Effect` given for the call says which `State`, `Running`,
`ShowTip` and `Actions` the operation leaves. It also gives the bytes it draws over the
start of the back buffer. The context carries a ghost log, `Calls`. Each
call through a table pointer appends itself to the log, with the operation in
that slot and the context it saw. Each buffer swap appends itself with the
number of bytes copied. `Run` returns this log, and its contract states the
log as a function of the effects.

`BOOLEAN` is a `UINT8`, and the loop tests `Running == TRUE`. So an operation
that stores any value other than 1 in `Running` ends the loop. The model
keeps this.

Two points about the code that the model keeps:

- A failed `PrepareGraphicsInfo` has no status of its own. It is reported
  as `EFI_NOT_FOUND` (line 146), like a missing protocol.
- The mode query and the not-started retry are done in
  `GetGraphicsOutputProtocol` (lines 74-86), before `PrepareGraphicsInfo`
  is called.

## Model

| member | source | states |
|---|---|---|
| `Startup.RegisterHiiPackage` | UefiMonitorTest/UefiMonitorTest.c:20-51 | Calls OpenProtocol on the HII package list first, then at most NewPackageList, and nothing else. A failed open is returned as it is, and NewPackageList is then never called. Otherwise the database's status is returned, even a warning. The result is an error exactly when one of the two calls failed. |
| `Startup.GetGraphicsOutputProtocol` | UefiMonitorTest/UefiMonitorTest.c:53-90 | A non-NULL result is the located protocol. The function calls only LocateProtocol, QueryMode and SetMode. |
| `Startup.GopModeQueryAndRetry` | UefiMonitorTest/UefiMonitorTest.c:64-82 | LocateProtocol is called once, first; when it fails nothing follows. Otherwise QueryMode is called exactly once, on the current mode, or on mode 0 when `Gop->Mode` is NULL. `SetMode(0)` is called exactly once when that query returned EFI_NOT_STARTED, and never otherwise. No SetMode uses another index, and SetMode is the last call, so there is no re-query. |
| `Startup.GopNullOnError` | UefiMonitorTest/UefiMonitorTest.c:69-89 | NULL exactly when LocateProtocol failed, or when the last mode status is an error. The last mode status is SetMode's after a not-started query, and the query's otherwise. |
| `Startup.UefiMain` | UefiMonitorTest/UefiMonitorTest.c:118-154 | The returned status is a success exactly when Run was called. |
| `Startup.RegistrationFailureStops` | UefiMonitorTest/UefiMonitorTest.c:131-135 | A registration failure is returned as it is. No protocol lookup, prepare, Run or ForgetGraphicsInfo follows. |
| `Startup.MissingProtocolIsNotFound` | UefiMonitorTest/UefiMonitorTest.c:137-141 | No protocol: EFI_NOT_FOUND, after one lookup, with no prepare, no Run and no ForgetGraphicsInfo. |
| `Startup.PrepareFailureIsNotFound` | UefiMonitorTest/UefiMonitorTest.c:143-147 | A failed PrepareGraphicsInfo gives EFI_NOT_FOUND, whatever status it returned. It is called once, and neither Run nor ForgetGraphicsInfo follows. |
| `Startup.SuccessRunsThenForgets` | UefiMonitorTest/UefiMonitorTest.c:149-153 | When every step succeeds, the trace ends with PrepareGraphicsInfo, Run, ForgetGraphicsInfo, each called exactly once. The status is Run's, EFI_SUCCESS. |
| `Startup.UefiMainStatuses` | UefiMonitorTest/UefiMonitorTest.c:129-153 | The status is EFI_SUCCESS after Run, EFI_NOT_FOUND without Run, or the registration error as it came. ForgetGraphicsInfo is called exactly when Run is. |
| `RunLoop.ActionsOf` | UefiMonitorTest/UefiMonitorTest.c:14-16 | The table has UMT_STATE_END entries and covers every state. Each entry binds five distinct operations, one per slot. |
| `RunLoop.UmtContext.constructor` | UefiMonitorTest/UefiMonitorTest.c:98-104 | The context starts with State = UMT_STATE_MAIN_MENU, Running = TRUE, ShowTip = FALSE, Actions = the table entry for State, and Graphics = the argument. |
| `RunLoop.GraphicsContext.Prepare` | UefiMonitorTest/UefiMonitorTest.c:143-147 | On success, the front buffer is borrowed and a fresh back buffer of BufferSize bytes is allocated. The front buffer holds at least BufferSize bytes. |
| `RunLoop.Invoke` | UefiMonitorTest/UefiMonitorTest.c:105-109 | A call through the Init or Doit slot of the current Actions entry appends to the log exactly one event: the operation in that slot, with the context it saw. It changes only State, Running, ShowTip, Actions and the back buffer, each to the value its effect gives. |
| `RunLoop.CopyMem` | UefiMonitorTest/UefiMonitorTest.c:111-112 | Copies exactly the first n bytes of the source over the destination. The rest of the destination is unchanged. |
| `RunLoop.SwapBuffers` | UefiMonitorTest/UefiMonitorTest.c:111-112 | The front buffer starts with the whole back buffer, and its bytes beyond BufferSize are unchanged. Exactly one swap of BufferSize bytes is appended to the log. |
| `RunLoop.Swap` | UefiMonitorTest/UefiMonitorTest.c:111-112 | After a swap, the first BufferSize bytes of the front buffer equal the back buffer. The back buffer, the rest of the front buffer and the context are unchanged. |
| `RunLoop.DoitAndSwap` | UefiMonitorTest/UefiMonitorTest.c:109-112 | One iteration appends exactly two events to the log: a Doit through the Doit slot of the Actions entry current at its start, then one swap of BufferSize bytes. The new buffers and context are one `Tick` of the old ones. |
| `RunLoop.TickLoop` | UefiMonitorTest/UefiMonitorTest.c:107-113 | The loop leaves the buffers and context as `Loop` says, and appends `LoopTrace` to the log. `exhausted` holds exactly when Running is still TRUE. |
| `RunLoop.Run` | UefiMonitorTest/UefiMonitorTest.c:92-116 | Returns EFI_SUCCESS. The final buffers are `Loop` applied to the start state, the state after Init on the initial context. The log the calls themselves write is `RunTrace`, and `exhausted` holds exactly when Running is still TRUE. |
| `RunLoop.TickCount` | UefiMonitorTest/UefiMonitorTest.c:107-113 | There is at most one Doit per available effect. There are no Doit calls and no swaps exactly when Running is not TRUE after Init, or when no effect is given. |
| `RunLoop.LoopTraceShape` | UefiMonitorTest/UefiMonitorTest.c:107-113 | The loop's calls alternate: a Doit at every even position and a swap of BufferSize bytes at every odd one. So there are TickCount Doits and TickCount swaps, and each Doit is followed by exactly one swap. |
| `RunLoop.InitOnceFirst` | UefiMonitorTest/UefiMonitorTest.c:100-109 | The first call is MainMenuInit, made on the initial context. No later call is an Init, so Init runs exactly once and strictly before any Doit. |
| `RunLoop.DoitSeesPreviousAction` | UefiMonitorTest/UefiMonitorTest.c:105-113 | Each Doit is called through the Doit slot of the context it sees. That context is exactly what the previous operation left, Actions included, so the harness never rewrites State, Actions, Running or ShowTip between calls. |
| `RunLoop.ActionsStayInSync` | UefiMonitorTest/UefiMonitorTest.c:105-113 | If the loop starts with Actions at State's table entry, and every operation leaves Actions at the entry of the State it sets, then every Doit goes through that entry's Doit slot. The loop also ends in sync. |
| `RunLoop.ExitOnlyAfterStop` | UefiMonitorTest/UefiMonitorTest.c:107-113 | Every Doit before the last one left Running TRUE. The final context is what the last operation left. When effects remain, the loop has stopped because Running is not TRUE. |
| `RunLoop.FrontMirrorsBack` | UefiMonitorTest/UefiMonitorTest.c:107-113 | After at least one tick, the first BufferSize bytes of the front buffer equal the back buffer. Front bytes beyond BufferSize are never touched. With zero ticks, nothing changes. |
| `RunLoop.SteadyTicks` | UefiMonitorTest/UefiMonitorTest.c:107-113 | N Doit calls that all leave Running TRUE give exactly N ticks, and the loop is still running afterwards. The front buffer shows what the last Doit drew. |

## Left out

- The inside of `RegisterHiiPackage`, `OpenProtocol` and `NewPackageList` (lines 31-48) are firmware calls. Only their statuses are modelled.
- `PrepareGraphicsInfo` and `ForgetGraphicsInfo` are not part of this model; their bodies are in another file. In `Startup`, prepare is an oracle status and forget is a trace entry. In `RunLoop`, a successful prepare is `GraphicsContext.Prepare`. Releasing the back buffer has no counterpart in Dafny, so forget is not modelled there.
- `MainMenuInit`, `MainMenuDoit` and the other menu functions are not part of this model. What a call does is an oracle `Effect`. An effect cannot replace `Graphics`. It may set `Actions` to any table entry; `KeepsSync` names the effects that point it at the entry of the `State` they set. An effect also cannot write the front buffer or change `BufferSize` or `BackBuffer`, although the real operation receives `&Ctx`, whose `Graphics` is the graphics context `Run` swaps (lines 104, 109, 112). `RunLoop.FrontMirrorsBack` relies on this restriction: its statements that front bytes beyond BufferSize are never touched and that zero ticks change nothing hold only because of it.
- The state set, `UMT_STATE_MAIN_MENU` alone with `UMT_STATE_END` = 1, is inferred from the one-entry initializer of `mStateActions` (lines 14-16). The header that declares `UMT_STATE` is not part of this model. If it declared more states, C would fill their entries with NULL pointers, which the model does not represent.
- `Tip`, `KeyRight` and `KeyLeft` are never called in this file. They appear only as table entries, and no behaviour is given to them.
- `Run`: the loop's termination depends on the menu code, so the model gives it finitely many Doit effects. When they run out with `Running` still TRUE, the model stops and sets `exhausted`. The program itself would go on.
- `Startup.UefiMain`: the call to `Run` is one trace entry, and its status is the constant EFI_SUCCESS. That `Run` always returns EFI_SUCCESS is proved of `RunLoop.Run` separately. The success path assumes that `Run` returns. When the menu never clears `Running`, the program stays in `Run` and never reaches `ForgetGraphicsInfo` (line 151); `RunLoop.Run` reports that case as `exhausted`.
- `Startup.GetGraphicsOutputProtocol`: the QueryMode answer is one oracle status, whichever mode index is queried. `ModeInfo`, `SizeOfInfo` and the unfreed `ModeInfo` (the TODO at line 88) are left out.
- `RunLoop.SwapBuffers` writes the swap's log entry; `CopyMem`, the library routine it calls, keeps no log of its own. So a second bare `CopyMem` of the same bytes would leave no trace in the log; it would not change the state either.
- `DEBUG` and `Print` output, pixel formats and mode geometry are left out; they are I/O with no logic to state.
- `Efi.Status` is modelled for a 64-bit platform only. On a 32-bit platform `UINTN` is 32 bits wide and the error bit moves accordingly.
