/** The startup path of the monitor test application: register the HII
    package, locate the Graphics Output Protocol and settle its mode, prepare
    the graphics context, run the loop and forget the graphics context.

    Every firmware service is an oracle: the model does not compute what
    OpenProtocol, NewPackageList, LocateProtocol, QueryMode, SetMode or
    PrepareGraphicsInfo answer, it takes their answers from a `Firmware`
    value and records, in a trace, which of them were called and in what
    order. Each step is a function returning the status (or protocol) the
    source returns together with that trace. */
module Startup {
  import opened Efi

  /** A mode index of the Graphics Output Protocol (a UINT32). */
  type ModeNumber = x: nat | x < 0x1_0000_0000

  /** The interface pointer LocateProtocol hands back, as an opaque value. */
  type GopHandle = nat

  /** The firmware services and application steps the startup path invokes. */
  datatype Call =
    | OpenPackageList             // gBS->OpenProtocol on the HII package list protocol
    | NewPackageList              // gHiiDatabase->NewPackageList
    | LocateProtocol              // gBS->LocateProtocol for the Graphics Output Protocol
    | QueryMode(mode: ModeNumber) // Gop->QueryMode
    | SetMode(mode: ModeNumber)   // Gop->SetMode
    | PrepareGraphicsInfo
    | Run
    | ForgetGraphicsInfo

  /** The answers the firmware gives to the calls above. `currentMode` is
      `Gop->Mode`: None when that pointer is NULL, otherwise the index
      `Gop->Mode->Mode` of the current mode. */
  datatype Firmware = Firmware(
    openStatus: Status,
    newListStatus: Status,
    locateStatus: Status,
    gop: GopHandle,
    currentMode: Option<ModeNumber>,
    queryStatus: Status,
    setModeStatus: Status,
    prepareStatus: Status)

  /** A result together with the calls made to produce it, in order. */
  datatype Outcome<+T> = Outcome(result: T, trace: seq<Call>)

  /** How many times `c` occurs in `trace`. */
  function Count(trace: seq<Call>, c: Call): (n: nat)
    ensures n <= |trace|
    ensures n == 0 <==> c !in trace
  {
    if trace == [] then 0
    else (if trace[0] == c then 1 else 0) + Count(trace[1..], c)
  }

  lemma {:induction false} CountConcat(a: seq<Call>, b: seq<Call>, c: Call)
    ensures Count(a + b, c) == Count(a, c) + Count(b, c)
  {
    if a == [] {
      assert a + b == b;
    } else {
      assert (a + b)[1..] == a[1..] + b;
      CountConcat(a[1..], b, c);
    }
  }

  /** RegisterHiiPackage: open the package list attached to the image, then
      add it to the HII database. The first failure is returned as it is;
      otherwise the database's status (which may be a warning) is returned. */
  function RegisterHiiPackage(fw: Firmware): (r: Outcome<Status>)
    ensures |r.trace| > 0 && r.trace[0] == OpenPackageList
    ensures forall c | c in r.trace :: c.OpenPackageList? || c.NewPackageList?
    ensures IsError(fw.openStatus) ==> r.result == fw.openStatus && NewPackageList !in r.trace
    ensures !IsError(fw.openStatus) ==> r.result == fw.newListStatus && r.trace == [OpenPackageList, NewPackageList]
    ensures IsError(r.result) <==> IsError(fw.openStatus) || IsError(fw.newListStatus)
  {
    if IsError(fw.openStatus) then Outcome(fw.openStatus, [OpenPackageList])
    else Outcome(fw.newListStatus, [OpenPackageList, NewPackageList])
  }

  /** The mode index the source queries: 0 when `Gop->Mode` is NULL, the
      current mode otherwise. */
  function QueriedMode(fw: Firmware): (mode: ModeNumber) {
    if fw.currentMode.None? then 0 else fw.currentMode.value
  }

  /** GetGraphicsOutputProtocol: locate the protocol, query the mode it is
      in, and when the query says the device is not started, set mode 0
      once (without querying again). Yields the protocol unless one of these
      steps ends in an error. */
  function GetGraphicsOutputProtocol(fw: Firmware): (r: Outcome<Option<GopHandle>>)
    ensures r.result.Some? ==> r.result.value == fw.gop
    ensures forall c | c in r.trace :: c.LocateProtocol? || c.QueryMode? || c.SetMode?
  {
    if IsError(fw.locateStatus) then
      Outcome(None, [LocateProtocol])
    else
      var queried := [LocateProtocol, QueryMode(QueriedMode(fw))];
      var status := if fw.queryStatus == EFI_NOT_STARTED then fw.setModeStatus else fw.queryStatus;
      var trace := if fw.queryStatus == EFI_NOT_STARTED then queried + [SetMode(0)] else queried;
      Outcome(if IsError(status) then None else Some(fw.gop), trace)
  }

  /** The calls GetGraphicsOutputProtocol makes: LocateProtocol once, first;
      when it fails nothing else. Otherwise exactly one QueryMode, of the
      current mode, or of mode 0 when the protocol has no mode; then
      SetMode(0) exactly when that query reported EFI_NOT_STARTED, as the
      last call, so the mode is never queried again after it. */
  lemma GopModeQueryAndRetry(fw: Firmware)
    ensures var r := GetGraphicsOutputProtocol(fw);
      |r.trace| > 0 && r.trace[0] == LocateProtocol && Count(r.trace, LocateProtocol) == 1 &&
      (IsError(fw.locateStatus) ==> r.trace == [LocateProtocol]) &&
      (!IsError(fw.locateStatus) ==>
        |r.trace| >= 2 && r.trace[1] == QueryMode(QueriedMode(fw)) &&
        Count(r.trace, QueryMode(QueriedMode(fw))) == 1 &&
        (forall c | c in r.trace && c.QueryMode? :: c == QueryMode(QueriedMode(fw)))) &&
      Count(r.trace, SetMode(0)) == (if !IsError(fw.locateStatus) && fw.queryStatus == EFI_NOT_STARTED then 1 else 0) &&
      (forall c | c in r.trace && c.SetMode? :: c == SetMode(0)) &&
      (SetMode(0) in r.trace ==> r.trace[|r.trace| - 1] == SetMode(0))
  {
    if !IsError(fw.locateStatus) {
      var queried := [LocateProtocol, QueryMode(QueriedMode(fw))];
      assert Count(queried, SetMode(0)) == 0;
      assert Count(queried, LocateProtocol) == 1;
      assert Count(queried, QueryMode(QueriedMode(fw))) == 1;
      CountConcat(queried, [SetMode(0)], SetMode(0));
      CountConcat(queried, [SetMode(0)], QueryMode(QueriedMode(fw)));
      CountConcat(queried, [SetMode(0)], LocateProtocol);
    }
  }

  /** The protocol comes back NULL exactly when LocateProtocol failed or the
      last mode status seen (the query's, or SetMode's after a not-started
      query) is an error. */
  lemma GopNullOnError(fw: Firmware)
    ensures GetGraphicsOutputProtocol(fw).result.None? <==>
      IsError(fw.locateStatus) ||
      (if fw.queryStatus == EFI_NOT_STARTED then IsError(fw.setModeStatus) else IsError(fw.queryStatus))
  {
  }

  /** UefiMain: the entry point. A registration failure is returned as it is;
      a missing protocol and a failed PrepareGraphicsInfo are both reported
      as EFI_NOT_FOUND; otherwise the loop runs, the graphics context is
      forgotten and Run's status, which is always EFI_SUCCESS, is returned.
      The status is a success exactly when the loop ran. */
  function UefiMain(fw: Firmware): (r: Outcome<Status>)
    ensures !IsError(r.result) <==> Run in r.trace
  {
    var reg := RegisterHiiPackage(fw);
    if IsError(reg.result) then
      reg
    else
      var gop := GetGraphicsOutputProtocol(fw);
      var found := reg.trace + gop.trace;
      if gop.result.None? then
        assert Run !in found by { NotInConcat(reg.trace, gop.trace, Run); }
        Outcome(EFI_NOT_FOUND, found)
      else if IsError(fw.prepareStatus) then
        assert Run !in found + [PrepareGraphicsInfo] by {
          NotInConcat(reg.trace, gop.trace, Run);
          NotInConcat(found, [PrepareGraphicsInfo], Run);
        }
        Outcome(EFI_NOT_FOUND, found + [PrepareGraphicsInfo])
      else
        // Run returns EFI_SUCCESS unconditionally (see RunLoop.Run)
        Outcome(EFI_SUCCESS, found + [PrepareGraphicsInfo, Run, ForgetGraphicsInfo])
  }

  lemma NotInConcat(a: seq<Call>, b: seq<Call>, c: Call)
    requires c !in a && c !in b
    ensures c !in a + b
  {
  }

  /** The calls made before PrepareGraphicsInfo never include the later steps. */
  lemma EarlyCalls(fw: Firmware)
    ensures var t := RegisterHiiPackage(fw).trace + GetGraphicsOutputProtocol(fw).trace;
      PrepareGraphicsInfo !in t && Run !in t && ForgetGraphicsInfo !in t
  {
    var reg := RegisterHiiPackage(fw).trace;
    var gop := GetGraphicsOutputProtocol(fw).trace;
    NotInConcat(reg, gop, PrepareGraphicsInfo);
    NotInConcat(reg, gop, Run);
    NotInConcat(reg, gop, ForgetGraphicsInfo);
  }

  /** Registration fails: UefiMain returns exactly that status, and neither
      looks for the protocol nor prepares, runs or forgets anything. */
  lemma RegistrationFailureStops(fw: Firmware)
    requires IsError(RegisterHiiPackage(fw).result)
    ensures UefiMain(fw).result == RegisterHiiPackage(fw).result
    ensures UefiMain(fw).trace == RegisterHiiPackage(fw).trace
    ensures var t := UefiMain(fw).trace;
      LocateProtocol !in t && PrepareGraphicsInfo !in t && Run !in t && ForgetGraphicsInfo !in t
  {
  }

  /** No protocol: EFI_NOT_FOUND, and graphics are never prepared, the loop
      never runs and nothing is forgotten. */
  lemma MissingProtocolIsNotFound(fw: Firmware)
    requires !IsError(RegisterHiiPackage(fw).result)
    requires GetGraphicsOutputProtocol(fw).result.None?
    ensures UefiMain(fw).result == EFI_NOT_FOUND
    ensures var t := UefiMain(fw).trace;
      Count(t, LocateProtocol) == 1 && PrepareGraphicsInfo !in t && Run !in t && ForgetGraphicsInfo !in t
  {
    EarlyCalls(fw);
    GopModeQueryAndRetry(fw);
    CountConcat(RegisterHiiPackage(fw).trace, GetGraphicsOutputProtocol(fw).trace, LocateProtocol);
  }

  /** PrepareGraphicsInfo fails: EFI_NOT_FOUND whatever status it returned,
      after one prepare and with no Run and no forget. */
  lemma PrepareFailureIsNotFound(fw: Firmware)
    requires !IsError(RegisterHiiPackage(fw).result)
    requires GetGraphicsOutputProtocol(fw).result.Some?
    requires IsError(fw.prepareStatus)
    ensures UefiMain(fw).result == EFI_NOT_FOUND
    ensures var t := UefiMain(fw).trace;
      Count(t, PrepareGraphicsInfo) == 1 && Run !in t && ForgetGraphicsInfo !in t
  {
    EarlyCalls(fw);
    var t := RegisterHiiPackage(fw).trace + GetGraphicsOutputProtocol(fw).trace;
    CountConcat(t, [PrepareGraphicsInfo], PrepareGraphicsInfo);
    NotInConcat(t, [PrepareGraphicsInfo], Run);
    NotInConcat(t, [PrepareGraphicsInfo], ForgetGraphicsInfo);
  }

  /** Every step succeeds: one prepare, then Run, then ForgetGraphicsInfo,
      each exactly once and in that order at the end of the trace, and
      UefiMain returns Run's status, EFI_SUCCESS. */
  lemma SuccessRunsThenForgets(fw: Firmware)
    requires !IsError(RegisterHiiPackage(fw).result)
    requires GetGraphicsOutputProtocol(fw).result.Some?
    requires !IsError(fw.prepareStatus)
    ensures UefiMain(fw).result == EFI_SUCCESS
    ensures var t := UefiMain(fw).trace;
      |t| >= 3 && t[|t| - 3..] == [PrepareGraphicsInfo, Run, ForgetGraphicsInfo] &&
      Count(t, PrepareGraphicsInfo) == 1 && Count(t, Run) == 1 && Count(t, ForgetGraphicsInfo) == 1
  {
    EarlyCalls(fw);
    var t := RegisterHiiPackage(fw).trace + GetGraphicsOutputProtocol(fw).trace;
    assert UefiMain(fw).trace == t + [PrepareGraphicsInfo, Run, ForgetGraphicsInfo];
    EndsWithRunOnce(t);
  }

  lemma EndsWithRunOnce(t: seq<Call>)
    requires PrepareGraphicsInfo !in t && Run !in t && ForgetGraphicsInfo !in t
    ensures var u := t + [PrepareGraphicsInfo, Run, ForgetGraphicsInfo];
      |u| >= 3 && u[|u| - 3..] == [PrepareGraphicsInfo, Run, ForgetGraphicsInfo] &&
      Count(u, PrepareGraphicsInfo) == 1 && Count(u, Run) == 1 && Count(u, ForgetGraphicsInfo) == 1
  {
    var tail := [PrepareGraphicsInfo, Run, ForgetGraphicsInfo];
    assert (t + tail)[|t + tail| - 3..] == tail;
    assert tail[1..] == [Run, ForgetGraphicsInfo] && tail[2..] == [ForgetGraphicsInfo];
    assert Count(tail, PrepareGraphicsInfo) == 1 && Count(tail, Run) == 1 && Count(tail, ForgetGraphicsInfo) == 1;
    CountConcat(t, tail, PrepareGraphicsInfo);
    CountConcat(t, tail, Run);
    CountConcat(t, tail, ForgetGraphicsInfo);
  }

  /** The statuses UefiMain can return: a registration error as it came,
      EFI_NOT_FOUND, or EFI_SUCCESS after the loop ran; and
      ForgetGraphicsInfo is called exactly when Run is. */
  lemma UefiMainStatuses(fw: Firmware)
    ensures var r := UefiMain(fw);
      (r.result == EFI_SUCCESS && Run in r.trace) ||
      (r.result == EFI_NOT_FOUND && Run !in r.trace) ||
      (r.result == RegisterHiiPackage(fw).result && IsError(r.result) && Run !in r.trace)
    ensures ForgetGraphicsInfo in UefiMain(fw).trace <==> Run in UefiMain(fw).trace
  {
    EarlyCalls(fw);
    if !IsError(RegisterHiiPackage(fw).result) && GetGraphicsOutputProtocol(fw).result.Some? {
      var t := RegisterHiiPackage(fw).trace + GetGraphicsOutputProtocol(fw).trace;
      NotInConcat(t, [PrepareGraphicsInfo], ForgetGraphicsInfo);
    }
  }
}
