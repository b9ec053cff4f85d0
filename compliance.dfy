/** The TPM specification compliance validator: three checks that read the
    kernel log, the loaded-module list and the TPM device nodes, an
    aggregation of their verdicts into one overall status, and the exit code
    of the validator process.

    The rule checked is "overlapping command and response buffers have
    identical sizes", which the validator attributes to section 5.2.1 of the
    TCG CRB 2.0 specification. The validator never normalises sizes itself:
    it only judges what the patched driver wrote to the kernel log. */
module Compliance {
  import opened HostProbe

  datatype ComplianceStatus = Compliant | NonCompliant | Unknown | Error

  /** Sizes captured by the workaround message, the groups of
      `buffer size mismatch.*cmd=(\d+).*rsp=(\d+).*using max=(\d+)`. */
  datatype Triple = Triple(cmd: nat, rsp: nat, maxSize: nat)

  /** How the TPM tools answered when the accessibility check probed them. */
  datatype Tools =
    | NotProbed                 // no device node, so tpm2_getcap was not run
    | Responding                // tpm2_getcap exited 0
    | Refused(error: string)    // tpm2_getcap exited non-zero; first 200 chars of stderr
    | ToolsMissing              // tpm2_getcap is not installed

  /** The `details` dictionary of each kind of result. */
  datatype Details =
    | Normalized(originalCmd: nat, originalRsp: nat, normalizedSize: nat)
    | SizesStillDiffer(cmd: nat, rsp: nat, maxSize: nat)
    | MaxIncorrect(cmd: nat, rsp: nat, maxSize: nat, expectedMax: nat)
    | FirmwareBug(workaroundApplied: bool)
    | TpmAccessible
    | Driver(name: string, loaded: bool)
    | NoDriver
    | DeviceNodes(tpm0: bool, tpmrm0: bool, tools: Tools)
    | Failure(error: string)
    | NoDetails

  datatype ComplianceCheck = ComplianceCheck(
    checkName: string, status: ComplianceStatus, message: string, details: Details)

  /** Everything the three checks observe of the host. `workaroundMatch` and
      `firmwareBugMatch` are the results of the two regular expression
      searches over the stdout of `dmesg`; they are consulted only when
      `dmesg` exited. The device nodes are looked up twice, by the buffer
      check and again by the accessibility check after `lsmod` has run, so
      each lookup is its own observation. */
  datatype Host = Host(
    dmesg: Run,
    workaroundMatch: Option<Triple>,
    firmwareBugMatch: bool,
    nodeAtBufferCheck: bool,   // /dev/tpm0 or /dev/tpmrm0 exists, buffer check
    tpm0: bool,                // /dev/tpm0 exists, accessibility check
    tpmrm0: bool,              // /dev/tpmrm0 exists, accessibility check
    lsmod: Run,
    getcap: Run)

  datatype Option<T> = None | Some(value: T)

  const BufferCheckName := "TCG_CRB_2.0_Section_5.2.1_Buffer_Size_Compliance"
  const DriverCheckName := "Patched_Driver_Loaded"
  const AccessCheckName := "TPM_Accessibility"

  const WorkaroundPattern := "buffer size mismatch.*cmd=(\\d+).*rsp=(\\d+).*using max=(\\d+)"
  const FirmwareBugPattern := "\\[Firmware Bug\\].*overlapping.*buffer.*sizes.*not identical"

  const PatchedModule := "tpm_crb_patched"
  const StockModule := "tpm_crb"

  // The `message` of each kind of result.
  const NormalizedMsg := "Buffer size workaround applied correctly - sizes normalized to satisfy TCG CRB 2.0"
  const StillDifferMsg := "Workaround applied but sizes still differ - spec violation"
  const MaxIncorrectMsg := "Workaround max_size calculation incorrect"
  const BugFixedMsg := "Firmware bug detected and workaround applied"
  const BugUnfixedMsg := "Firmware bug detected but workaround not applied"
  const NoIssueMsg := "No buffer size issues detected, TPM device accessible"
  const UndeterminedMsg := "Cannot determine buffer size compliance - no relevant messages in dmesg"
  const DmesgTimeoutMsg := "Timeout reading dmesg"
  const PatchedLoadedMsg := "Patched CRB driver is loaded"
  const StockLoadedMsg := "Built-in CRB driver loaded (patched driver may not be needed)"
  const NoDriverMsg := "No CRB driver loaded"
  const RespondingMsg := "TPM is accessible and responding"
  const GetcapFailedMsg := "TPM device exists but tpm2_getcap failed"
  const ToolsMissingMsg := "TPM device exists but tpm2-tools not installed"
  const NoNodesMsg := "TPM device nodes not found"
  const BufferErrorPrefix := "Error checking buffer size compliance: "
  const DriverErrorPrefix := "Error checking driver status: "
  const AccessErrorPrefix := "Error checking TPM accessibility: "

  function Max(a: nat, b: nat): (m: nat) { if a < b then b else a }

  /** The log says the workaround ran: "workaround" or "using max" in the
      lower-cased `dmesg` output. */
  predicate WorkaroundMentioned(log: string): (r: bool)
    ensures r <==>
      (exists i: nat :: OccursAt(Lower(log), "workaround", i)) ||
      (exists i: nat :: OccursAt(Lower(log), "using max", i))
  {
    Contains(Lower(log), "workaround") || Contains(Lower(log), "using max")
  }

  /** The result of an exception caught by a check's outer handler. */
  function Caught(name: string, prefix: string, why: string): (r: ComplianceCheck)
  {
    ComplianceCheck(name, Error, prefix + why, Failure(why))
  }

  // ---------------------------------------------------------------------
  // check_buffer_size_compliance
  // ---------------------------------------------------------------------

  /** Buffer-size verdict. The workaround triple decides first, then the
      firmware-bug marker, then the presence of a TPM device node. */
  function BufferSizeCheck(h: Host): (r: ComplianceCheck)
    ensures r.checkName == BufferCheckName
    ensures r.status == Error <==> !h.dmesg.Exited?
    // A logged triple: compliant exactly when the logged sizes already agree
    // with the logged maximum, non-compliant otherwise.
    ensures h.dmesg.Exited? && h.workaroundMatch.Some? ==>
      var t := h.workaroundMatch.value;
      && (r.status == Compliant <==> t.cmd == t.rsp == t.maxSize)
      && (r.status != Compliant ==> r.status == NonCompliant)
      && (t.maxSize != Max(t.cmd, t.rsp) ==>
            r.details == MaxIncorrect(t.cmd, t.rsp, t.maxSize, Max(t.cmd, t.rsp)))
    // No triple but the firmware-bug marker: compliant exactly when the log
    // mentions the workaround.
    ensures h.dmesg.Exited? && h.workaroundMatch.None? && h.firmwareBugMatch ==>
      && (r.status == Compliant <==> WorkaroundMentioned(h.dmesg.stdout))
      && (r.status != Compliant ==> r.status == NonCompliant)
    // Nothing matched: a device node makes it compliant, its absence unknown.
    ensures h.dmesg.Exited? && h.workaroundMatch.None? && !h.firmwareBugMatch && h.nodeAtBufferCheck ==>
      r.status == Compliant && r.details == TpmAccessible
    ensures r.status == Unknown <==>
      h.dmesg.Exited? && h.workaroundMatch.None? && !h.firmwareBugMatch && !h.nodeAtBufferCheck
  {
    match h.dmesg
    case TimedOut(_) =>
      ComplianceCheck(BufferCheckName, Error, DmesgTimeoutMsg, NoDetails)
    case NotInstalled(why) =>
      Caught(BufferCheckName, BufferErrorPrefix, why)
    case Raised(why) =>
      Caught(BufferCheckName, BufferErrorPrefix, why)
    case Exited(_, log, _) =>
      if h.workaroundMatch.Some? then
        var t := h.workaroundMatch.value;
        if t.maxSize == Max(t.cmd, t.rsp) then
          if t.cmd == t.rsp == t.maxSize then
            ComplianceCheck(BufferCheckName, Compliant,
              NormalizedMsg,
              Normalized(t.cmd, t.rsp, t.maxSize))
          else
            ComplianceCheck(BufferCheckName, NonCompliant,
              StillDifferMsg,
              SizesStillDiffer(t.cmd, t.rsp, t.maxSize))
        else
          ComplianceCheck(BufferCheckName, NonCompliant,
            MaxIncorrectMsg,
            MaxIncorrect(t.cmd, t.rsp, t.maxSize, Max(t.cmd, t.rsp)))
      else if h.firmwareBugMatch then
        if WorkaroundMentioned(log) then
          ComplianceCheck(BufferCheckName, Compliant,
            BugFixedMsg, FirmwareBug(true))
        else
          ComplianceCheck(BufferCheckName, NonCompliant,
            BugUnfixedMsg, FirmwareBug(false))
      else if h.nodeAtBufferCheck then
        ComplianceCheck(BufferCheckName, Compliant,
          NoIssueMsg, TpmAccessible)
      else
        ComplianceCheck(BufferCheckName, Unknown,
          UndeterminedMsg, NoDetails)
  }

  /** The workaround message reports the sizes the firmware gave, so a
      message that logs two different sizes is never judged compliant,
      whatever maximum it reports. */
  lemma MismatchLoggedNeverCompliant(h: Host)
    requires h.dmesg.Exited? && h.workaroundMatch.Some?
    requires h.workaroundMatch.value.cmd != h.workaroundMatch.value.rsp
    ensures BufferSizeCheck(h).status == NonCompliant
  {
  }

  /** A logged triple decides the verdict: the firmware-bug marker and the
      device nodes are never consulted. */
  lemma WorkaroundTripleDecidesFirst(h: Host, bug: bool, node: bool)
    requires h.dmesg.Exited? && h.workaroundMatch.Some?
    ensures BufferSizeCheck(h.(firmwareBugMatch := bug, nodeAtBufferCheck := node))
         == BufferSizeCheck(h)
  {
  }

  /** Without a triple, the firmware-bug marker decides before the device
      nodes are consulted. */
  lemma FirmwareBugDecidesBeforeNodes(h: Host, node: bool)
    requires h.dmesg.Exited? && h.workaroundMatch.None? && h.firmwareBugMatch
    ensures BufferSizeCheck(h.(nodeAtBufferCheck := node)) == BufferSizeCheck(h)
  {
  }

  // ---------------------------------------------------------------------
  // check_driver_loaded
  // ---------------------------------------------------------------------

  /** Which CRB driver `lsmod` lists. The patched name is tested first: it
      contains the stock name, so testing the stock name first would hide
      it. */
  function DriverLoadedCheck(h: Host): (r: ComplianceCheck)
    ensures r.checkName == DriverCheckName
    ensures r.status != NonCompliant
    ensures r.status == Error <==> !h.lsmod.Exited?
    ensures h.lsmod.Exited? ==>
      && (r.status == Compliant <==> Contains(h.lsmod.stdout, PatchedModule))
      && (r.status == Unknown <==> !Contains(h.lsmod.stdout, PatchedModule))
      && (r.details.Driver? <==> Contains(h.lsmod.stdout, StockModule))
      && (r.details == NoDriver <==> !Contains(h.lsmod.stdout, StockModule))
  {
    match h.lsmod
    case Exited(_, modules, _) =>
      if Contains(modules, PatchedModule) then
        ContainsPrefix(modules, PatchedModule, StockModule);
        ComplianceCheck(DriverCheckName, Compliant, PatchedLoadedMsg,
          Driver(PatchedModule, true))
      else if Contains(modules, StockModule) then
        ComplianceCheck(DriverCheckName, Unknown,
          StockLoadedMsg,
          Driver(StockModule, true))
      else
        ComplianceCheck(DriverCheckName, Unknown, NoDriverMsg, NoDriver)
    case TimedOut(why) => Caught(DriverCheckName, DriverErrorPrefix, why)
    case NotInstalled(why) => Caught(DriverCheckName, DriverErrorPrefix, why)
    case Raised(why) => Caught(DriverCheckName, DriverErrorPrefix, why)
  }

  // ---------------------------------------------------------------------
  // check_tpm_accessibility
  // ---------------------------------------------------------------------

  /** `stderr[:200] if stderr else "Unknown error"`. */
  function StderrExcerpt(stderr: string): (r: string)
    ensures stderr == [] ==> r == "Unknown error"
    ensures stderr != [] ==> |r| == if |stderr| < 200 then |stderr| else 200
    ensures stderr != [] ==> r <= stderr
  {
    if stderr == [] then "Unknown error"
    else if |stderr| < 200 then stderr
    else stderr[..200]
  }

  /** Whether the TPM answers through its device nodes. Only a missing
      `tpm2_getcap` is caught inside; a timeout or any other exception while
      probing reaches the outer handler and yields ERROR. */
  function AccessibilityCheck(h: Host): (r: ComplianceCheck)
    ensures r.checkName == AccessCheckName
    ensures r.status == NonCompliant <==> !h.tpm0 && !h.tpmrm0
    ensures r.status == Compliant <==>
      (h.tpm0 || h.tpmrm0) && h.getcap.Exited? && h.getcap.code == 0
    ensures r.status == Error <==>
      (h.tpm0 || h.tpmrm0) && (h.getcap.TimedOut? || h.getcap.Raised?)
    ensures r.details.DeviceNodes? && r.details.tools.Refused? ==>
      |r.details.tools.error| <= 200
  {
    if h.tpm0 || h.tpmrm0 then
      match h.getcap
      case Exited(code, _, stderr) =>
        if code == 0 then
          ComplianceCheck(AccessCheckName, Compliant, RespondingMsg,
            DeviceNodes(h.tpm0, h.tpmrm0, Responding))
        else
          ComplianceCheck(AccessCheckName, Unknown, GetcapFailedMsg,
            DeviceNodes(h.tpm0, h.tpmrm0, Refused(StderrExcerpt(stderr))))
      case NotInstalled(_) =>
        ComplianceCheck(AccessCheckName, Unknown, ToolsMissingMsg,
          DeviceNodes(h.tpm0, h.tpmrm0, ToolsMissing))
      case TimedOut(why) => Caught(AccessCheckName, AccessErrorPrefix, why)
      case Raised(why) => Caught(AccessCheckName, AccessErrorPrefix, why)
    else
      ComplianceCheck(AccessCheckName, NonCompliant, NoNodesMsg,
        DeviceNodes(false, false, NotProbed))
  }

  // ---------------------------------------------------------------------
  // validate_all: counting and the overall status
  // ---------------------------------------------------------------------

  /** The three checks, in the order `validate_all` appends them. */
  function RunChecks(h: Host): (cs: seq<ComplianceCheck>)
  {
    [BufferSizeCheck(h), DriverLoadedCheck(h), AccessibilityCheck(h)]
  }

  /** `sum(1 for c in checks if c.status == st)`. */
  function CountStatus(cs: seq<ComplianceCheck>, st: ComplianceStatus): (n: nat)
  {
    if cs == [] then 0
    else CountStatus(cs[..|cs| - 1], st) + (if cs[|cs| - 1].status == st then 1 else 0)
  }

  datatype Summary = Summary(
    total: nat, compliant: nat, nonCompliant: nat, unknown: nat, errors: nat)

  datatype Report = Report(overall: ComplianceStatus, checks: seq<ComplianceCheck>, summary: Summary)

  function SummaryOf(cs: seq<ComplianceCheck>): (s: Summary)
  {
    Summary(|cs|, CountStatus(cs, Compliant), CountStatus(cs, NonCompliant),
            CountStatus(cs, Unknown), CountStatus(cs, Error))
  }

  /** The if/elif chain over the counts that picks the overall status. */
  function OverallStatus(s: Summary): (r: ComplianceStatus)
    ensures r == NonCompliant <==> s.nonCompliant > 0
    ensures r == Error <==> s.nonCompliant == 0 && s.errors > 0
    ensures r == Unknown <==> s.nonCompliant == 0 && s.errors == 0 && s.unknown == s.total
    ensures r == Compliant <==> s.nonCompliant == 0 && s.errors == 0 && s.unknown != s.total
  {
    if s.nonCompliant > 0 then NonCompliant
    else if s.errors > 0 then Error
    else if s.unknown == s.total then Unknown
    else Compliant
  }

  lemma {:induction false} CountPositive(cs: seq<ComplianceCheck>, st: ComplianceStatus)
    ensures CountStatus(cs, st) > 0 <==> exists i :: 0 <= i < |cs| && cs[i].status == st
  {
    if cs != [] {
      var init := cs[..|cs| - 1];
      CountPositive(init, st);
      assert forall i :: 0 <= i < |init| ==> init[i] == cs[i];
    }
  }

  lemma {:induction false} CountAll(cs: seq<ComplianceCheck>, st: ComplianceStatus)
    ensures CountStatus(cs, st) == |cs| <==> forall i :: 0 <= i < |cs| ==> cs[i].status == st
  {
    if cs != [] {
      var init := cs[..|cs| - 1];
      CountAll(init, st);
      CountBound(init, st);
      assert forall i :: 0 <= i < |init| ==> init[i] == cs[i];
    }
  }

  lemma {:induction false} CountBound(cs: seq<ComplianceCheck>, st: ComplianceStatus)
    ensures CountStatus(cs, st) <= |cs|
  {
    if cs != [] {
      CountBound(cs[..|cs| - 1], st);
    }
  }

  /** Every check has exactly one of the four statuses, so the four counts
      of the summary add up to its total. */
  lemma {:induction false} CountsSumToTotal(cs: seq<ComplianceCheck>)
    ensures var s := SummaryOf(cs);
      s.compliant + s.nonCompliant + s.unknown + s.errors == s.total
  {
    if cs != [] {
      CountsSumToTotal(cs[..|cs| - 1]);
    }
  }

  /** The overall status in terms of the individual verdicts: any
      non-compliant check wins, then any error; all-unknown is unknown; and
      otherwise at least one check is compliant. */
  lemma OverallByChecks(cs: seq<ComplianceCheck>)
    ensures var o := OverallStatus(SummaryOf(cs));
      && (o == NonCompliant <==> exists i :: 0 <= i < |cs| && cs[i].status == NonCompliant)
      && (o == Error <==>
            (forall i :: 0 <= i < |cs| ==> cs[i].status != NonCompliant) &&
            (exists i :: 0 <= i < |cs| && cs[i].status == Error))
      && (o == Unknown <==> forall i :: 0 <= i < |cs| ==> cs[i].status == Unknown)
      && (o == Compliant <==>
            (forall i :: 0 <= i < |cs| ==> cs[i].status != NonCompliant && cs[i].status != Error) &&
            (exists i :: 0 <= i < |cs| && cs[i].status == Compliant))
  {
    CountPositive(cs, NonCompliant);
    CountPositive(cs, Error);
    CountPositive(cs, Compliant);
    CountAll(cs, Unknown);
    CountsSumToTotal(cs);
  }

  /** Counts the four statuses in one pass over the checks. */
  method Tally(cs: seq<ComplianceCheck>) returns (s: Summary)
    ensures s == SummaryOf(cs)
  {
    var compliant, nonCompliant, unknown, errors := 0, 0, 0, 0;
    var i := 0;
    while i < |cs|
      invariant 0 <= i <= |cs|
      invariant compliant == CountStatus(cs[..i], Compliant)
      invariant nonCompliant == CountStatus(cs[..i], NonCompliant)
      invariant unknown == CountStatus(cs[..i], Unknown)
      invariant errors == CountStatus(cs[..i], Error)
    {
      assert cs[..i + 1][..i] == cs[..i];
      match cs[i].status {
        case Compliant => compliant := compliant + 1;
        case NonCompliant => nonCompliant := nonCompliant + 1;
        case Unknown => unknown := unknown + 1;
        case Error => errors := errors + 1;
      }
      i := i + 1;
    }
    assert cs[..i] == cs;
    s := Summary(|cs|, compliant, nonCompliant, unknown, errors);
  }

  /** The validator object; `checks` holds the results of the last run. */
  class SpecComplianceValidator {
    var checks: seq<ComplianceCheck>

    constructor ()
      ensures checks == []
    {
      checks := [];
    }

    /** Resets `checks`, appends the three results in order, counts them
        and picks the overall status. */
    method ValidateAll(h: Host) returns (r: Report)
      modifies this
      ensures checks == RunChecks(h)
      ensures r.checks == checks && r.summary == SummaryOf(checks)
      ensures r.summary.total == 3
      ensures r.overall == OverallStatus(r.summary)
    {
      checks := [];
      checks := checks + [BufferSizeCheck(h)];
      checks := checks + [DriverLoadedCheck(h)];
      checks := checks + [AccessibilityCheck(h)];
      var summary := Tally(checks);
      var overall := Compliant;
      if summary.nonCompliant > 0 {
        overall := NonCompliant;
      } else if summary.errors > 0 {
        overall := Error;
      } else if summary.unknown == |checks| {
        overall := Unknown;
      }
      r := Report(overall, checks, summary);
    }
  }

  // ---------------------------------------------------------------------
  // main
  // ---------------------------------------------------------------------

  /** The overall status of one validator run on host `h`. */
  function Verdict(h: Host): (st: ComplianceStatus)
  {
    OverallStatus(SummaryOf(RunChecks(h)))
  }

  /** The exit code `main` gives for an overall status. */
  function ExitCode(overall: ComplianceStatus): (code: int)
    ensures code == 0 <==> overall == Compliant
    ensures code == 1 <==> overall == NonCompliant
    ensures code == 2 <==> overall == Unknown || overall == Error
  {
    match overall
    case Compliant => 0
    case NonCompliant => 1
    case Unknown => 2
    case Error => 2
  }

  /** `main`: run every check on a fresh validator and map the overall
      status to the process exit code. */
  method ValidatorMain(h: Host) returns (code: int)
    ensures code == ExitCode(Verdict(h))
  {
    var validator := new SpecComplianceValidator();
    var results := validator.ValidateAll(h);
    code := ExitCode(results.overall);
  }

  /** Without a device node the accessibility check fails, so the whole run
      is non-compliant and exits with 1. */
  lemma NoDeviceNodeExitsOne(h: Host)
    requires !h.tpm0 && !h.tpmrm0
    ensures Verdict(h) == NonCompliant && ExitCode(Verdict(h)) == 1
  {
  }

  /** Both checks find the same device nodes. */
  predicate NodesStable(h: Host)
  {
    h.nodeAtBufferCheck == (h.tpm0 || h.tpmrm0)
  }

  /** While the device nodes stay as they are, the overall status is never
      UNKNOWN: the buffer check is inconclusive only when no device node
      exists, and then the accessibility check is non-compliant. Exit code 2
      then always means some check erred. */
  lemma VerdictNeverUnknown(h: Host)
    requires NodesStable(h)
    ensures Verdict(h) != Unknown
    ensures ExitCode(Verdict(h)) == 2 <==>
      && (forall i :: 0 <= i < 3 ==> RunChecks(h)[i].status != NonCompliant)
      && (exists i :: 0 <= i < 3 && RunChecks(h)[i].status == Error)
  {
    var cs := RunChecks(h);
    OverallByChecks(cs);
    if cs[0].status == Unknown {
      assert cs[2].status == NonCompliant;
    }
  }

  /** A device node that appears between the buffer check and the
      accessibility check can make the overall status UNKNOWN (exit code 2)
      with no check in error: a quiet log and no node at the first lookup,
      no patched driver listed, and a node but no TPM tools at the second. */
  lemma NodeAppearingGivesUnknown(h: Host)
    requires h.dmesg.Exited? && h.workaroundMatch.None? && !h.firmwareBugMatch
    requires !h.nodeAtBufferCheck && (h.tpm0 || h.tpmrm0)
    requires h.lsmod.Exited? && !Contains(h.lsmod.stdout, PatchedModule)
    requires h.getcap.NotInstalled?
    ensures Verdict(h) == Unknown && ExitCode(Verdict(h)) == 2
  {
    var cs := RunChecks(h);
    OverallByChecks(cs);
    assert forall i :: 0 <= i < 3 ==> cs[i].status == Unknown;
  }
}
