/** The automated fix for the CRB driver firmware bug: detect the failure in
    the kernel log, skip the fix when the TPM already works, otherwise
    install the patched driver through DKMS (primary) or through the
    blacklist method (backup), then verify and re-run the compliance
    validator. Every observation of the host is an input: the model is a
    deterministic function of the `System` record. */
module AutoFix {
  import opened HostProbe
  import Compliance

  datatype FixMethod = Dkms | Blacklist | NoMethod
  datatype FixStatus = Success | Failed | NotNeeded | FixError

  /** What the fixer observes of the host, stage by stage.
      `dmesgMatches(p)` is the result of the case-insensitive regular
      expression search for pattern `p` in the stdout of `dmesg`.
      The device nodes and the validator run are observed before the
      installation (steps 1 and 2) and again after it (steps 4 and 5), since
      installing a driver changes them. */
  datatype System = System(
    dmesg: Run,
    dmesgMatches: string -> bool,
    tpmNodeBefore: bool,              // /dev/tpm0 or /dev/tpmrm0 exists, steps 1-2
    validatorPresent: bool,           // validate_spec_compliance.py exists
    validatorBefore: Run,
    whichDkms: Run,                   // `which dkms`
    dkmsStatus: Run,                  // `dkms status`
    dkmsScriptPresent: bool,          // crb_patch/install_dkms.sh exists
    isRoot: bool,                     // os.geteuid() == 0
    dkmsInstall: Run,                 // `bash install_dkms.sh`
    blacklistConfPresent: bool,       // crb_patch/blacklist_crb.conf exists
    blacklistCopied: bool,            // copying it to /etc/modprobe.d raised nothing
    buildScriptPresent: bool,         // crb_patch/build_patched_crb.sh exists
    build: Run,                       // `bash build_patched_crb.sh`
    patchedModulePresent: bool,       // crb_patch/patched/tpm_crb_patched.ko exists
    insmod: Run,                      // `insmod tpm_crb_patched.ko`
    tpmNodeAfter: bool,               // /dev/tpm0 or /dev/tpmrm0 exists, steps 4-5
    getcapAfter: Run,                 // `tpm2_getcap properties-fixed` in verify_fix
    validatorAfter: Run)

  /** The three failure signatures `detect_crb_failure` searches for, in order. */
  const FailurePatterns: seq<string> := [
    "tpm_crb.*\\[Firmware Bug\\].*buffer.*sizes.*not identical",
    "tpm_crb.*probe.*failed.*error.*-22",
    "tpm_crb.*STM0176.*failed"
  ]

  const DkmsPackage := "tpm-crb-patched"

  // ---------------------------------------------------------------------
  // Guard chains of the helpers
  // ---------------------------------------------------------------------

  /** Some failure signature is in the kernel log; an exception while
      reading it counts as no failure. */
  predicate CrbFailureLogged(sys: System): (r: bool)
    ensures r <==>
      (&& sys.dmesg.Exited?
       && (|| sys.dmesgMatches(FailurePatterns[0])
           || sys.dmesgMatches(FailurePatterns[1])
           || sys.dmesgMatches(FailurePatterns[2])))
  {
    sys.dmesg.Exited? &&
    exists i | 0 <= i < |FailurePatterns| :: sys.dmesgMatches(FailurePatterns[i])
  }

  /** `check_dkms_available`: `which dkms` exits 0. */
  predicate DkmsAvailable(sys: System): (r: bool)
    ensures !sys.whichDkms.Exited? ==> !r
    ensures sys.whichDkms.Exited? ==> (r <==> sys.whichDkms.code == 0)
  {
    sys.whichDkms.Exited? && sys.whichDkms.code == 0
  }

  /** `check_dkms_module_installed`: `dkms status` names the package. */
  predicate DkmsModuleInstalled(sys: System): (r: bool)
    ensures !sys.dkmsStatus.Exited? ==> !r
    ensures sys.dkmsStatus.Exited? ==>
      (r <==> exists i: nat :: OccursAt(sys.dkmsStatus.stdout, "tpm-crb-patched", i))
  {
    sys.dkmsStatus.Exited? && Contains(sys.dkmsStatus.stdout, DkmsPackage)
  }

  /** `install_via_dkms` returns True: the install script exists, the
      process runs as root, and the script exits 0. */
  predicate DkmsInstallSucceeds(sys: System)
  {
    && sys.dkmsScriptPresent
    && sys.isRoot
    && sys.dkmsInstall.Exited? && sys.dkmsInstall.code == 0
  }

  /** The build step of `install_via_blacklist` lets it go on: either there
      is no build script, or the script exits 0. */
  predicate BuildPasses(sys: System)
  {
    !sys.buildScriptPresent || (sys.build.Exited? && sys.build.code == 0)
  }

  /** `install_via_blacklist` returns True. */
  predicate BlacklistInstallSucceeds(sys: System)
  {
    && sys.isRoot
    && sys.blacklistConfPresent
    && sys.blacklistCopied
    && BuildPasses(sys)
    && sys.patchedModulePresent
    && sys.insmod.Exited? && sys.insmod.code == 0
  }

  /** `verify_fix`: a device node exists and `tpm2_getcap` either exits 0
      or is not installed (then the node alone is trusted). */
  predicate VerifyFixSucceeds(sys: System): (r: bool)
    ensures !sys.tpmNodeAfter ==> !r
    ensures sys.tpmNodeAfter && sys.getcapAfter.Exited? ==> (r <==> sys.getcapAfter.code == 0)
    ensures sys.tpmNodeAfter && sys.getcapAfter.NotInstalled? ==> r
    ensures sys.getcapAfter.TimedOut? || sys.getcapAfter.Raised? ==> !r
  {
    sys.tpmNodeAfter &&
    match sys.getcapAfter
    case Exited(code, _, _) => code == 0
    case NotInstalled(_) => true
    case TimedOut(_) => false
    case Raised(_) => false
  }

  /** `verify_fix` repeats the validator's accessibility probe: it succeeds
      exactly when that check, run on the same device nodes and the same
      `tpm2_getcap` outcome, is COMPLIANT or finds a node but no TPM tools. */
  lemma VerifyFixMatchesAccessibility(sys: System, h: Compliance.Host)
    requires (h.tpm0 || h.tpmrm0) == sys.tpmNodeAfter && h.getcap == sys.getcapAfter
    ensures VerifyFixSucceeds(sys) <==>
      var a := Compliance.AccessibilityCheck(h);
      || a.status == Compliance.Compliant
      || a.details == Compliance.DeviceNodes(h.tpm0, h.tpmrm0, Compliance.ToolsMissing)
  {
  }

  /** `run_spec_compliance_check`: a missing validator, or an exception
      other than a timeout, is not held against the fix; a timeout is;
      otherwise the validator's exit code decides. */
  function SpecCheckPasses(validatorPresent: bool, run: Run): (ok: bool)
    ensures !validatorPresent ==> ok
    ensures validatorPresent && run.TimedOut? ==> !ok
    ensures validatorPresent && (run.NotInstalled? || run.Raised?) ==> ok
    ensures validatorPresent && run.Exited? ==> (ok <==> run.code == 0)
  {
    if !validatorPresent then true
    else
      match run
      case Exited(code, _, _) => code == 0
      case TimedOut(_) => false
      case NotInstalled(_) => true
      case Raised(_) => true
  }

  /** The validator process finished with the exit code its own `main`
      computes: the fixer's check passes exactly when the validator's
      overall verdict is COMPLIANT. */
  lemma SpecCheckMeansCompliant(h: Compliance.Host, stdout: string, stderr: string)
    ensures SpecCheckPasses(true, Exited(Compliance.ExitCode(Compliance.Verdict(h)), stdout, stderr))
        <==> Compliance.Verdict(h) == Compliance.Compliant
  {
  }

  // ---------------------------------------------------------------------
  // The specification of fix()
  // ---------------------------------------------------------------------

  /** Final `fix_status`, final `fix_method`, and the installers called, in
      order. */
  datatype FixRun = FixRun(status: FixStatus, fixMethod: FixMethod, installs: seq<FixMethod>)

  /** The fix stops at step 1 or 2 unless the TPM node is missing, or a
      failure is logged and the compliance check fails. */
  predicate ReachesInstall(sys: System)
  {
    !sys.tpmNodeBefore ||
    (CrbFailureLogged(sys) && !SpecCheckPasses(sys.validatorPresent, sys.validatorBefore))
  }

  /** What `fix()` does to an object whose fields start as `status0` and
      `method0`. */
  function FixPlan(sys: System, status0: FixStatus, method0: FixMethod): (r: FixRun)
    ensures r.installs in {[], [Dkms], [Blacklist], [Dkms, Blacklist]}
    ensures r.status == FixError ==> status0 == FixError
    ensures r.status == Failed && status0 != Failed ==> r.installs != [] && r.installs[|r.installs| - 1] == Blacklist
    ensures r.fixMethod != method0 ==> r.fixMethod != NoMethod
  {
    if !CrbFailureLogged(sys) && sys.tpmNodeBefore then
      FixRun(NotNeeded, method0, [])
    else if sys.tpmNodeBefore && SpecCheckPasses(sys.validatorPresent, sys.validatorBefore) then
      FixRun(Success, method0, [])
    else if DkmsAvailable(sys) then
      if DkmsModuleInstalled(sys) then
        FixRun(status0, Dkms, [])
      else if DkmsInstallSucceeds(sys) then
        FixRun(Success, Dkms, [Dkms])
      else if BlacklistInstallSucceeds(sys) then
        FixRun(Success, Blacklist, [Dkms, Blacklist])
      else
        FixRun(Failed, method0, [Dkms, Blacklist])
    else if BlacklistInstallSucceeds(sys) then
      FixRun(Success, Blacklist, [Blacklist])
    else
      FixRun(Failed, method0, [Blacklist])
  }

  /** `main`'s exit code for the status `fix()` returned. */
  function ExitCode(status: FixStatus): (code: int)
    ensures code == 0 <==> (status == Success || status == NotNeeded)
    ensures code == 1 <==> (status == Failed || status == FixError)
  {
    match status
    case Success => 0
    case NotNeeded => 0
    case Failed => 1
    case FixError => 1
  }

  // ---------------------------------------------------------------------
  // The fixer object
  // ---------------------------------------------------------------------

  class CrbAutoFix {
    var fixMethod: FixMethod
    var fixStatus: FixStatus
    /** The installers called on this object, in order. */
    ghost var installs: seq<FixMethod>

    /** No code path ever assigns ERROR to `fix_status`. */
    ghost predicate Valid()
      reads this
    {
      fixStatus != FixError
    }

    constructor ()
      ensures Valid()
      ensures fixMethod == NoMethod && fixStatus == NotNeeded && installs == []
    {
      fixMethod := NoMethod;
      fixStatus := NotNeeded;
      installs := [];
    }

    /** `detect_crb_failure`: try each pattern in turn and stop at the
        first that matches. */
    method DetectCrbFailure(sys: System) returns (found: bool)
      ensures found <==> CrbFailureLogged(sys)
    {
      if !sys.dmesg.Exited? {
        return false;
      }
      var k := 0;
      while k < |FailurePatterns|
        invariant 0 <= k <= |FailurePatterns|
        invariant forall i :: 0 <= i < k ==> !sys.dmesgMatches(FailurePatterns[i])
      {
        if sys.dmesgMatches(FailurePatterns[k]) {
          return true;
        }
        k := k + 1;
      }
      return false;
    }

    /** `install_via_dkms`: on success the method becomes DKMS. */
    method InstallViaDkms(sys: System) returns (ok: bool)
      modifies this`fixMethod, this`installs
      ensures ok == DkmsInstallSucceeds(sys)
      ensures fixMethod == if ok then Dkms else old(fixMethod)
      ensures installs == old(installs) + [Dkms]
    {
      installs := installs + [Dkms];
      if !sys.dkmsScriptPresent {
        return false;
      }
      if !sys.isRoot {
        return false;
      }
      match sys.dkmsInstall {
        case Exited(code, _, _) =>
          if code == 0 {
            fixMethod := Dkms;
            return true;
          }
          return false;
        case TimedOut(_) => return false;
        case NotInstalled(_) => return false;
        case Raised(_) => return false;
      }
    }

    /** `install_via_blacklist`: on success the method becomes BLACKLIST. */
    method InstallViaBlacklist(sys: System) returns (ok: bool)
      modifies this`fixMethod, this`installs
      ensures ok == BlacklistInstallSucceeds(sys)
      ensures fixMethod == if ok then Blacklist else old(fixMethod)
      ensures installs == old(installs) + [Blacklist]
    {
      installs := installs + [Blacklist];
      if !sys.isRoot {
        return false;
      }
      if !sys.blacklistConfPresent {
        return false;
      }
      if !sys.blacklistCopied {
        return false;
      }
      if sys.buildScriptPresent {
        if !(sys.build.Exited? && sys.build.code == 0) {
          return false;
        }
      }
      if !sys.patchedModulePresent {
        return false;
      }
      if sys.insmod.Exited? && sys.insmod.code == 0 {
        fixMethod := Blacklist;
        return true;
      }
      return false;
    }

    /** `fix()`: the six-step workflow. */
    method Fix(sys: System) returns (status: FixStatus)
      requires Valid()
      modifies this
      ensures Valid()
      ensures status == fixStatus
      ensures var plan := FixPlan(sys, old(fixStatus), old(fixMethod));
        fixStatus == plan.status && fixMethod == plan.fixMethod &&
        installs == old(installs) + plan.installs
    {
      // Step 1: is a fix needed?
      var failed := DetectCrbFailure(sys);
      if !failed {
        if sys.tpmNodeBefore {
          fixStatus := NotNeeded;
          return fixStatus;
        }
      }
      // Step 2: already fixed?
      if sys.tpmNodeBefore {
        var compliant := SpecCheckPasses(sys.validatorPresent, sys.validatorBefore);
        if compliant {
          fixStatus := Success;
          return fixStatus;
        }
      }
      // Step 3: DKMS first, blacklist as backup.
      if DkmsAvailable(sys) {
        if DkmsModuleInstalled(sys) {
          fixMethod := Dkms;
        } else {
          var viaDkms := InstallViaDkms(sys);
          if viaDkms {
            fixStatus := Success;
          } else {
            var viaBlacklist := InstallViaBlacklist(sys);
            if viaBlacklist {
              fixStatus := Success;
            } else {
              fixStatus := Failed;
            }
          }
        }
      } else {
        var viaBlacklist := InstallViaBlacklist(sys);
        if viaBlacklist {
          fixStatus := Success;
        } else {
          fixStatus := Failed;
        }
      }
      // Step 4: verification is only reported; a failed verification does
      // not downgrade SUCCESS.
      if fixStatus == Success {
        var verified := VerifyFixSucceeds(sys);
      }
      // Step 5: the final compliance run is only reported as well.
      var finalCheck := SpecCheckPasses(sys.validatorPresent, sys.validatorAfter);
      status := fixStatus;
    }
  }

  /** `main`: run `fix()` on a fresh fixer and map the status to the exit
      code. */
  method AutoFixMain(sys: System) returns (code: int)
    ensures code == ExitCode(FixPlan(sys, NotNeeded, NoMethod).status)
  {
    var fixer := new CrbAutoFix();
    var status := fixer.Fix(sys);
    code := ExitCode(status);
  }

  // ---------------------------------------------------------------------
  // Properties of fix()
  // ---------------------------------------------------------------------

  /** Step 1: no failure logged and a working TPM node: NOT_NEEDED, nothing
      installed, the method untouched. */
  lemma HealthySystemNeedsNoFix(sys: System, status0: FixStatus, method0: FixMethod)
    requires !CrbFailureLogged(sys) && sys.tpmNodeBefore
    ensures FixPlan(sys, status0, method0) == FixRun(NotNeeded, method0, [])
  {
  }

  /** Step 2: an accessible TPM whose compliance check passes: no installer
      runs and the status is SUCCESS, or NOT_NEEDED when no failure is
      logged. */
  lemma CompliantSystemInstallsNothing(sys: System, status0: FixStatus, method0: FixMethod)
    requires sys.tpmNodeBefore && SpecCheckPasses(sys.validatorPresent, sys.validatorBefore)
    ensures var plan := FixPlan(sys, status0, method0);
      && plan.installs == []
      && plan.fixMethod == method0
      && plan.status == (if CrbFailureLogged(sys) then Success else NotNeeded)
  {
  }

  /** An installer runs only when step 3 is reached. */
  lemma InstallsOnlyAfterSteps1And2(sys: System, status0: FixStatus, method0: FixMethod)
    ensures FixPlan(sys, status0, method0).installs != [] ==> ReachesInstall(sys)
  {
  }

  /** The blacklist installer is the backup: it runs exactly when step 3 is
      reached and DKMS is missing or its install failed. It never runs after
      a DKMS install succeeded, nor when the DKMS module is already there. */
  lemma BlacklistOnlyAsFallback(sys: System, status0: FixStatus, method0: FixMethod)
    ensures Blacklist in FixPlan(sys, status0, method0).installs <==>
      ReachesInstall(sys) &&
      (!DkmsAvailable(sys) || (!DkmsModuleInstalled(sys) && !DkmsInstallSucceeds(sys)))
  {
  }

  /** DKMS module already installed: the method becomes DKMS, no installer
      runs, and the status keeps whatever value it had, which on a fresh
      fixer is NOT_NEEDED, so `main` exits 0. */
  lemma AlreadyInstalledKeepsStatus(sys: System, status0: FixStatus, method0: FixMethod)
    requires ReachesInstall(sys) && DkmsAvailable(sys) && DkmsModuleInstalled(sys)
    ensures FixPlan(sys, status0, method0) == FixRun(status0, Dkms, [])
    ensures ExitCode(FixPlan(sys, NotNeeded, NoMethod).status) == 0
  {
  }

  /** The method changes only to DKMS or BLACKLIST, and only when that
      install succeeded (or, for DKMS, the module was already installed). */
  lemma MethodFollowsSuccessfulInstall(sys: System, status0: FixStatus, method0: FixMethod)
    ensures var plan := FixPlan(sys, status0, method0);
      plan.fixMethod != method0 ==>
        || (plan.fixMethod == Dkms && (DkmsModuleInstalled(sys) || DkmsInstallSucceeds(sys)))
        || (plan.fixMethod == Blacklist && BlacklistInstallSucceeds(sys) &&
            plan.installs[|plan.installs| - 1] == Blacklist)
  {
  }

  /** Every installer that ran failed: FAILED, and the method untouched. */
  lemma AllInstallsFailed(sys: System, status0: FixStatus, method0: FixMethod)
    requires ReachesInstall(sys)
    requires !(DkmsAvailable(sys) && DkmsModuleInstalled(sys))
    requires !(DkmsAvailable(sys) && DkmsInstallSucceeds(sys))
    requires !BlacklistInstallSucceeds(sys)
    ensures FixPlan(sys, status0, method0).status == Failed
    ensures FixPlan(sys, status0, method0).fixMethod == method0
  {
  }

  /** `fix()` never yields ERROR unless the object already held it. */
  lemma NeverReportsError(sys: System, status0: FixStatus, method0: FixMethod)
    requires status0 != FixError
    ensures FixPlan(sys, status0, method0).status != FixError
  {
  }

  /** What is observed after the installation (verification and the final
      compliance run) never changes the outcome. */
  lemma PostFixObservationsIgnored(sys: System, status0: FixStatus, method0: FixMethod,
                                   node: bool, getcap: Run, validator: Run)
    ensures FixPlan(sys.(tpmNodeAfter := node, getcapAfter := getcap, validatorAfter := validator),
                    status0, method0)
         == FixPlan(sys, status0, method0)
  {
  }

  /** A fresh fixer exits 1 exactly when step 3 is reached and every
      installer it ran failed. */
  lemma FreshRunExitsOneIffInstallsFail(sys: System)
    ensures ExitCode(FixPlan(sys, NotNeeded, NoMethod).status) == 1 <==>
      && ReachesInstall(sys)
      && !(DkmsAvailable(sys) && (DkmsModuleInstalled(sys) || DkmsInstallSucceeds(sys)))
      && !BlacklistInstallSucceeds(sys)
  {
  }
}
