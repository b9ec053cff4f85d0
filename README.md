# CRB driver firmware-bug fix: the decision logic, in Dafny

Some TPM firmware reports command and response buffers that overlap (same
physical address) but have different sizes, and the stock `tpm_crb` driver
then refuses the device. The repository ships a patched driver and two
Python scripts around it. This project models the decision logic of those
two scripts and proves what they promise.

- `validate_spec_compliance.py` (module `Compliance`, `compliance.dfy`):
  three checks judge the kernel log, the `lsmod` listing and the TPM device
  nodes. Each check yields COMPLIANT, NON_COMPLIANT, UNKNOWN or ERROR.
  `validate_all` stores the three results, counts them and picks an overall
  status. `main` maps that status to exit code 0, 1 or 2. The rule being
  checked is "overlapping buffers must have identical sizes", which the
  script attributes to section 5.2.1 of the TCG CRB 2.0 specification.
- `crb_auto_fix.py` (module `AutoFix`, `auto_fix.dfy`): the class
  `CrbAutoFix` keeps `fixStatus` and `fixMethod`. Its `Fix` method runs the
  six-step workflow:
  1. detect the failure;
  2. stop if the TPM already passes the compliance run;
  3. install through DKMS, or through the blacklist method as backup;
  4. verify;
  5. run the validator again;
  6. report.
- `host_probe.dfy` (module `HostProbe`): the outcome of a subprocess run,
  and the substring tests both scripts use.

Everything the scripts observe is an input, so both models are
deterministic:
- each subprocess becomes a `Run`: exited with a code and output, timed
  out, not installed, or raised;
- each file-existence test and the root test become booleans;
- each regular-expression search becomes either a captured value
  (`Compliance.Host.workaroundMatch`, `firmwareBugMatch`) or a predicate on
  the pattern (`AutoFix.System.dmesgMatches`).

`Fix` is proved against the function `FixPlan`. The lemmas about
`FixPlan` state the workflow's priority, fallback and terminal statuses.
The class also keeps a ghost log `installs` of the installers it called.
The source has no such log; it exists only to state which installers ran.

Quirks of the code, kept as written:
- A workaround message counts as COMPLIANT only when the logged `cmd` and
  `rsp` already equal the logged maximum. A message that logs two different
  sizes is therefore never compliant (`MismatchLoggedNeverCompliant`).
- When the DKMS module is already installed, `Fix` sets the method to DKMS
  and leaves the status as it was. On a fresh object that is NOT_NEEDED,
  and `main` exits 0 (`AlreadyInstalledKeepsStatus`).
- A failed verification never downgrades SUCCESS. The final compliance run
  changes nothing either (`PostFixObservationsIgnored`).
- The validator's overall status is never UNKNOWN while both checks find
  the same device nodes. The buffer check is inconclusive only without a
  device node, and then the accessibility check is NON_COMPLIANT
  (`VerdictNeverUnknown`). The two checks look the nodes up separately; a
  node that appears in between can make the status UNKNOWN
  (`NodeAppearingGivesUnknown`).

Facts about the scripts:
- The validator exits 0, 1 or 2. The fixer exits 0 (SUCCESS or
  NOT_NEEDED) or 1.
- The failure-signature searches of the fixer ignore case; the model's
  input `AutoFix.System.dmesgMatches` stands for that case-insensitive search.
- Neither script normalises buffer sizes or keeps a log of its install
  attempts.

## Model

| member | source | states |
|---|---|---|
| `HostProbe.Contains` | validate_spec_compliance.py:200-208 | Python's `sub in s`: true exactly when `sub` occurs at some index of `s` |
| `HostProbe.Lower` | validate_spec_compliance.py:132 | `str.lower()` on ASCII: the result has the same length and no capital ASCII letter, and every character that is not a capital letter is kept at its index |
| `HostProbe.LowerIdempotent` | validate_spec_compliance.py:132 | lower-casing an already lower-cased log changes nothing |
| `HostProbe.LowerChar` | validate_spec_compliance.py:132 | the result is never a capital ASCII letter, and a character that is not one is returned unchanged |
| `HostProbe.ContainsPrefix` | validate_spec_compliance.py:200-215 | a text that contains "tpm_crb_patched" also contains every prefix of it, such as "tpm_crb" |
| `Compliance.WorkaroundMentioned` | validate_spec_compliance.py:132 | true iff "workaround" or "using max" occurs at some index of the lower-cased log |
| `Compliance.BufferSizeCheck` | validate_spec_compliance.py:55-182 | ERROR exactly when dmesg could not be read. With a logged triple: COMPLIANT iff cmd == rsp == max, else NON_COMPLIANT, and a wrong max records expected_max = max(cmd, rsp). With only the firmware-bug marker: COMPLIANT iff the lower-cased log mentions "workaround" or "using max", else NON_COMPLIANT. With nothing matched: COMPLIANT with the "TPM accessible" details when the buffer check's own lookup finds a device node, and UNKNOWN exactly when it finds none |
| `Compliance.MismatchLoggedNeverCompliant` | validate_spec_compliance.py:85-111 | a logged triple with cmd != rsp is NON_COMPLIANT whatever max it reports |
| `Compliance.WorkaroundTripleDecidesFirst` | validate_spec_compliance.py:75-157 | with a logged triple, neither the firmware-bug marker nor the buffer check's node lookup changes the verdict |
| `Compliance.FirmwareBugDecidesBeforeNodes` | validate_spec_compliance.py:127-157 | with no triple but the bug marker, the buffer check's node lookup does not change the verdict |
| `Compliance.DriverLoadedCheck` | validate_spec_compliance.py:184-232 | never NON_COMPLIANT. ERROR exactly when lsmod raised. COMPLIANT iff "tpm_crb_patched" is listed, UNKNOWN otherwise. Reports a loaded driver iff "tpm_crb" is listed, and `loaded: False` iff it is not |
| `Compliance.StderrExcerpt` | validate_spec_compliance.py:267-277 | "Unknown error" for empty stderr, otherwise a prefix of stderr of length min(200, len) |
| `Compliance.AccessibilityCheck` | validate_spec_compliance.py:234-311 | NON_COMPLIANT iff neither /dev/tpm0 nor /dev/tpmrm0 exists. COMPLIANT iff a node exists and tpm2_getcap exits 0. ERROR iff a node exists and the probe timed out or raised (anything but a missing tool). The recorded stderr is at most 200 characters |
| `Compliance.CountPositive` | validate_spec_compliance.py:325-328 | a status count is positive iff some check has that status |
| `Compliance.CountAll` | validate_spec_compliance.py:340 | a status count equals the number of checks iff every check has that status |
| `Compliance.OverallStatus` | validate_spec_compliance.py:333-344 | from the counts: NON_COMPLIANT iff some non-compliant; ERROR iff none non-compliant and some error; UNKNOWN iff neither and every check unknown; COMPLIANT otherwise |
| `Compliance.CountsSumToTotal` | validate_spec_compliance.py:325-370 | the four counts of the summary add up to its total |
| `Compliance.OverallByChecks` | validate_spec_compliance.py:333-344 | overall NON_COMPLIANT iff some check is. ERROR iff none is and some check erred. UNKNOWN iff every check is UNKNOWN. COMPLIANT iff none is non-compliant or erred and at least one is compliant |
| `Compliance.Tally` | validate_spec_compliance.py:325-328 | the one-pass count returns the total and the number of checks with each status |
| `Compliance.SpecComplianceValidator.constructor` | validate_spec_compliance.py:52-53 | a new validator holds no checks |
| `Compliance.SpecComplianceValidator.ValidateAll` | validate_spec_compliance.py:313-371 | `checks` becomes exactly [buffer, driver, accessibility] in that order. The report carries those checks, their counts (total 3) and the overall status of the counts |
| `Compliance.ExitCode` | validate_spec_compliance.py:413-419 | exit 0 iff compliant, 1 iff non-compliant, 2 iff unknown or error |
| `Compliance.ValidatorMain` | validate_spec_compliance.py:407-419 | a fresh validator's run exits with the code of the overall verdict on the host |
| `Compliance.NoDeviceNodeExitsOne` | validate_spec_compliance.py:292-336 | without any TPM device node the overall verdict is NON_COMPLIANT and the exit code 1 |
| `Compliance.VerdictNeverUnknown` | validate_spec_compliance.py:149-344 | when both checks find the same device nodes, the overall verdict is never UNKNOWN, so exit code 2 means no check is non-compliant and some check erred |
| `Compliance.NodeAppearingGivesUnknown` | validate_spec_compliance.py:149-344 | a node missing at the buffer check but present at the accessibility check, with no patched driver listed and no TPM tools, gives overall UNKNOWN and exit code 2 |
| `AutoFix.CrbFailureLogged` | crb_auto_fix.py:53-83 | true iff dmesg was read and one of the three failure patterns matches it; an exception counts as no failure |
| `AutoFix.DkmsAvailable` | crb_auto_fix.py:89-99 | false when `which dkms` raised or timed out; otherwise true iff it exits 0 |
| `AutoFix.DkmsModuleInstalled` | crb_auto_fix.py:101-112 | false when `dkms status` raised or timed out; otherwise true iff "tpm-crb-patched" occurs in its output |
| `AutoFix.VerifyFixSucceeds` | crb_auto_fix.py:221-256 | false without a device node. With a node: true iff tpm2_getcap exits 0, true when it is not installed, false on a timeout or another exception |
| `AutoFix.VerifyFixMatchesAccessibility` | crb_auto_fix.py:221-256 | on the same node and getcap outcome, `verify_fix` succeeds iff the validator's accessibility check is COMPLIANT or finds the node without TPM tools |
| `AutoFix.SpecCheckPasses` | crb_auto_fix.py:258-304 | true when the validator script is missing or a non-timeout exception occurs. False on timeout. Otherwise true iff the return code is 0 |
| `AutoFix.SpecCheckMeansCompliant` | crb_auto_fix.py:262-297 | when the validator process exits with its own main's code, the fixer's check passes iff the validator's overall verdict is COMPLIANT |
| `AutoFix.ExitCode` | crb_auto_fix.py:410-421 | exit 0 iff SUCCESS or NOT_NEEDED, 1 otherwise |
| `AutoFix.CrbAutoFix.constructor` | crb_auto_fix.py:47-51 | a new fixer has method NONE and status NOT_NEEDED |
| `AutoFix.FixPlan` | crb_auto_fix.py:306-354 | the installers run are none, DKMS, BLACKLIST, or DKMS then BLACKLIST. ERROR comes only from an old ERROR. A new FAILED follows a blacklist install that ran last. The method changes only to DKMS or BLACKLIST |
| `AutoFix.CrbAutoFix.DetectCrbFailure` | crb_auto_fix.py:53-83 | the loop over the patterns returns true iff `CrbFailureLogged` holds |
| `AutoFix.CrbAutoFix.InstallViaDkms` | crb_auto_fix.py:114-150 | returns true iff the install script exists, the process is root and the script exits 0. The method becomes DKMS only then and is otherwise unchanged |
| `AutoFix.CrbAutoFix.InstallViaBlacklist` | crb_auto_fix.py:152-219 | returns true iff root, the bundled config exists and is copied, the build passes (or there is no build script), the module exists and insmod exits 0. The method becomes BLACKLIST only then |
| `AutoFix.CrbAutoFix.Fix` | crb_auto_fix.py:306-381 | the returned status is the new `fixStatus`. Status, method and installers called are those of `FixPlan` from the old fields. `Valid()` (status is never ERROR) is kept |
| `AutoFix.AutoFixMain` | crb_auto_fix.py:410-421 | a fresh fixer's run exits with the code of the status `FixPlan` gives from NOT_NEEDED/NONE |
| `AutoFix.HealthySystemNeedsNoFix` | crb_auto_fix.py:312-317 | no failure logged and a TPM node present: NOT_NEEDED, no installer, method unchanged |
| `AutoFix.CompliantSystemInstallsNothing` | crb_auto_fix.py:322-328 | TPM node present and the compliance run passes: no installer, method unchanged, SUCCESS if a failure was logged (else NOT_NEEDED) |
| `AutoFix.InstallsOnlyAfterSteps1And2` | crb_auto_fix.py:312-333 | an installer runs only if the TPM node is missing, or a failure is logged and the compliance run fails |
| `AutoFix.BlacklistOnlyAsFallback` | crb_auto_fix.py:333-354 | the blacklist install runs iff step 3 is reached and DKMS is unavailable or (module not installed and DKMS install failed) |
| `AutoFix.AlreadyInstalledKeepsStatus` | crb_auto_fix.py:334-337 | DKMS module already installed: method DKMS, no installer, status unchanged. From a fresh fixer the exit code is 0 |
| `AutoFix.MethodFollowsSuccessfulInstall` | crb_auto_fix.py:333-354 | the method changes only to DKMS when the module is installed or the DKMS install succeeded, or to BLACKLIST when the blacklist install (the last one run) succeeded |
| `AutoFix.AllInstallsFailed` | crb_auto_fix.py:340-354 | when every installer run fails: FAILED, with the method unchanged |
| `AutoFix.NeverReportsError` | crb_auto_fix.py:306-381 | `fix()` never produces ERROR from a non-ERROR status |
| `AutoFix.PostFixObservationsIgnored` | crb_auto_fix.py:356-381 | the verification and the final compliance run do not change status, method or installers |
| `AutoFix.FreshRunExitsOneIffInstallsFail` | crb_auto_fix.py:306-421 | a fresh fixer exits 1 iff step 3 is reached and neither a present DKMS module nor any install succeeded |

## Left out

- Subprocesses (`dmesg`, `lsmod`, `tpm2_getcap`, `which dkms`, `dkms status`, the install and build scripts, `insmod`, the validator) are not run. Each one's outcome, and its timeout, is an input `Run`.
- Filesystem effects (the existence tests, the copy to `/etc/modprobe.d/blacklist-tpm-crb.conf`) and `os.geteuid` are boolean inputs. A failed copy is the single input `blacklistCopied`.
- Python regular-expression semantics are left out. The workaround search is an input triple. The other searches are inputs (a boolean, or a predicate on the pattern text). Parsing digit strings is not modelled.
- `Compliance.WorkaroundMentioned` lower-cases ASCII letters only. Python's `str.lower()` also folds non-ASCII letters.
- `Compliance.Host` keeps the buffer check's node lookup and the accessibility check's lookups as separate inputs. `Compliance.VerdictNeverUnknown` holds only when they agree (`NodesStable`); `NodeAppearingGivesUnknown` shows what happens when they do not.
- `AutoFix.System` observes the device node and the validator run twice: before the installation (steps 1-2) and after it (steps 4-5). The source reads them again at each call. Calls within one phase are assumed to agree.
- Logging, `print_report`, `report_results` and the status symbols are human-readable output with no decision content.
- The report keeps statuses as the enumeration, not as their `.value` strings. The constant `"compliance"` entry of the normalised-sizes details is not kept.
- crb_patch/tpm.h only declares kernel structures, constants and prototypes; it is not part of this model. The patched driver's own size normalisation is not among the files modelled either.
