/** What the two scripts observe of the host: the outcome of one subprocess
    run, and the plain substring tests they apply to its text. Regular
    expression searches are not modelled here; each script's model receives
    their results as inputs. */
module HostProbe {

  /** The outcome of one `subprocess.run(...)` call as the scripts see it:
      the process finished with a return code and its captured output, or
      the call raised. `why` is the text of the raised exception (`str(e)`). */
  datatype Run =
    | Exited(code: int, stdout: string, stderr: string)
    | TimedOut(why: string)      // subprocess.TimeoutExpired
    | NotInstalled(why: string)  // FileNotFoundError: the program does not exist
    | Raised(why: string)        // any other exception

  /** `sub` occurs in `s` starting at index `i`. */
  ghost predicate OccursAt(s: string, sub: string, i: nat)
  {
    i + |sub| <= |s| && s[i..i + |sub|] == sub
  }

  /** Python's `sub in s` on strings. */
  function Contains(s: string, sub: string): (r: bool)
    ensures r <==> exists i: nat :: OccursAt(s, sub, i)
    decreases |s|
  {
    if |sub| <= |s| && s[..|sub|] == sub then
      assert OccursAt(s, sub, 0);
      true
    else if |s| == 0 then
      assert forall i: nat :: !OccursAt(s, sub, i);
      false
    else
      var r := Contains(s[1..], sub);
      assert forall i: nat :: OccursAt(s[1..], sub, i) <==> OccursAt(s, sub, i + 1);
      assert !OccursAt(s, sub, 0);
      assert forall i: nat :: OccursAt(s, sub, i) ==> i > 0 && OccursAt(s[1..], sub, i - 1);
      r
  }

  /** Whatever contains a string contains each of its prefixes: a log that
      names "tpm_crb_patched" also names "tpm_crb". */
  lemma {:induction false} ContainsPrefix(s: string, long: string, short: string)
    requires short <= long
    requires Contains(s, long)
    ensures Contains(s, short)
  {
    if |long| <= |s| && s[..|long|] == long {
      assert s[..|short|] == long[..|short|];
    } else {
      ContainsPrefix(s[1..], long, short);
    }
  }

  /** ASCII `c.lower()`: capital letters map to their small letters, every
      other character to itself. */
  function LowerChar(c: char): (r: char)
    ensures !('A' <= r <= 'Z')
    ensures !('A' <= c <= 'Z') ==> r == c
  {
    if 'A' <= c <= 'Z' then (c as int - 'A' as int + 'a' as int) as char else c
  }

  /** Python's `str.lower()`, on ASCII letters only. */
  function Lower(s: string): (r: string)
    ensures |r| == |s|
    ensures forall i :: 0 <= i < |r| ==> !('A' <= r[i] <= 'Z')
    ensures forall i :: 0 <= i < |s| && !('A' <= s[i] <= 'Z') ==> r[i] == s[i]
  {
    seq(|s|, i requires 0 <= i < |s| => LowerChar(s[i]))
  }

  /** Lower-casing twice is lower-casing once. */
  lemma LowerIdempotent(s: string)
    ensures Lower(Lower(s)) == Lower(s)
  {
  }
}
