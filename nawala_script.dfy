/** How `DomainService.runNawalaCronScript` reads the outcome of running the Nawala
    script: the spawn error, the exit status or signal, the output snippet, the
    `NAWALA_APPLY_RESULT=` line and its JSON. */
module NawalaScript {
  import opened Wrappers
  import opened Text
  import opened Js

  /** What `spawnSync` reports: an error (with its `code` and `message`) when the process
      could not run or timed out, the exit status (`null` when killed), the signal, and
      the captured output (`null` when not captured). */
  datatype SpawnError = SpawnError(code: string, message: string)
  datatype SpawnResult = SpawnResult(
    error: Option<SpawnError>,
    status: Option<int>,
    signal: Option<string>,
    stdout: Option<string>,
    stderr: Option<string>)

  datatype Counts = Counts(checked: int, updated: int)

  const TIMEOUT_MESSAGE: string :=
    "Nawala script did not finish within 5 minutes. Run the script by hand (./scripts/nawala-cron.sh) or use cron; the button may time out."
  const KILLED_DETAIL: string :=
    "Script was killed (e.g. timed out). Check VPN and Trust Positif reachability."
  const NO_RESULT_MESSAGE: string :=
    "Nawala script completed but did not output a result. Check server logs."
  const BAD_JSON_MESSAGE: string := "Nawala script returned invalid JSON result."
  const MARKER: string := "NAWALA_APPLY_RESULT="

  /** `${status}` */
  function StatusText(status: Option<int>): string {
    if status.Some? then IntToString(status.value) else "null"
  }

  /** Why a failed run failed: SIGKILL has its own message, another signal is named,
      otherwise the exit code is. */
  function FailureDetail(signal: Option<string>, status: Option<int>): (r: string)
    ensures signal == Some("SIGKILL") ==> r == KILLED_DETAIL
    ensures signal.Some? && signal != Some("SIGKILL") ==> r == "Script killed by " + signal.value + "."
    ensures signal.None? ==> r == "Script exited with code " + StatusText(status) + "."
  {
    if signal == Some("SIGKILL") then KILLED_DETAIL
    else if signal.Some? then "Script killed by " + signal.value + "."
    else "Script exited with code " + StatusText(status) + "."
  }

  /** `[stderr, stdout].filter(Boolean).join('\n').slice(0, 400)` */
  function OutputSnippet(stderr: string, stdout: string): (r: string)
    ensures |r| <= 400
    ensures stderr == "" && stdout == "" ==> r == ""
    ensures stderr == "" ==> r == stdout[..Min(400, |stdout|)]
    ensures stdout == "" ==> r == stderr[..Min(400, |stderr|)]
  {
    var joined :=
      if stderr != "" && stdout != "" then stderr + "\n" + stdout
      else if stderr != "" then stderr
      else stdout;
    joined[..Min(400, |joined|)]
  }

  function Min(a: int, b: int): int { if a < b then a else b }

  /** The characters `.` does not match. */
  predicate IsLineTerminator(c: char) {
    c == '\n' || c == '\r' || c == '\U{2028}' || c == '\U{2029}'
  }

  /** `/NAWALA_APPLY_RESULT=(.+)/` matches at `i`. */
  predicate MatchesAt(s: string, i: int) {
    OccursAt(s, MARKER, i) && i + |MARKER| < |s| && !IsLineTerminator(s[i + |MARKER|])
  }

  /** The leftmost match at or after `i`. */
  function FirstMatch(s: string, i: nat): (r: Option<nat>)
    requires i <= |s|
    ensures r.Some? ==> (i <= r.value < |s| && MatchesAt(s, r.value)
      && forall j :: i <= j < r.value ==> !MatchesAt(s, j))
    ensures r.None? ==> forall j :: i <= j < |s| ==> !MatchesAt(s, j)
    decreases |s| - i
  {
    if i == |s| then None
    else if MatchesAt(s, i) then Some(i)
    else FirstMatch(s, i + 1)
  }

  /** The longest run of non-terminators starting at `j`: the `(.+)` group. */
  function RestOfLine(s: string, j: nat): (r: string)
    requires j <= |s|
    ensures |r| <= |s| - j && r == s[j..j + |r|]
    ensures forall k :: 0 <= k < |r| ==> !IsLineTerminator(r[k])
    ensures j + |r| == |s| || IsLineTerminator(s[j + |r|])
    decreases |s| - j
  {
    if j == |s| || IsLineTerminator(s[j]) then ""
    else [s[j]] + RestOfLine(s, j + 1)
  }

  /** The captured result text, when stdout holds a match. */
  function Captured(stdout: string): (r: Option<string>)
    ensures r.Some? ==> |r.value| >= 1
  {
    var m := FirstMatch(stdout, 0);
    if m.None? then None else Some(RestOfLine(stdout, m.value + |MARKER|))
  }

  /** The outcome of one run. `parseJson` stands for `JSON.parse`: `None` when it throws. */
  function Classify(r: SpawnResult, parseJson: string -> Option<Value>): (out: Result<Counts>)
    ensures r.error.Some? && r.error.value.code == "ETIMEDOUT" ==> out == Err(Error(TIMEOUT_MESSAGE))
    ensures r.error.Some? && r.error.value.code != "ETIMEDOUT" ==>
      out == Err(Error("Nawala script could not run: " + r.error.value.message
                       + ". Check that scripts/nawala-cron.sh exists and is executable."))
    ensures r.error.None? && (r.status != Some(0) || r.signal.Some?) ==>
      var snippet := OutputSnippet(Trim(r.stderr.GetOr("")), r.stdout.GetOr(""));
      var prefix := "Nawala script failed: " + FailureDetail(r.signal, r.status);
      && (snippet == "" ==> out == Err(Error(prefix)))
      && (snippet != "" ==> out == Err(Error(prefix + " Output: " + snippet)))
    ensures r.error.None? && r.status == Some(0) && r.signal.None? && Captured(r.stdout.GetOr("")).None? ==>
      out == Err(Error(NO_RESULT_MESSAGE))
    ensures out.Ok? ==> (r.error.None? && r.status == Some(0) && r.signal.None?
      && Captured(r.stdout.GetOr("")).Some?)
  {
    var stdout := r.stdout.GetOr("");
    var stderr := Trim(r.stderr.GetOr(""));
    if r.error.Some? then
      if r.error.value.code == "ETIMEDOUT" then Err(Error(TIMEOUT_MESSAGE))
      else Err(Error("Nawala script could not run: " + r.error.value.message
                     + ". Check that scripts/nawala-cron.sh exists and is executable."))
    else if r.status != Some(0) || r.signal.Some? then
      var detail := FailureDetail(r.signal, r.status);
      var snippet := OutputSnippet(stderr, stdout);
      var msg := if snippet != "" then detail + " Output: " + snippet else detail;
      assert snippet != "" ==>
        "Nawala script failed: " + msg == "Nawala script failed: " + detail + " Output: " + snippet;
      Err(Error("Nawala script failed: " + msg))
    else
      var captured := Captured(stdout);
      if captured.None? then Err(Error(NO_RESULT_MESSAGE))
      else ReadCounts(parseJson(Trim(captured.value)))
  }

  /** `{ checked: Number(parsed.checked) || 0, updated: ... }`; reading a field of `null`
      throws, which reports the result as invalid JSON like a parse error does. */
  function ReadCounts(parsed: Option<Value>): (out: Result<Counts>)
    ensures parsed.None? || Nullish(parsed.value) <==> out == Err(Error(BAD_JSON_MESSAGE))
    ensures out.Ok? ==> out.value == Counts(NumberOrZero(Get(parsed.value, "checked")),
                                            NumberOrZero(Get(parsed.value, "updated")))
  {
    if parsed.None? || Nullish(parsed.value) then Err(Error(BAD_JSON_MESSAGE))
    else Ok(Counts(NumberOrZero(Get(parsed.value, "checked")), NumberOrZero(Get(parsed.value, "updated"))))
  }

  /** The first marker followed by a non-empty rest of line decides: an earlier marker at
      the end of its line is passed over. */
  lemma CapturedIsFirstCompleteLine(stdout: string)
    ensures var c := Captured(stdout);
      c.None? <==> forall j :: 0 <= j < |stdout| ==> !MatchesAt(stdout, j)
  {
  }
}
