/** The input gates of `DomainController` (src/domain/domain.controller.ts): the upload
    check of `bulk-mark-used`, the error wrapping of `refresh-nawala`, the secret check
    of `nawala-cron` and the forwarding of `nawala-apply`. Each endpoint is its gate
    followed by the service call, which `Domains` models. */
module DomainController {
  import opened Wrappers
  import opened Text
  import opened DomainModel
  import opened SyncLog
  import opened NawalaMerge
  import opened NawalaScript
  import opened Domains

  const NO_FILE_MESSAGE: string := "No file uploaded. Send a .txt file with domain names (one per line)."
  const NOT_TEXT_MESSAGE: string := "File must be a .txt file."

  /** The uploaded file as the interceptor hands it over; the buffer is read as text. */
  datatype Upload = Upload(buffer: Option<string>, originalname: Option<string>, mimetype: Option<string>)

  /** `(file.originalname || '').toLowerCase().endsWith('.txt')` */
  predicate TxtName(f: Upload) {
    EndsWith(Lower(f.originalname.GetOr("")), ".txt")
  }

  /** `file.mimetype?.includes('text')` */
  predicate TextMime(f: Upload) {
    f.mimetype.Some? && Contains(f.mimetype.value, "text")
  }

  /** The gate of `bulk-mark-used`: no file or no buffer is refused first; then a file
      is refused only when its name does not end in ".txt" and its type does not
      mention "text"; a file passing both is handed on whole. */
  function UploadGate(file: Option<Upload>): (r: Result<string>)
    ensures (file.None? || file.value.buffer.None?) <==> r == Err(BadRequest(NO_FILE_MESSAGE))
    ensures r == Err(BadRequest(NOT_TEXT_MESSAGE)) <==>
      (file.Some? && file.value.buffer.Some? && !TxtName(file.value) && !TextMime(file.value))
    ensures r.Ok? <==> (file.Some? && file.value.buffer.Some? && (TxtName(file.value) || TextMime(file.value)))
    ensures r.Ok? ==> r.value == file.value.buffer.value
  {
    if file.None? || file.value.buffer.None? then Err(BadRequest(NO_FILE_MESSAGE))
    else if !TxtName(file.value) && !TextMime(file.value) then Err(BadRequest(NOT_TEXT_MESSAGE))
    else Ok(file.value.buffer.value)
  }

  const NAWALA_PREFIX: string := "Nawala check failed: "
  const NAWALA_SUFFIX: string :=
    ". The Trust Positif site may be unreachable or blocking requests (e.g. geo-restriction)."

  /** What `refresh-nawala` returns: the service's answer, or, when it threw, a Bad
      Gateway whose message carries the thrown message between a fixed prefix and
      suffix. Every modelled exception is an `Error`, so its message is always read. */
  function RefreshNawalaResponse(outcome: Result<NawalaRefresh>): (r: Result<NawalaRefresh>)
    ensures outcome.Ok? ==> r == outcome
    ensures outcome.Err? ==> (r.Err? && r.error.BadGateway?
      && var m := r.error.message;
      && |m| == |NAWALA_PREFIX| + |outcome.error.Message()| + |NAWALA_SUFFIX|
      && m[..|NAWALA_PREFIX|] == NAWALA_PREFIX
      && m[|NAWALA_PREFIX|..|NAWALA_PREFIX| + |outcome.error.Message()|] == outcome.error.Message()
      && m[|NAWALA_PREFIX| + |outcome.error.Message()|..] == NAWALA_SUFFIX)
  {
    if outcome.Ok? then outcome
    else Err(BadGateway(NAWALA_PREFIX + outcome.error.Message() + NAWALA_SUFFIX))
  }

  /** Two failures with different messages are told apart after the wrapping. */
  lemma WrappingKeepsMessage(a: Failure, b: Failure)
    requires a.Message() != b.Message()
    ensures RefreshNawalaResponse(Err(a)) != RefreshNawalaResponse(Err(b))
  {
  }

  /** The gate of `nawala-cron`: `NAWALA_CRON_SECRET` trimmed must be non-blank and the
      query secret must equal it; otherwise the route answers 404 "Not found". */
  function CronDomainsGate(env: Option<string>, secret: Option<string>, rows: seq<Domain>): (r: Result<seq<string>>)
    ensures r.Ok? <==> env.Some? && Trim(env.value) != "" && secret == Some(Trim(env.value))
    ensures r.Err? ==> r.error == NotFound("Not found")
    ensures r.Ok? ==> r.value == UsedNames(rows)
  {
    var expected := if env.Some? then Trim(env.value) else "";
    if expected == "" then Err(NotFound("Not found"))
    else if secret.None? || secret.value == "" || secret.value != expected then Err(NotFound("Not found"))
    else Ok(UsedNames(rows))
  }

  /** The body of `nawala-apply`. */
  datatype NawalaApplyDto = NawalaApplyDto(secret: string, results: seq<CheckResult>)

  /** `nawala-apply`: the results handed to the service; the secret is not passed on. */
  function ApplyFromCron(rows: seq<Domain>, log: seq<Entry>, dto: NawalaApplyDto, now: int)
    : (r: (Counts, seq<Domain>, seq<Entry>))
    ensures |dto.results| == 0 ==> r == (Counts(0, 0), rows, log)
    ensures |dto.results| > 0 ==> (r.2 == Record(log, NawalaCheck, now)
      && r.1 == MergeAll(rows, ResultsMap(dto.results)) && r.0.checked == CountUsed(rows))
  {
    CronOutcome(rows, log, dto.results, now)
  }

  /** Whatever secret comes with the results, they are applied the same way: nothing
      checks it. */
  lemma ApplyIgnoresSecret(rows: seq<Domain>, log: seq<Entry>, results: seq<CheckResult>, s1: string, s2: string, now: int)
    ensures ApplyFromCron(rows, log, NawalaApplyDto(s1, results), now)
         == ApplyFromCron(rows, log, NawalaApplyDto(s2, results), now)
  {
  }
}
