/** The gate before `complete_task`: what makes a message a result, and what truncation keeps. */
module Results {
  import opened Basics
  import opened Records

  /** A JSON value as `json.loads` delivers it; containers are opaque. */
  datatype Json = JNull | JBool(b: bool) | JInt(i: int) | JReal(r: real) | JString(s: string) | JOther(id: nat)

  /** The fields of a `task_result` payload; an absent field reads as null. */
  datatype Payload = Payload(
    taskId: Json,
    status: Json,
    token: Json,
    duration: Json,
    attempt: Json,
    epoch: Json,
    truncated: Json,
    originalSize: Json,
    result: Json)

  datatype Reject =
    | BadTaskId
    | BadStatus
    | MissingToken
    | BadDuration
    | BadAttempt
    | BadEpoch
    | Unserialisable
    | Overflow

  /** The envelope that is persisted verbatim. */
  datatype ResultBody = ResultBody(
    task: TaskId,
    attempt: nat,
    epoch: nat,
    token: string,
    duration: real,
    result: Json,
    truncated: bool,
    originalSize: Option<nat>,
    size: nat)

  /**
   The library calls the gate relies on, taken as given: text of a value, id parsing, conversion of an integer to a
   floating-point number, rounding, JSON encoding.
   */
  datatype Library = Library(
    text: Json -> string,
    truthy: Json -> bool,
    parseId: string -> Option<TaskId>,
    fitsFloat: int -> bool,
    round: real -> real,
    encodes: Json -> bool,
    encodedSize: ResultBody -> nat)

  const MAX_TOKEN_CHARS := 128

  function OptionalInt(value: Json): Option<nat> {
    if value.JInt? && value.i >= 0 then Some(value.i) else None
  }

  predicate IsCount(value: Json) {
    value.JInt? && value.i >= 0
  }

  predicate IsToken(value: Json) {
    value.JString? && 0 < |value.s| <= MAX_TOKEN_CHARS
  }

  predicate IsDuration(value: Json) {
    (value.JInt? && value.i >= 0) || (value.JReal? && value.r >= 0.0)
  }

  /** A duration that is an integer too large for a floating-point number. */
  predicate Overflows(lib: Library, value: Json) {
    value.JInt? && !lib.fitsFloat(value.i)
  }

  function Number(value: Json): real {
    if value.JInt? then value.i as real else if value.JReal? then value.r else 0.0
  }

  /** The text of a possibly absent field: falsy values read as the empty string. */
  function TextOr(lib: Library, value: Json): string {
    if lib.truthy(value) then lib.text(value) else ""
  }

  /** Everything a submission must get right, in no particular order. */
  predicate WellFormed(lib: Library, p: Payload) {
    && lib.parseId(TextOr(lib, p.taskId)).Some?
    && TextOr(lib, p.status) == "COMPLETED"
    && IsToken(p.token)
    && IsDuration(p.duration) && !Overflows(lib, p.duration)
    && IsCount(p.attempt)
    && IsCount(p.epoch)
    && lib.encodes(p.result)
  }

  /**
   `validate`: the checks in the order they run, then the size cap applied to the finished envelope. `Overflow` is not a
   verdict of the gate but the exception of the conversion itself, and it leaves the gate exactly when every check passed
   and the duration is an integer too large.
   */
  method Validate(lib: Library, p: Payload, maxBytes: nat) returns (r: Result<ResultBody, Reject>)
    ensures r.Ok? <==> WellFormed(lib, p)
    ensures r == Err(Overflow) <==>
      && lib.parseId(TextOr(lib, p.taskId)).Some? && TextOr(lib, p.status) == "COMPLETED" && IsToken(p.token)
      && IsDuration(p.duration) && IsCount(p.attempt) && IsCount(p.epoch) && Overflows(lib, p.duration)
    ensures r == Err(BadTaskId) <==> lib.parseId(TextOr(lib, p.taskId)).None?
    ensures r.Ok? ==>
      && lib.parseId(TextOr(lib, p.taskId)) == Some(r.value.task)
      && p.attempt == JInt(r.value.attempt) && p.epoch == JInt(r.value.epoch) && p.token == JString(r.value.token)
      && r.value.duration == lib.round(Number(p.duration))
      && r.value.size == lib.encodedSize(r.value.(size := 0))
    ensures r.Ok? ==> r.value.result in {p.result, JNull}
    ensures r.Ok? && lib.truthy(p.truncated) ==> r.value.truncated
    ensures r.Ok? && !r.value.truncated ==> r.value.result == p.result && r.value.size <= maxBytes
    ensures r.Ok? && r.value.result != p.result ==>
      && r.value.truncated
      && r.value.originalSize.Some? && r.value.originalSize.value > maxBytes
  {
    var id := lib.parseId(TextOr(lib, p.taskId));
    if id.None? {
      return Err(BadTaskId);
    }
    if TextOr(lib, p.status) != "COMPLETED" {
      return Err(BadStatus);
    }
    if !IsToken(p.token) {
      return Err(MissingToken);
    }
    if !IsDuration(p.duration) {
      return Err(BadDuration);
    }
    if !IsCount(p.attempt) {
      return Err(BadAttempt);
    }
    if !IsCount(p.epoch) {
      return Err(BadEpoch);
    }
    var truncated := lib.truthy(p.truncated);
    if Overflows(lib, p.duration) {
      return Err(Overflow);
    }
    var body := ResultBody(id.value, p.attempt.i, p.epoch.i, p.token.s, lib.round(Number(p.duration)), p.result, truncated,
                           if truncated then OptionalInt(p.originalSize) else None, 0);
    if !lib.encodes(p.result) {
      return Err(Unserialisable);
    }
    var size := lib.encodedSize(body);
    if size > maxBytes {
      body := body.(result := JNull, truncated := true, originalSize := Some(size));
      size := lib.encodedSize(body);
    }
    body := body.(size := size);
    r := Ok(body);
  }

  /** What reaches `complete_task`: the identity of the submission, untouched by truncation. */
  function ToEnvelope(body: ResultBody): Envelope {
    Envelope(body.task, Some(body.attempt), Some(body.token), body.size)
  }

  // ---------- The two ends of the protocol agree ----------

  /** The worker's own envelope, truncated at its side of the cap. `idText` prints a task id. */
  function WorkerPayload(idText: TaskId -> string, task: TaskId, attempt: nat, epoch: nat, token: string, duration: real,
                         result: Json, oversize: Option<nat>): Payload
  {
    Payload(JString(idText(task)), JString("COMPLETED"), JString(token), JReal(duration), JInt(attempt), JInt(epoch),
            JBool(oversize.Some?), if oversize.Some? then JInt(oversize.value) else JNull,
            if oversize.Some? then JNull else result)
  }

  /** The library behaves: strings print as themselves, printed ids parse back, null and every worker result encode. */
  ghost predicate Faithful(lib: Library, idText: TaskId -> string) {
    && (forall s: string :: lib.text(JString(s)) == s)
    && (forall s: string :: lib.truthy(JString(s)) <==> s != "")
    && (forall b: bool :: lib.truthy(JBool(b)) <==> b)
    && (forall t: TaskId :: idText(t) != "" && lib.parseId(idText(t)) == Some(t))
    && lib.encodes(JNull)
  }

  /**
   Round trip: whatever an honest worker builds for an execution passes the gate, and the task, attempt and token it
   was admitted with come out the other side, whether or not either end truncated the body.
   */
  method HonestSubmissionsPass(lib: Library, idText: TaskId -> string, task: TaskId, attempt: nat, epoch: nat, token: string,
                               duration: real, result: Json, oversize: Option<nat>, maxBytes: nat)
    returns (envelope: Envelope)
    requires Faithful(lib, idText) && 0 < |token| <= MAX_TOKEN_CHARS && duration >= 0.0 && lib.encodes(result)
    ensures envelope.task == task && envelope.attempt == Some(attempt) && envelope.token == Some(token)
  {
    var r := Validate(lib, WorkerPayload(idText, task, attempt, epoch, token, duration, result, oversize), maxBytes);
    envelope := ToEnvelope(r.value);
  }

  // ---------- An integer that is too large ----------

  function PowerOfTwo(n: nat): (p: int)
    ensures p >= 1
  {
    if n == 0 then 1 else 2 * PowerOfTwo(n - 1)
  }

  lemma {:induction false} PowersRise(m: nat, n: nat)
    requires m < n
    ensures PowerOfTwo(m) < PowerOfTwo(n)
  {
    if m + 1 < n {
      PowersRise(m, n - 1);
    }
  }

  /** A library whose floating-point numbers end one unit in the last place short of 2^top: 1024 and 970 for double precision. */
  function Precision(top: nat, last: nat): Library {
    Library((j: Json) => if j.JString? then j.s else "", (j: Json) => j.JString? && j.s != "",
            (s: string) => if s == "7" then Some(TaskId(7)) else None, (i: int) => i < PowerOfTwo(top) - PowerOfTwo(last),
            (r: real) => r, (j: Json) => true, (body: ResultBody) => 100)
  }

  /** A submission that is right in every field passes with a duration of zero, and escapes as an overflow with one of 2^top. */
  method HugeDurationOverflows(top: nat, last: nat, huge: bool) returns (r: Result<ResultBody, Reject>)
    requires last < top
    ensures if huge then r == Err(Overflow) else r.Ok? && r.value.task == TaskId(7)
  {
    var duration := JInt(if huge then PowerOfTwo(top) else 0);
    PowersRise(last, top);
    r := Validate(Precision(top, last),
                  Payload(JString("7"), JString("COMPLETED"), JString("token"), duration, JInt(0), JInt(0), JNull, JNull, JNull), 1000);
  }
}
