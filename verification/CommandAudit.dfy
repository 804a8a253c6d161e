/**
 One write tool called end to end: audit, wake, poll, command and credential retry, over four layers.

 Tesla's replies, the credential provider and the audit store are nondeterministic. A call appends
 every request it sends, every pause, every audit write and every failure to begin or prepare
 something to its trace.
 */
module CommandAudit {
  import opened Wrappers

  /** What a request is for: reading the vehicle's state, waking it first, or the tool's own write. */
  datatype Purpose = Observe | Wake | Post

  datatype Payload = NotAMapping | Vehicle(state: Option<string>) | Verdict(result: bool) | OtherFields

  datatype Body = NotJson | NotADocument | Document(response: Payload)

  datatype Reply = NoReply | Reply(status: int, body: Body)

  datatype Error = Reauthorization | TeslaFailure(category: string) | ToolFailure(category: string) | OtherFailure

  datatype Tool = WakeTool | Command(name: string)

  /** The audit of the tool itself, and that of the automatic wake. */
  datatype Audit = Main | AutoWake

  datatype Conclusion = Success | Rejected | Failure(category: string)

  /** `NotBegun` is a record whose creation was reported as failed, `Failed` a failure before anything
      was sent: of the credential provider, or of the client over the request. */
  datatype Event =
    | Began(audit: Audit)
    | NotBegun(audit: Audit)
    | Failed(error: Error)
    | Completed(audit: Audit, conclusion: Conclusion, stored: bool)
    | Requested(purpose: Purpose, reply: Reply)
    | Slept(seconds: real)

  const KEY_NOT_PAIRED := ToolFailure("virtual_key_not_paired")
  const INDETERMINATE := ToolFailure("command_result_indeterminate")
  const WAKE_POLL_ATTEMPTS: nat := 6
  const WAKE_POLL_INTERVAL := 10.0
  const MAX_RETRIES: nat := 5

  type RetryCount = n: nat | n <= MAX_RETRIES

  function Category(e: Error): string {
    match e
    case Reauthorization => "reauthorization_required"
    case TeslaFailure(category) => category
    case ToolFailure(category) => category
    case OtherFailure => "internal_error"
  }

  // ---------------------------------------------------------------------------------------------
  // Reading replies

  function StatusCategory(status: int): string {
    match status
    case 400 => "invalid_request"
    case 403 => "forbidden"
    case 404 => "not_found"
    case 408 => "vehicle_unavailable"
    case 409 => "conflict"
    case 422 => "invalid_request"
    case 429 => "rate_limited"
    case _ => if status >= 500 then "upstream_unavailable" else "http_error"
  }

  function RaiseForStatus(status: int): Option<Error> {
    if status == 401 then Some(Reauthorization)
    else if 200 <= status < 300 then None
    else Some(TeslaFailure(StatusCategory(status)))
  }

  function SuccessfulJson(reply: Reply): Result<Payload, Error> {
    if reply.NoReply? then Err(TeslaFailure("transport_error"))
    else if RaiseForStatus(reply.status).Some? then Err(RaiseForStatus(reply.status).value)
    else match reply.body
      case NotJson => Err(TeslaFailure("invalid_json"))
      case NotADocument => Err(TeslaFailure("invalid_document"))
      case Document(response) => Ok(response)
  }

  /** A command answers with a verdict, every other request here with a vehicle record. */
  function Parsed(tool: Tool, purpose: Purpose, reply: Reply): Result<Payload, Error> {
    var payload := SuccessfulJson(reply);
    if payload.Err? then payload
    else if purpose == Post && tool.Command? then
      if payload.value.Verdict? then payload else Err(TeslaFailure("invalid_payload"))
    else if payload.value.Vehicle? then payload else Err(TeslaFailure("invalid_payload"))
  }

  predicate SaysOnline(reply: Reply) {
    SuccessfulJson(reply) == Ok(Vehicle(Some("online")))
  }

  predicate Unauthorized(reply: Reply) {
    reply.Reply? && reply.status == 401
  }

  predicate Retryable(reply: Reply) {
    reply.NoReply? || reply.status in {429, 500, 502, 503, 504}
  }

  /** What counts as an answer: a document in a successful reply, a verdict for a command and a vehicle for
      everything else. */
  lemma ParsedExactly(tool: Tool, p: Purpose, reply: Reply, payload: Payload)
    ensures Parsed(tool, p, reply) == Ok(payload) <==>
              && reply.Reply? && 200 <= reply.status < 300 && reply.body == Document(payload)
              && if p == Post && tool.Command? then payload.Verdict? else payload.Vehicle?
    ensures SaysOnline(reply) <==>
              reply.Reply? && 200 <= reply.status < 300 && reply.body == Document(Vehicle(Some("online")))
  {
  }

  /** Which replies are worth another attempt at a read. */
  lemma RetryableExactly(reply: Reply)
    ensures Retryable(reply) <==>
              reply.NoReply? || reply.status == 429 || reply.status == 500 || 502 <= reply.status <= 504
  {
  }

  /** What a reply that is no answer is reported as. */
  lemma ParseErrorsExactly(tool: Tool, p: Purpose, reply: Reply)
    ensures reply.NoReply? ==> Parsed(tool, p, reply) == Err(TeslaFailure("transport_error"))
    ensures reply.Reply? && !(200 <= reply.status < 300) ==>
              Parsed(tool, p, reply)
              == Err(if reply.status == 401 then Reauthorization
                     else TeslaFailure(if reply.status == 400 || reply.status == 422 then "invalid_request"
                                       else if reply.status == 403 then "forbidden"
                                       else if reply.status == 404 then "not_found"
                                       else if reply.status == 408 then "vehicle_unavailable"
                                       else if reply.status == 409 then "conflict"
                                       else if reply.status == 429 then "rate_limited"
                                       else if reply.status >= 500 then "upstream_unavailable"
                                       else "http_error"))
    ensures reply.Reply? && 200 <= reply.status < 300 && Parsed(tool, p, reply).Err? ==>
              Parsed(tool, p, reply).error
              == match reply.body
                 case NotJson => TeslaFailure("invalid_json")
                 case NotADocument => TeslaFailure("invalid_document")
                 case Document(_) => TeslaFailure("invalid_payload")
  {
  }

  // ---------------------------------------------------------------------------------------------
  // What a trace says

  datatype Summary = Summary(begun: set<Audit>, concluded: map<Audit, Conclusion>, lost: bool, online: bool,
                             posts: seq<Reply>, requests: nat, slept: real, last: Option<Event>)

  const NOTHING := Summary({}, map[], false, false, [], 0, 0.0, None)

  function Observed(s: Summary, e: Event): Summary {
    match e
    case Began(a) => s.(begun := s.begun + {a})
    case NotBegun(_) => s.(last := Some(e))
    case Failed(_) => s.(last := Some(e))
    case Completed(a, c, stored) => s.(concluded := s.concluded[a := c], lost := s.lost || !stored)
    case Requested(p, reply) =>
      s.(requests := s.requests + 1,
         online := s.online || (p != Post && SaysOnline(reply)),
         posts := if p == Post then s.posts + [reply] else s.posts,
         last := Some(e))
    case Slept(seconds) => s.(slept := s.slept + seconds)
  }

  function Summarize(t: seq<Event>): Summary {
    if t == [] then NOTHING else Observed(Summarize(t[..|t| - 1]), t[|t| - 1])
  }

  predicate Open(s: Summary, a: Audit) {
    a in s.begun && a !in s.concluded
  }

  predicate Accepted(tool: Tool, s: Summary) {
    s.posts != [] && Parsed(tool, Post, s.posts[|s.posts| - 1]).Ok?
    && Parsed(tool, Post, s.posts[|s.posts| - 1]).value != Verdict(false)
  }

  predicate Refused(tool: Tool, s: Summary) {
    s.posts != [] && Parsed(tool, Post, s.posts[|s.posts| - 1]) == Ok(Verdict(false))
  }

  /** The error that an event gives a call to report. */
  function Reason(tool: Tool, e: Event): Option<Error> {
    match e
    case NotBegun(_) => Some(ToolFailure("audit_unavailable"))
    case Failed(error) => Some(error)
    case Requested(p, reply) => if Parsed(tool, p, reply).Err? then Some(Parsed(tool, p, reply).error) else None
    case _ => None
  }

  /** The last reply or failure is what went wrong. */
  ghost predicate Caused(tool: Tool, s: Summary, e: Error) {
    s.last.Some? && Reason(tool, s.last.value) == Some(e)
  }

  /** Something did go wrong: the last reply or failure, an audit that could not be completed, or a
      vehicle still not online after a minute of waiting. */
  ghost predicate ForCause(tool: Tool, s: Summary, e: Error) {
    || Caused(tool, s, e)
    || (s.lost && e == INDETERMINATE)
    || (s.slept == 60.0 && !s.online && s.posts == [] && e == ToolFailure("vehicle_unavailable"))
  }

  predicate Beginnable(tool: Tool, s: Summary, a: Audit) {
    a !in s.begun && (a == AutoWake ==> tool.Command? && Open(s, Main) && s.posts == [] && !s.online)
  }

  /** The event may follow a trace with this summary. */
  predicate Allowed(tool: Tool, s: Summary, e: Event) {
    match e
    case Began(a) => Beginnable(tool, s, a)
    case NotBegun(a) => Beginnable(tool, s, a)
    case Failed(_) => Open(s, Main) || Open(s, AutoWake)
    case Completed(a, c, _) =>
      && Open(s, a)
      && (a == Main ==>
            !Open(s, AutoWake) && (c == Success <==> Accepted(tool, s)) && (c == Rejected <==> Refused(tool, s)))
    case Requested(Observe, _) => tool.Command? && Open(s, Main)
    case Requested(Wake, _) => tool.Command? && Open(s, AutoWake) && !s.online
    case Requested(Post, _) =>
      && Open(s, Main) && !Open(s, AutoWake) && (tool.Command? ==> s.online)
      && |s.posts| <= 1 && (s.posts != [] ==> Unauthorized(s.posts[0]))
    case Slept(_) => tool.Command? && Open(s, Main) && !s.online
  }

  /** Every event is allowed by what came before it. */
  ghost predicate Lawful(tool: Tool, t: seq<Event>) {
    forall i :: 0 <= i < |t| ==> Allowed(tool, Summarize(t[..i]), t[i])
  }

  lemma Appended(tool: Tool, t: seq<Event>, e: Event)
    requires Lawful(tool, t) && Allowed(tool, Summarize(t), e)
    ensures Lawful(tool, t + [e]) && Summarize(t + [e]) == Observed(Summarize(t), e)
  {
    hide Allowed, Observed, Summarize;
    var longer := t + [e];
    forall i | 0 <= i < |longer| ensures Allowed(tool, Summarize(longer[..i]), longer[i]) {
      if i < |t| {
        assert longer[..i] == t[..i];
      } else {
        assert longer[..i] == t;
      }
    }
    LastOf(t, e);
  }

  lemma LastOf(t: seq<Event>, e: Event)
    ensures Summarize(t + [e]) == Observed(Summarize(t), e)
  {
  }

  lemma NothingSaid()
    ensures Summarize([]) == NOTHING
  {
  }

  /** The summary in terms of the events themselves: its audits. */
  lemma {:induction false} AuditMeaning(t: seq<Event>)
    ensures forall a :: a in Summarize(t).begun <==> Began(a) in t
    ensures forall a :: a in Summarize(t).concluded <==> exists c, b :: Completed(a, c, b) in t
    ensures Summarize(t).lost <==> exists a, c :: Completed(a, c, false) in t
  {
    hide SaysOnline, Summarize;
    if t == [] {
      NothingSaid();
    } else {
      var before, e := t[..|t| - 1], t[|t| - 1];
      assert t == before + [e];
      AuditMeaning(before);
      LastOf(before, e);
      assert forall x :: x in t <==> x in before || x == e;
      if e.Completed? {
        assert Completed(e.audit, e.conclusion, e.stored) in t;
      }
    }
  }

  predicate ShowsOnline(e: Event) {
    e.Requested? && e.purpose != Post && SaysOnline(e.reply)
  }

  /** And its requests. */
  lemma {:induction false} RequestMeaning(t: seq<Event>)
    ensures Summarize(t).online <==> exists e :: e in t && ShowsOnline(e)
    ensures forall reply :: reply in Summarize(t).posts <==> Requested(Post, reply) in t
  {
    hide SaysOnline, Summarize;
    if t == [] {
      NothingSaid();
    } else {
      var before, e := t[..|t| - 1], t[|t| - 1];
      assert t == before + [e];
      RequestMeaning(before);
      LastOf(before, e);
      assert forall x :: x in t <==> x in before || x == e;
      if Summarize(before).online {
        var seen :| seen in before && ShowsOnline(seen);
        assert seen in t;
      } else if ShowsOnline(e) {
        assert e in t;
      }
    }
  }

  /** The newest event of a kind in the trace is this one. */
  ghost predicate Newest(t: seq<Event>, e: Event, kind: Event -> bool) {
    exists i :: 0 <= i < |t| && t[i] == e && kind(e) && forall j :: i < j < |t| ==> !kind(t[j])
  }

  lemma NewestOn(before: seq<Event>, e: Event, x: Event, kind: Event -> bool)
    ensures kind(e) ==> Newest(before + [e], e, kind)
    ensures !kind(e) && Newest(before, x, kind) ==> Newest(before + [e], x, kind)
  {
    var t := before + [e];
    assert t[|before|] == e;
    if !kind(e) && Newest(before, x, kind) {
      var i :| 0 <= i < |before| && before[i] == x && kind(x) && forall j :: i < j < |before| ==> !kind(before[j]);
      assert t[i] == x && forall j :: i < j < |t| ==> t[j] == if j < |before| then before[j] else e;
    }
  }

  predicate IsPost(e: Event) {
    e.Requested? && e.purpose == Post
  }

  /** A reply, or a failure to begin or prepare something. */
  predicate Speaks(e: Event) {
    e.Requested? || e.Failed? || e.NotBegun?
  }

  function Completes(a: Audit): Event -> bool {
    (e: Event) => e.Completed? && e.audit == a
  }

  /** The newest events the summary keeps: the last write, and the last reply or failure. */
  lemma {:induction false} NewestMeaning(t: seq<Event>)
    ensures var s := Summarize(t);
            && (s.posts != [] ==> Newest(t, Requested(Post, s.posts[|s.posts| - 1]), IsPost))
            && (s.last.Some? ==> Newest(t, s.last.value, Speaks))
  {
    hide SaysOnline, Summarize, Newest;
    if t == [] {
      NothingSaid();
    } else {
      var before, e := t[..|t| - 1], t[|t| - 1];
      assert t == before + [e];
      NewestMeaning(before);
      LastOf(before, e);
      var s := Summarize(before);
      if s.posts != [] {
        NewestOn(before, e, Requested(Post, s.posts[|s.posts| - 1]), IsPost);
      } else {
        NewestOn(before, e, e, IsPost);
      }
      NewestOn(before, e, if s.last.Some? then s.last.value else e, Speaks);
    }
  }

  /** And the last completion of each audit. */
  lemma {:induction false} CompletionMeaning(t: seq<Event>, a: Audit)
    ensures var s := Summarize(t);
            a in s.concluded ==> exists stored :: Newest(t, Completed(a, s.concluded[a], stored), Completes(a))
  {
    hide SaysOnline, Summarize, Newest;
    if t == [] {
      NothingSaid();
    } else {
      var before, e := t[..|t| - 1], t[|t| - 1];
      assert t == before + [e];
      CompletionMeaning(before, a);
      LastOf(before, e);
      var s := Summarize(before);
      if a in s.concluded && !Completes(a)(e) {
        var stored :| Newest(before, Completed(a, s.concluded[a], stored), Completes(a));
        NewestOn(before, e, Completed(a, s.concluded[a], stored), Completes(a));
      } else {
        NewestOn(before, e, e, Completes(a));
      }
    }
  }

  /** How often and how long: requests and pauses added up from the front. */
  function RequestsIn(t: seq<Event>): nat {
    if t == [] then 0 else (if t[0].Requested? then 1 else 0) + RequestsIn(t[1..])
  }

  function PausesIn(t: seq<Event>): real {
    if t == [] then 0.0 else (if t[0].Slept? then t[0].seconds else 0.0) + PausesIn(t[1..])
  }

  lemma {:induction false} CountsOn(t: seq<Event>, e: Event)
    ensures RequestsIn(t + [e]) == RequestsIn(t) + if e.Requested? then 1 else 0
    ensures PausesIn(t + [e]) == PausesIn(t) + if e.Slept? then e.seconds else 0.0
  {
    if t != [] {
      assert (t + [e])[1..] == t[1..] + [e];
      CountsOn(t[1..], e);
    }
  }

  lemma {:induction false} CountsMeaning(t: seq<Event>)
    ensures Summarize(t).requests == RequestsIn(t) && Summarize(t).slept == PausesIn(t)
  {
    hide SaysOnline, Summarize;
    if t == [] {
      NothingSaid();
    } else {
      var before, e := t[..|t| - 1], t[|t| - 1];
      assert t == before + [e];
      CountsMeaning(before);
      LastOf(before, e);
      CountsOn(before, e);
    }
  }

  lemma {:induction false} PostsGrow(t: seq<Event>, i: nat, j: nat)
    requires i <= j <= |t|
    ensures |Summarize(t[..i]).posts| <= |Summarize(t[..j]).posts|
  {
    if i < j {
      PostsGrow(t, i, j - 1);
      assert t[..j] == t[..j - 1] + [t[j - 1]];
      LastOf(t[..j - 1], t[j - 1]);
    }
  }

  lemma AllowedAt(tool: Tool, t: seq<Event>, j: nat)
    requires Lawful(tool, t) && j < |t|
    ensures Allowed(tool, Summarize(t[..j]), t[j])
  {
  }

  /** In a lawful trace a write is sent only after its audit was begun and, for a command, after the
      vehicle was seen online; and it is repeated only after a 401. */
  lemma WritesAreGuarded(tool: Tool, t: seq<Event>, j: nat)
    requires Lawful(tool, t) && j < |t| && t[j].Requested? && t[j].purpose == Post
    ensures Began(Main) in t[..j]
    ensures tool.Command? ==> exists e :: e in t[..j] && ShowsOnline(e)
    ensures forall reply :: Requested(Post, reply) in t[..j] ==> Unauthorized(reply)
  {
    hide ShowsOnline, Summarize, Unauthorized, Lawful, Accepted, Refused, SaysOnline;
    var before := t[..j];
    AllowedAt(tool, t, j);
    AuditMeaning(before);
    RequestMeaning(before);
    forall reply | Requested(Post, reply) in before ensures Unauthorized(reply) {
      assert reply in Summarize(before).posts;
    }
  }

  /** In a lawful trace a write is never sent a third time. */
  lemma WritesAreNotTripled(tool: Tool, t: seq<Event>, h: nat, i: nat, j: nat)
    requires Lawful(tool, t) && h < i < j < |t| && t[h].Requested? && t[i].Requested?
    requires t[h].purpose == Post == t[i].purpose
    ensures !(t[j].Requested? && t[j].purpose == Post)
  {
    hide Summarize, Lawful;
    TwoPosts(t, h, i, j);
    AllowedAt(tool, t, j);
  }

  lemma TwoPosts(t: seq<Event>, h: nat, i: nat, j: nat)
    requires h < i < j <= |t| && t[h].Requested? && t[i].Requested? && t[h].purpose == Post == t[i].purpose
    ensures |Summarize(t[..j]).posts| >= 2
  {
    hide Summarize;
    assert t[..h + 1] == t[..h] + [t[h]] && t[..i + 1] == t[..i] + [t[i]];
    LastOf(t[..h], t[h]);
    LastOf(t[..i], t[i]);
    PostsGrow(t, h + 1, i);
    PostsGrow(t, i + 1, j);
  }

  /** In a lawful trace a completion attempt follows the begun record it completes and is the only one
      for it, and an automatic wake is audited before it is sent. */
  lemma AuditsArePaired(tool: Tool, t: seq<Event>, j: nat)
    requires Lawful(tool, t) && j < |t|
    ensures t[j].Completed? ==> Began(t[j].audit) in t[..j] && forall c, b :: Completed(t[j].audit, c, b) !in t[..j]
    ensures t[j].Began? ==> t[j] !in t[..j]
    ensures t[j].Requested? && t[j].purpose == Wake ==> Began(AutoWake) in t[..j]
  {
    hide SaysOnline, Summarize, Unauthorized, Accepted, Refused, Lawful;
    AuditMeaning(t[..j]);
    AllowedAt(tool, t, j);
  }

  /** In a lawful trace the vehicle is woken and waited for only while it has not been seen online. */
  lemma WakesAreNeeded(tool: Tool, t: seq<Event>, j: nat, e: Event)
    requires Lawful(tool, t) && j < |t|
    requires ((t[j].Requested? && t[j].purpose == Wake) || t[j] == Began(AutoWake) || t[j].Slept?)
    requires e in t[..j]
    ensures tool.Command? && !ShowsOnline(e)
  {
    hide ShowsOnline, Summarize, Lawful, SaysOnline;
    RequestMeaning(t[..j]);
    AllowedAt(tool, t, j);
  }

  /** In a lawful trace an audit says success only if Tesla accepted the write it audits, and rejected
      only if Tesla answered with a negative verdict. */
  lemma VerdictsAreTeslas(tool: Tool, t: seq<Event>, j: nat)
    requires Lawful(tool, t) && j < |t| && t[j].Completed? && t[j].audit == Main
    ensures t[j].conclusion == Success ==>
              exists reply :: Requested(Post, reply) in t[..j] && Parsed(tool, Post, reply).Ok?
                && Parsed(tool, Post, reply).value != Verdict(false)
    ensures t[j].conclusion == Rejected ==>
              exists reply :: Requested(Post, reply) in t[..j] && Parsed(tool, Post, reply) == Ok(Verdict(false))
  {
    hide SaysOnline, Summarize, Unauthorized, Parsed, Lawful;
    var s := Summarize(t[..j]);
    RequestMeaning(t[..j]);
    AllowedAt(tool, t, j);
    if s.posts != [] {
      assert s.posts[|s.posts| - 1] in s.posts;
    }
  }

  // ---------------------------------------------------------------------------------------------
  // The call

  /** The pause before retry number `attempt`, and all pauses before it together. */
  function BackOff(attempt: nat): real {
    if attempt == 0 then 0.25 else 2.0 * BackOff(attempt - 1)
  }

  function BackedOff(attempts: nat): real {
    if attempts == 0 then 0.0 else BackedOff(attempts - 1) + BackOff(attempts - 1)
  }

  /** The pauses double from a quarter of a second, so together they are one quarter short of the next. */
  lemma {:induction false} PausesDouble(attempts: nat)
    ensures BackOff(0) == 0.25 && BackOff(attempts + 1) == 2.0 * BackOff(attempts)
    ensures BackedOff(attempts) == BackOff(attempts) - 0.25
  {
    if attempts > 0 {
      PausesDouble(attempts - 1);
    }
  }

  datatype Access = Access(knownRegion: bool)

  /** The summary after these replies, in order, to requests of one purpose. */
  function Answered(s: Summary, p: Purpose, replies: seq<Reply>): Summary {
    s.(requests := s.requests + |replies|,
       online := s.online || (p != Post && exists reply :: reply in replies && SaysOnline(reply)),
       posts := if p == Post then s.posts + replies else s.posts)
  }

  lemma AnsweredOneMore(s: Summary, p: Purpose, replies: seq<Reply>, reply: Reply)
    ensures Observed(Answered(s, p, replies), Requested(p, reply))
            == Answered(s, p, replies + [reply]).(last := Some(Requested(p, reply)))
    ensures Answered(s, p, []) == s
  {
  }

  /** Only these replies, and what went wrong last, separate the two summaries. */
  ghost predicate Exchanged(before: Summary, after: Summary, p: Purpose, replies: seq<Reply>) {
    after == Answered(before, p, replies).(last := after.last)
  }

  /** A result is read from the last reply, and only a 401 is followed by a second request. */
  ghost predicate Outcome(tool: Tool, p: Purpose, replies: seq<Reply>, r: Result<Payload, Error>) {
    && |replies| <= 2 && (|replies| == 2 ==> Unauthorized(replies[0]))
    && (r.Ok? ==> replies != [] && Parsed(tool, p, replies[|replies| - 1]) == r)
    && (r.Err? ==> !r.error.ToolFailure? && (replies != [] ==> Parsed(tool, p, replies[|replies| - 1]).Err?))
  }

  lemma LookMeaning(tool: Tool, p: Purpose, before: Summary, after: Summary, replies: seq<Reply>, r: Result<Payload,
                    Error>)
    requires p != Post && Outcome(tool, p, replies, r) && Exchanged(before, after, p, replies)
    ensures Looked(before, after, 2)
    ensures if r.Ok? then r.value.Vehicle? else !r.error.ToolFailure?
    ensures r.Ok? ==> (after.online <==> before.online || r == Ok(Vehicle(Some("online"))))
  {
    hide SuccessfulJson, Unauthorized;
    if |replies| == 2 {
      ParsedErrors(tool, p, replies[0]);
    }
    if r.Ok? {
      assert replies[|replies| - 1] in replies && SuccessfulJson(replies[|replies| - 1]) == r;
    }
  }

  lemma PostMeaning(tool: Tool, before: Summary, after: Summary, replies: seq<Reply>, r: Result<Payload, Error>)
    requires Outcome(tool, Post, replies, r) && before.posts == [] && Exchanged(before, after, Post, replies)
    ensures after == before.(requests := after.requests, posts := after.posts, last := after.last)
            && after.requests <= before.requests + 2
            && (r.Ok? && r.value != Verdict(false) <==> Accepted(tool, after))
            && (r == Ok(Verdict(false)) <==> Refused(tool, after))
    ensures r.Err? ==> !r.error.ToolFailure?
  {
  }

  /** Only reads of the vehicle's state separate the two summaries. */
  ghost predicate Looked(before: Summary, after: Summary, requests: nat) {
    && after == before.(requests := after.requests, online := after.online, last := after.last)
    && before.requests <= after.requests <= before.requests + requests && (before.online ==> after.online)
  }

  class Call {
    const tool: Tool
    const maxReadRetries: RetryCount
    var trace: seq<Event>

    constructor (tool: Tool, maxReadRetries: RetryCount)
      ensures this.tool == tool && this.maxReadRetries == maxReadRetries && trace == []
    {
      this.tool, this.maxReadRetries, trace := tool, maxReadRetries, [];
    }

    ghost function State(): Summary
      reads this
    {
      Summarize(trace)
    }

    method Record(e: Event)
      requires Lawful(tool, trace) && Allowed(tool, State(), e)
      modifies this`trace
      ensures trace == old(trace) + [e] && Lawful(tool, trace) && State() == Observed(old(State()), e)
    {
      hide Allowed, Observed, Summarize, Lawful;
      Appended(tool, trace, e);
      trace := trace + [e];
    }

    method Fail(error: Error)
      requires Lawful(tool, trace) && (Open(State(), Main) || Open(State(), AutoWake))
      modifies this`trace
      ensures Lawful(tool, trace) && State() == old(State()).(last := Some(Failed(error)))
      ensures Caused(tool, State(), error)
    {
      hide Summarize, Lawful;
      Record(Failed(error));
    }

    /** One user's credential, refreshed at Tesla if forced or about to expire. */
    method AccessForUser(forceRefresh: bool) returns (r: Result<Access, Error>)
      requires Lawful(tool, trace) && (Open(State(), Main) || Open(State(), AutoWake))
      modifies this`trace
      ensures Lawful(tool, trace)
      ensures r.Ok? ==> trace == old(trace)
      ensures r.Err? ==> State() == old(State()).(last := Some(Failed(r.error))) && !r.error.ToolFailure?
    {
      hide Summarize, Lawful;
      var knownRegion, category := *, *;
      if * {
        return Ok(Access(knownRegion));
      } else if * {
        r := Err(Reauthorization);
      } else if * {
        r := Err(OtherFailure);
      } else {
        r := Err(TeslaFailure(category));
      }
      Fail(r.error);
    }

    /** The retry loop. Without retries exactly one request is sent. */
    method Request(p: Purpose, access: Access, retrySafe: bool) returns (reply: Reply)
      requires Lawful(tool, trace) && Allowed(tool, State(), Requested(p, NoReply))
      requires (retrySafe ==> p == Observe && !State().online)
      modifies this`trace
      ensures Lawful(tool, trace)
      ensures !retrySafe ==> State() == Observed(old(State()), Requested(p, reply))
      ensures exists k: nat :: k <= (if retrySafe then maxReadRetries else 0)
                && (k < maxReadRetries && retrySafe ==> reply.Reply? && reply.status !in {429, 500, 502, 503, 504})
                && State() == old(State()).(requests := old(State()).requests + k + 1,
                                            slept := old(State()).slept + BackedOff(k),
                                            online := State().online, posts := State().posts, last := State().last)
      ensures State().last == Some(Requested(p, reply))
      ensures old(trace) < trace && trace[|trace| - 1] == Requested(p, reply)
      ensures forall i :: |old(trace)| <= i < |trace| - 1 ==>
                trace[i].Slept? || (trace[i].Requested? && trace[i].purpose == p && Retryable(trace[i].reply))
      ensures p != Post ==> State().posts == old(State()).posts
    {
      hide Summarize, SuccessfulJson, Lawful;
      ghost var s := State();
      var attempt := 0;
      while true
        invariant attempt <= maxReadRetries && (attempt > 0 ==> retrySafe) && Lawful(tool, trace)
        invariant State() == s.(requests := s.requests + attempt, slept := s.slept + BackedOff(attempt),
                                online := State().online, last := State().last)
        invariant attempt == 0 ==> State() == s
        invariant old(trace) <= trace && forall i :: |old(trace)| <= i < |trace| ==>
                    trace[i].Slept? || (trace[i].Requested? && trace[i].purpose == p && Retryable(trace[i].reply))
        invariant retrySafe ==> !State().online
        decreases maxReadRetries - attempt
      {
        reply := *;
        Record(Requested(p, reply));
        ParsedErrors(tool, p, reply);
        if retrySafe && Retryable(reply) && attempt < maxReadRetries {
          Record(Slept(BackOff(attempt)));
          attempt := attempt + 1;
        } else {
          return;
        }
      }
    }

    /** One typed client call. The region is checked before anything is sent. */
    method Operation(p: Purpose, access: Access) returns (r: Result<Payload, Error>, ghost replies: seq<Reply>)
      requires Lawful(tool, trace) && Allowed(tool, State(), Requested(p, NoReply))
      modifies this`trace
      ensures Lawful(tool, trace)
      ensures Exchanged(old(State()), State(), p, replies) && Outcome(tool, p, replies, r)
      ensures r.Err? ==> Caused(tool, State(), r.error)
      ensures if !access.knownRegion then replies == [] && r == Err(TeslaFailure("invalid_region"))
              else replies == [] ==> r == Err(OtherFailure)
      ensures replies == [] ==> r.Err? && State().last == Some(Failed(r.error))
      ensures |replies| == 1 ==> r == Parsed(tool, p, replies[0])
      ensures |replies| <= 1 && (r == Err(Reauthorization) ==> |replies| == 1 && Unauthorized(replies[0]))
    {
      assert Open(State(), Main) || Open(State(), AutoWake);
      hide Allowed, Summarize, Lawful, SuccessfulJson, Observed, Answered, Parsed, Unauthorized;
      replies := [];
      AnsweredOneMore(State(), p, [], NoReply);
      if !access.knownRegion {
        Fail(TeslaFailure("invalid_region"));
        return Err(TeslaFailure("invalid_region")), replies;
      }
      if * {
        Fail(OtherFailure);
        return Err(OtherFailure), replies;
      }
      var reply := Request(p, access, false);
      r := Parsed(tool, p, reply);
      ParsedErrors(tool, p, reply);
      AnsweredOneMore(old(State()), p, [], reply);
      replies := [reply];
      assert [] + [reply] == replies;
    }

    /** One operation with the user's credential, once more with a fresh one after a 401. */
    method Execute(p: Purpose) returns (r: Result<Payload, Error>, ghost replies: seq<Reply>)
      requires Lawful(tool, trace) && Allowed(tool, State(), Requested(p, NoReply))
      requires (p == Post ==> State().posts == [])
      modifies this`trace
      ensures Lawful(tool, trace)
      ensures Exchanged(old(State()), State(), p, replies) && Outcome(tool, p, replies, r)
      ensures r.Err? ==> Caused(tool, State(), r.error)
      ensures replies == [] || (|replies| == 1 && Unauthorized(replies[0])) ==>
                r.Err? && State().last == Some(Failed(r.error))
    {
      hide Summarize, Lawful, SuccessfulJson, Parsed, SaysOnline, Allowed, Answered, Outcome, Exchanged, Unauthorized,
           Caused;
      replies := [];
      MayFail(tool, State(), p);
      var context := AccessForUser(false);
      if context.Err? {
        NothingAnswered(tool, old(State()), State(), p, context.error);
        return Err(context.error), replies;
      }
      r, replies := Operation(p, context.value);
      if replies != [] {
        ParsedErrors(tool, p, replies[0]);
      }
      if r == Err(Reauthorization) {
        ghost var first, once := replies[0], State();
        assert replies == [first];
        MayRetry(tool, old(State()), once, p, first);
        var refreshed := AccessForUser(true);
        if refreshed.Err? {
          NotRetried(tool, old(State()), once, State(), p, first, refreshed.error);
          return Err(refreshed.error), replies;
        }
        ghost var more;
        r, more := Operation(p, refreshed.value);
        Retried(tool, old(State()), once, State(), p, first, more, r);
        replies := replies + more;
      }
    }

    /** At most two requests, and a vehicle that reads as online was seen online. */
    method LiveVehicle() returns (r: Result<Option<string>, Error>)
      requires Lawful(tool, trace) && Allowed(tool, State(), Requested(Observe, NoReply))
      modifies this`trace
      ensures Lawful(tool, trace) && (r.Err? ==> !r.error.ToolFailure? && Caused(tool, State(), r.error))
      ensures Looked(old(State()), State(), 2)
      ensures (r.Ok? ==> (State().online <==> old(State()).online || r == Ok(Some("online"))))
    {
      hide Allowed, Lawful, Summarize, Answered;
      var payload, replies := Execute(Observe);
      LookMeaning(tool, Observe, old(State()), State(), replies, payload);
      r := if payload.Ok? then Ok(payload.value.state) else Err(payload.error);
    }

    method BeginAudit(a: Audit) returns (begun: bool)
      requires Lawful(tool, trace) && Allowed(tool, State(), Began(a))
      modifies this`trace
      ensures Lawful(tool, trace)
      ensures trace == old(trace) + [if begun then Began(a) else NotBegun(a)]
      ensures State() == Observed(old(State()), if begun then Began(a) else NotBegun(a))
    {
      begun := *;
      Record(if begun then Began(a) else NotBegun(a));
    }

    method FinalizeAudit(a: Audit, c: Conclusion) returns (error: Option<Error>)
      requires Lawful(tool, trace) && Allowed(tool, State(), Completed(a, c, true))
      modifies this`trace
      ensures Lawful(tool, trace) && error in {None, Some(INDETERMINATE)}
      ensures State() == Observed(old(State()), Completed(a, c, error == None))
    {
      var stored := *;
      Record(Completed(a, c, stored));
      error := if stored then None else Some(INDETERMINATE);
    }

    /** Wakes an offline vehicle before a command. Success means the vehicle was seen online. */
    method EnsureVehicleOnline() returns (r: Result<bool, Error>)
      requires tool.Command? && Lawful(tool, trace) && State() == NOTHING.(begun := {Main})
      modifies this`trace
      ensures Lawful(tool, trace)
      ensures Prepared(State(), 16, 60.0)
      ensures r.Ok? ==> State().online
      ensures State().lost <==> r == Err(INDETERMINATE)
      ensures r.Err? ==> ForCause(tool, State(), r.error)
    {
      hide Summarize, Lawful;
      var live := LiveVehicle();
      if live.Err? {
        return Err(live.error);
      }
      if live.value == Some("online") {
        return Ok(false);
      }
      var begun := BeginAudit(AutoWake);
      if !begun {
        return Err(ToolFailure("audit_unavailable"));
      }
      r := WakeAndPoll();
    }

    method WakeAndPoll() returns (r: Result<bool, Error>)
      requires tool.Command? && Lawful(tool, trace) && Woken(State(), {}, 2) && !State().online
      modifies this`trace
      ensures Lawful(tool, trace) && Prepared(State(), 16, 60.0)
      ensures r.Ok? ==> State().online
      ensures State().lost <==> r == Err(INDETERMINATE)
      ensures r.Err? ==> ForCause(tool, State(), r.error)
    {
      hide Summarize, Lawful, Answered, Outcome;
      var wake, replies := Execute(Wake);
      LookMeaning(tool, Wake, old(State()), State(), replies, wake);
      var unfinished := FinalizeAudit(AutoWake, if wake.Ok? then Success else Failure(Category(wake.error)));
      if unfinished.Some? {
        return Err(unfinished.value);
      }
      if wake.Err? {
        return Err(wake.error);
      }
      if wake.value.state == Some("online") {
        return Ok(true);
      }
      r := Poll();
    }

    method Poll() returns (r: Result<bool, Error>)
      requires tool.Command? && Lawful(tool, trace) && Woken(State(), {AutoWake}, 4) && !State().lost && !State().online
      modifies this`trace
      ensures Lawful(tool, trace) && Prepared(State(), 16, 60.0) && !State().lost
      ensures r.Ok? ==> State().online
      ensures r != Err(INDETERMINATE)
      ensures r.Err? ==> ForCause(tool, State(), r.error)
    {
      hide Summarize, Lawful;
      for attempt := 0 to WAKE_POLL_ATTEMPTS
        invariant Lawful(tool, trace) && !State().lost
        invariant Woken(State().(slept := 0.0), {AutoWake}, 4 + 2 * attempt) && !State().online
        invariant State().slept == WAKE_POLL_INTERVAL * attempt as real
      {
        Record(Slept(WAKE_POLL_INTERVAL));
        var live := LiveVehicle();
        if live.Err? {
          return Err(live.error);
        }
        if live.value == Some("online") {
          return Ok(true);
        }
      }
      r := Err(ToolFailure("vehicle_unavailable"));
    }

    /** A command to a vehicle that takes signed commands only, whose key is not paired. */
    predicate NeedsKey(protocolRequired: Option<bool>, virtualKey: string) {
      tool.Command? && protocolRequired == Some(true) && virtualKey != "paired"
    }

    /** What is tried between beginning and completing the tool's own audit. */
    method Attempt(protocolRequired: Option<bool>, virtualKey: string) returns (r: Result<Payload, Error>)
      requires Lawful(tool, trace) && State() == NOTHING.(begun := {Main})
      modifies this`trace
      ensures Lawful(tool, trace)
      ensures OnlyMainOpen(State())
      ensures State().requests <= (if tool.Command? then 18 else 2)
      ensures State().slept <= (if tool.Command? then 60.0 else 0.0)
      ensures State().lost <==> r == Err(INDETERMINATE)
      ensures r.Err? && !NeedsKey(protocolRequired, virtualKey) ==> ForCause(tool, State(), r.error)
      ensures r.Ok? && r.value != Verdict(false) <==> Accepted(tool, State())
      ensures r == Ok(Verdict(false)) <==> Refused(tool, State())
      ensures NeedsKey(protocolRequired, virtualKey) ==> State() == old(State()) && r == Err(KEY_NOT_PAIRED)
    {
      hide Summarize, Lawful, Answered, Outcome, Parsed;
      if tool.Command? && protocolRequired == Some(true) && virtualKey != "paired" {
        return Err(KEY_NOT_PAIRED);
      }
      if tool.Command? {
        var online := EnsureVehicleOnline();
        if online.Err? {
          return Err(online.error);
        }
      }
      ghost var before := State();
      ghost var replies;
      r, replies := Execute(Post);
      PostMeaning(tool, before, State(), replies, r);
    }

    /** The whole call of a write tool. Of every audit begun, exactly one completion is attempted; the
        call reports an indeterminate result exactly if one of those attempts failed, and succeeds
        exactly if Tesla answered and the answer was recorded. */
    method ExecuteAudited(protocolRequired: Option<bool>, virtualKey: string) returns (r: Result<Payload, Error>)
      requires trace == []
      modifies this`trace
      ensures Lawful(tool, trace)
      ensures State().begun == State().concluded.Keys
      ensures State().requests <= (if tool.Command? then 18 else 2)
      ensures State().slept <= (if tool.Command? then 60.0 else 0.0)
      ensures State().lost <==> r == Err(INDETERMINATE)
      ensures r.Err? && !NeedsKey(protocolRequired, virtualKey) ==> ForCause(tool, State(), r.error)
      ensures r.Ok? ==>
                && Main in State().begun
                && State().concluded[Main] == (if r.value == Verdict(false) then Rejected else Success)
      ensures r.Err? && Main in State().begun && !State().lost ==>
                State().concluded[Main]
                == Failure(if r.error.Reauthorization? then "reauthorization_required"
                           else if r.error.OtherFailure? then "internal_error"
                           else r.error.category)
      ensures State().begun == {} ==> trace == [NotBegun(Main)] && r == Err(ToolFailure("audit_unavailable"))
      ensures NeedsKey(protocolRequired, virtualKey) ==> State().requests == 0 && r.Err?
    {
      hide Lawful, Summarize, Allowed, Observed, Accepted, Refused, ForCause, Category, OnlyMainOpen;
      EmptyIsLawful(tool);
      MayBegin(tool);
      var begun := BeginAudit(Main);
      if !begun {
        NotBegunIsCause(tool, NOTHING, Main);
        return Err(ToolFailure("audit_unavailable"));
      }
      r := Attempt(protocolRequired, virtualKey);
      ghost var attempted := State();
      var conclusion := Concluding(r);
      MayConclude(tool, attempted, r, conclusion);
      var unfinished := FinalizeAudit(Main, conclusion);
      FinalForCause(tool, attempted, conclusion, unfinished == None, r);
      if unfinished.Some? {
        r := Err(unfinished.value);
      } else if r.Err? {
        CategoryExactly(r.error);
      }
    }
  }

  lemma CategoryExactly(e: Error)
    ensures Category(e) == if e.Reauthorization? then "reauthorization_required"
                           else if e.OtherFailure? then "internal_error" else e.category
  {
  }

  lemma MayBegin(tool: Tool)
    ensures Observed(NOTHING, Began(Main)) == NOTHING.(begun := {Main})
    ensures Allowed(tool, NOTHING, Began(Main)) && Allowed(tool, NOTHING, NotBegun(Main))
  {
  }

  lemma MayConclude(tool: Tool, s: Summary, r: Result<Payload, Error>, c: Conclusion)
    requires OnlyMainOpen(s)
    requires r.Ok? && r.value != Verdict(false) <==> Accepted(tool, s)
    requires r == Ok(Verdict(false)) <==> Refused(tool, s)
    requires c == Concluding(r)
    ensures Allowed(tool, s, Completed(Main, c, true))
  {
    hide Accepted, Refused;
  }

  /** Completing the audit takes no cause away, and an attempt that fails is one. */
  lemma FinalForCause(tool: Tool, s: Summary, c: Conclusion, stored: bool, r: Result<Payload, Error>)
    requires OnlyMainOpen(s)
    ensures var final := Observed(s, Completed(Main, c, stored));
            && (r.Err? && ForCause(tool, s, r.error) ==> ForCause(tool, final, r.error))
            && (!stored ==> ForCause(tool, final, INDETERMINATE))
            && final == s.(concluded := final.concluded, lost := s.lost || !stored)
            && final.begun == final.concluded.Keys && Main in final.begun && final.concluded[Main] == c
  {
  }

  lemma NotBegunIsCause(tool: Tool, s: Summary, a: Audit)
    ensures Observed(s, NotBegun(a)) == s.(last := Some(NotBegun(a)))
    ensures ForCause(tool, Observed(s, NotBegun(a)), ToolFailure("audit_unavailable"))
  {
  }

  lemma EmptyIsLawful(tool: Tool)
    ensures Lawful(tool, []) && Summarize([]) == NOTHING
  {
    NothingSaid();
  }

  function Concluding(r: Result<Payload, Error>): Conclusion {
    match r
    case Err(error) => Failure(Category(error))
    case Ok(payload) => if payload == Verdict(false) then Rejected else Success
  }

  /** Of the audits begun, all but that of the tool itself are completed. */
  ghost predicate OnlyMainOpen(s: Summary) {
    s.begun == {Main} + s.concluded.Keys && Main !in s.concluded
  }

  /** Before the write: only the automatic wake may have been audited, and if so completely. */
  ghost predicate Prepared(s: Summary, requests: nat, slept: real) {
    && OnlyMainOpen(s)
    && s.posts == [] && s.requests <= requests && s.slept <= slept
  }

  /** During the automatic wake. */
  ghost predicate Woken(s: Summary, concluded: set<Audit>, requests: nat) {
    && s.begun == {Main, AutoWake} && s.concluded.Keys == concluded
    && s.posts == [] && s.requests <= requests && s.slept == 0.0 && (concluded == {} ==> !s.lost)
  }

  lemma MayFail(tool: Tool, s: Summary, p: Purpose)
    requires Allowed(tool, s, Requested(p, NoReply))
    ensures Open(s, Main) || Open(s, AutoWake)
  {
  }

  /** A credential that could not be had is a cause, and leaves the summary without replies. */
  lemma NothingAnswered(tool: Tool, before: Summary, after: Summary, p: Purpose, e: Error)
    requires after == before.(last := Some(Failed(e))) && !e.ToolFailure?
    ensures Exchanged(before, after, p, []) && Outcome(tool, p, [], Err(e)) && Caused(tool, after, e)
  {
  }

  /** After a 401 the same request may be sent once more. */
  lemma MayRetry(tool: Tool, before: Summary, once: Summary, p: Purpose, first: Reply)
    requires Allowed(tool, before, Requested(p, NoReply)) && (p == Post ==> before.posts == [])
    requires Exchanged(before, once, p, [first]) && Unauthorized(first)
    ensures Allowed(tool, once, Requested(p, NoReply)) && (Open(once, Main) || Open(once, AutoWake))
  {
    ParsedErrors(tool, p, first);
  }

  lemma NotRetried(tool: Tool, before: Summary, once: Summary, after: Summary, p: Purpose, first: Reply, e: Error)
    requires Exchanged(before, once, p, [first]) && Unauthorized(first)
    requires after == once.(last := Some(Failed(e))) && !e.ToolFailure?
    ensures Exchanged(before, after, p, [first]) && Outcome(tool, p, [first], Err(e)) && Caused(tool, after, e)
  {
    ParsedErrors(tool, p, first);
  }

  lemma Retried(tool: Tool, before: Summary, once: Summary, after: Summary, p: Purpose, first: Reply, more: seq<Reply>,
                r: Result<Payload, Error>)
    requires Exchanged(before, once, p, [first]) && Unauthorized(first) && Exchanged(once, after, p, more)
    requires |more| <= 1 && Outcome(tool, p, more, r)
    ensures Exchanged(before, after, p, [first] + more) && Outcome(tool, p, [first] + more, r)
  {
    hide Parsed, SaysOnline;
    ParsedErrors(tool, p, first);
  }

  lemma ParsedErrors(tool: Tool, p: Purpose, reply: Reply)
    ensures Parsed(tool, p, reply).Err? ==> !Parsed(tool, p, reply).error.ToolFailure?
    ensures Parsed(tool, p, reply) == Err(Reauthorization) <==> Unauthorized(reply)
    ensures Unauthorized(reply) || Retryable(reply) ==> !SaysOnline(reply)
  {
  }
}
