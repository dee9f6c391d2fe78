/**
 Streaming a chat answer: the gateway's retries, the service's usage record and the
 event frames sent to the client, for every way each provider attempt can go.
 */
module ChatStream {
  import opened Prelude

  datatype Tokens = Tokens(input: nat, output: nat, total: nat)

  datatype Event = Delta(text: string) | Usage(tokens: Tokens) | Done(reason: string)

  /** How an attempt ends after its events, unless a done event ended it before. */
  datatype Ending =
    | StopsWithoutDone
    | RateLimit
    | ProviderTimeout
    | ProviderUnavailable
    | ProviderStreamFault
    | OtherProviderFault
    | IdleTooLong
    | TotalDeadline
    | NotAProviderError

  datatype Attempt = Attempt(events: seq<Event>, ending: Ending)

  datatype StreamError = InvalidModel | InvalidRequest | RateLimited | TimedOut | Unavailable | Internal

  /** _is_retryable_provider_error; an idle timeout is raised as a provider timeout. */
  predicate Retryable(e: Ending) {
    e in {RateLimit, ProviderTimeout, ProviderUnavailable, IdleTooLong}
  }

  /** What the caller sees when an attempt's ending is not retried. */
  function Translate(e: Ending): StreamError {
    match e
    case RateLimit => RateLimited
    case ProviderTimeout => TimedOut
    case IdleTooLong => TimedOut
    case TotalDeadline => TimedOut
    case NotAProviderError => Internal
    case StopsWithoutDone => Unavailable
    case ProviderUnavailable => Unavailable
    case ProviderStreamFault => Unavailable
    case OtherProviderFault => Unavailable
  }

  // ---- The gateway ------------------------------------------------------------------

  /** The events up to and including the first done. */
  function CutAtDone(events: seq<Event>): seq<Event> {
    if events == [] then [] else if events[0].Done? then [events[0]] else [events[0]] + CutAtDone(events[1..])
  }

  predicate HasDone(events: seq<Event>) {
    exists i :: 0 <= i < |events| && events[i].Done?
  }

  datatype Streamed = Streamed(events: seq<Event>, error: Option<StreamError>)

  /** A provider and a clock: what attempt `k` does, and whether the total deadline passes in the wait after it. */
  datatype Script = Script(attempt: nat -> Attempt, deadlineInBackoff: nat -> bool)

  predicate RetriesAfter(s: Script, max: nat, k: nat) {
    s.attempt(k).events == [] && Retryable(s.attempt(k).ending) && k < max
  }

  /** What attempt `k` gives the caller when it is the last one. */
  function Final(s: Script, max: nat, k: nat): Streamed {
    var attempt := s.attempt(k);
    if HasDone(attempt.events) then Streamed(CutAtDone(attempt.events), None)
    else if RetriesAfter(s, max, k) then Streamed([], Some(TimedOut))
    else Streamed(attempt.events, Some(Translate(attempt.ending)))
  }

  /** Attempts `0` to `last` were made: every one before the last emitted nothing, failed retryably and was waited out. */
  ghost predicate LastAttempt(s: Script, max: nat, last: nat) {
    && last <= max
    && (forall k :: 0 <= k < last ==> RetriesAfter(s, max, k) && !s.deadlineInBackoff(k))
    && (RetriesAfter(s, max, last) ==> s.deadlineInBackoff(last))
  }

  lemma {:induction false} CutEnds(events: seq<Event>, n: nat)
    requires n < |events| && events[n].Done? && forall i :: 0 <= i < n ==> !events[i].Done?
    ensures CutAtDone(events) == events[..n + 1]
  {
    if n == 0 {
    } else {
      CutEnds(events[1..], n - 1);
      assert events[..n + 1] == [events[0]] + events[1..][..n];
    }
  }

  /** The inner loop: events are passed on one by one until done or until the attempt ends. */
  method Relay(attempt: Attempt) returns (out: seq<Event>, done: bool)
    ensures done <==> HasDone(attempt.events)
    ensures out == if done then CutAtDone(attempt.events) else attempt.events
  {
    out := [];
    for i := 0 to |attempt.events|
      invariant out == attempt.events[..i] && forall j :: 0 <= j < i ==> !attempt.events[j].Done?
    {
      var event := attempt.events[i];
      PrefixGrows(attempt.events, i);
      out := out + [event];
      if event.Done? {
        CutEnds(attempt.events, i);
        return out, true;
      }
    }
    done := false;
  }

  /** AIGateway.stream */
  method Stream(s: Script, max: nat) returns (r: Streamed)
    ensures exists last :: LastAttempt(s, max, last) && r == Final(s, max, last)
  {
    var retryCount := 0;
    while true
      invariant retryCount <= max
      invariant forall k :: 0 <= k < retryCount ==> RetriesAfter(s, max, k) && !s.deadlineInBackoff(k)
      decreases max - retryCount
    {
      var attempt := s.attempt(retryCount);
      var out, done := Relay(attempt);
      if done {
        assert LastAttempt(s, max, retryCount);
        return Streamed(out, None);
      }
      if out != [] || !Retryable(attempt.ending) || retryCount >= max {
        assert LastAttempt(s, max, retryCount);
        return Streamed(out, Some(Translate(attempt.ending)));
      }
      if s.deadlineInBackoff(retryCount) {
        assert LastAttempt(s, max, retryCount);
        return Streamed([], Some(TimedOut));
      }
      retryCount := retryCount + 1;
    }
  }

  /** Which attempt is the last one is determined. */
  lemma LastAttemptIsUnique(s: Script, max: nat, a: nat, b: nat)
    requires LastAttempt(s, max, a) && LastAttempt(s, max, b)
    ensures a == b
  {}

  lemma {:induction false} CutHasOneDone(events: seq<Event>)
    ensures HasDone(events) <==> (CutAtDone(events) != [] && CutAtDone(events)[|CutAtDone(events)| - 1].Done?)
    ensures forall i :: 0 <= i < |CutAtDone(events)| - 1 ==> !CutAtDone(events)[i].Done?
    ensures CutAtDone(events) <= events
    ensures !HasDone(events) ==> CutAtDone(events) == events
  {
    if events == [] || events[0].Done? {
    } else {
      CutHasOneDone(events[1..]);
      if HasDone(events) {
        var i :| 0 <= i < |events| && events[i].Done?;
        assert events[1..][i - 1].Done?;
      } else {
        assert forall j :: 0 <= j < |events| - 1 ==> events[1..][j] == events[j + 1];
      }
    }
  }

  /** Done is the last thing a stream says, and it says it exactly when it does not raise. */
  ghost predicate WellEnded(r: Streamed) {
    && (r.error.None? <==> r.events != [] && r.events[|r.events| - 1].Done?)
    && (forall i :: 0 <= i < |r.events| - 1 ==> !r.events[i].Done?)
  }

  /** What the caller is told of an ending: rate limits and time-outs by name, a fault of another kind as internal, all else as unavailable. */
  ghost predicate Tells(told: StreamError, e: Ending) {
    && (told == RateLimited <==> e == RateLimit)
    && (told == TimedOut <==> e == ProviderTimeout || e == IdleTooLong || e == TotalDeadline)
    && (told == Internal <==> e == NotAProviderError)
    && (told == Unavailable <==> e == ProviderUnavailable || e == ProviderStreamFault || e == OtherProviderFault || e == StopsWithoutDone)
  }

  /** Only a passing fault of the provider is worth another attempt. */
  ghost predicate Passing(e: Ending) {
    e == RateLimit || e == ProviderTimeout || e == ProviderUnavailable || e == IdleTooLong
  }

  /**
   The caller sees one attempt's events cut at the first done. Every attempt before it was silent and met a
   passing fault; it is the last one because it spoke, met a fault that does not pass, was the
   `max + 1`st, or the deadline passed in the wait after it, which alone is told as a time-out of its own.
   */
  lemma OneAttemptIsSeen(s: Script, max: nat, last: nat)
    requires LastAttempt(s, max, last)
    ensures last + 1 <= max + 1
    ensures Final(s, max, last).events == CutAtDone(s.attempt(last).events)
    ensures WellEnded(Final(s, max, last))
    ensures forall k :: 0 <= k < last ==> s.attempt(k).events == [] && Passing(s.attempt(k).ending) && !s.deadlineInBackoff(k)
    ensures var attempt, error := s.attempt(last), Final(s, max, last).error;
            if HasDone(attempt.events) then error == None
            else if attempt.events == [] && Passing(attempt.ending) && last < max then s.deadlineInBackoff(last) && error == Some(TimedOut)
            else error.Some? && Tells(error.value, attempt.ending)
  {
    CutHasOneDone(s.attempt(last).events);
    forall k | 0 <= k < last ensures s.attempt(k).events == [] && Passing(s.attempt(k).ending) && !s.deadlineInBackoff(k) {
      assert RetriesAfter(s, max, k);
    }
  }

  // ---- The service: one usage record per stream ----------------------------------------

  datatype Status = Success | Failed | Cancelled

  datatype Record = Record(status: Status, usage: Option<Tokens>, error: Option<StreamError>, sawText: bool)

  function LastUsage(events: seq<Event>): Option<Tokens> {
    if events == [] then None
    else if events[|events| - 1].Usage? then Some(events[|events| - 1].tokens)
    else LastUsage(events[..|events| - 1])
  }

  predicate SawText(events: seq<Event>) {
    exists i :: 0 <= i < |events| && events[i].Delta?
  }

  /** `records` are handed over for saving; `stored` are those that were saved, since a failed save is swallowed. */
  datatype Consumed = Consumed(delivered: seq<Event>, records: seq<Record>, stored: seq<Record>, error: Option<StreamError>, cancelled: bool)

  /** How many of the gateway's events the consumer takes before it cancels, if it cancels. */
  function Taken(r: Streamed, cancelAfter: Option<nat>): seq<Event> {
    if cancelAfter.Some? && cancelAfter.value <= |r.events| then r.events[..cancelAfter.value] else r.events
  }

  /** The record a stream must leave. */
  function RecordFor(r: Streamed, cancelAfter: Option<nat>): Record {
    var taken := Taken(r, cancelAfter);
    var done := taken != [] && taken[|taken| - 1].Done?;
    Record(if done then Success else if cancelAfter.Some? && cancelAfter.value <= |r.events| then Cancelled else Failed,
           LastUsage(taken), if done || (cancelAfter.Some? && cancelAfter.value <= |r.events|) then None else r.error, SawText(taken))
  }

  lemma NextEvent(events: seq<Event>, i: nat)
    requires i < |events|
    ensures SawText(events[..i + 1]) <==> SawText(events[..i]) || events[i].Delta?
    ensures LastUsage(events[..i + 1]) == if events[i].Usage? then Some(events[i].tokens) else LastUsage(events[..i])
  {
    PrefixGrows(events, i);
    if SawText(events[..i]) {
      var j :| 0 <= j < i && events[j].Delta?;
      assert events[..i + 1][j].Delta?;
    }
    if events[i].Delta? {
      assert events[..i + 1][i].Delta?;
    }
  }

  /** The last of the usage events, if any. */
  ghost predicate IsLastUsage(usage: Option<Tokens>, events: seq<Event>) {
    match usage
    case None => forall i :: 0 <= i < |events| ==> !events[i].Usage?
    case Some(tokens) => exists i :: 0 <= i < |events| && events[i] == Usage(tokens) && forall j :: i < j < |events| ==> !events[j].Usage?
  }

  lemma {:induction false} LastUsageIsLast(events: seq<Event>)
    ensures IsLastUsage(LastUsage(events), events)
  {
    if events == [] {
    } else {
      var n := |events| - 1;
      LastUsageIsLast(events[..n]);
      assert events == events[..n] + [events[n]];
      if events[n].Usage? {
        assert events[n] == Usage(events[n].tokens);
      }
    }
  }

  /**
   What the record of a stream says of what was delivered: success exactly if done was, else cancelled
   exactly if the consumer left, else failed with the stream's own error; the last usage; whether text was seen.
   */
  lemma RecordTells(r: Streamed, cancelAfter: Option<nat>)
    requires WellEnded(r)
    ensures var delivered, record := Taken(r, cancelAfter), RecordFor(r, cancelAfter);
            var left := cancelAfter.Some? && cancelAfter.value <= |r.events|;
            && delivered <= r.events && |delivered| == (if left then cancelAfter.value else |r.events|)
            && (record.status == Success <==> HasDone(delivered))
            && (record.status == Cancelled <==> left && !HasDone(delivered))
            && (record.status == Failed <==> !left && !HasDone(delivered))
            && record.error == (if record.status == Failed then r.error else None)
            && (record.status == Failed ==> record.error.Some?)
            && IsLastUsage(record.usage, delivered)
            && (record.sawText <==> exists i :: 0 <= i < |delivered| && delivered[i].Delta?)
  {
    LastUsageIsLast(Taken(r, cancelAfter));
  }

  /** ChatService.stream: exactly one record is handed over, whatever the gateway and the consumer do; it stays if it can be saved. */
  method ConsumeStream(r: Streamed, cancelAfter: Option<nat>, saves: bool) returns (c: Consumed)
    requires WellEnded(r)
    ensures c.delivered == Taken(r, cancelAfter)
    ensures c.records == [RecordFor(r, cancelAfter)]
    ensures c.stored == if saves then [RecordFor(r, cancelAfter)] else []
    ensures c.cancelled <==> cancelAfter.Some? && cancelAfter.value <= |r.events|
    ensures c.error == if c.cancelled then None else r.error
  {
    var tokenUsage: Option<Tokens>, sawText, terminalRecorded := None, false, false;
    var records: seq<Record> := [];
    var i := 0;
    while i < |r.events| && !(cancelAfter.Some? && cancelAfter.value == i)
      invariant 0 <= i <= |r.events| && (cancelAfter.Some? ==> i <= cancelAfter.value)
      invariant tokenUsage == LastUsage(r.events[..i]) && sawText == SawText(r.events[..i])
      invariant terminalRecorded <==> i == |r.events| && r.error.None?
      invariant records == if terminalRecorded then [Record(Success, tokenUsage, None, sawText)] else []
    {
      var event := r.events[i];
      NextEvent(r.events, i);
      if event.Delta? && !sawText {
        sawText := true;
      } else if event.Usage? {
        tokenUsage := Some(event.tokens);
      } else if event.Done? {
        records := records + [Record(Success, tokenUsage, None, sawText)];
        terminalRecorded := true;
      }
      i := i + 1;
    }
    var cancelled := cancelAfter.Some? && cancelAfter.value == i;
    var error := if cancelled then None else r.error;
    if !terminalRecorded {
      records := records + [Record(if cancelled then Cancelled else Failed, tokenUsage, error, sawText)];
    }
    assert r.events[..|r.events|] == r.events;
    return Consumed(r.events[..i], records, if saves then records else [], error, cancelled);
  }

  // ---- Frames ------------------------------------------------------------------------------

  datatype Frame = DeltaFrame(text: string) | UsageFrame(tokens: Tokens) | DoneFrame(reason: string) | ErrorFrame(error: StreamError)

  function EncodeEvent(e: Event): Frame {
    match e
    case Delta(text) => DeltaFrame(text)
    case Usage(tokens) => UsageFrame(tokens)
    case Done(reason) => DoneFrame(reason)
  }

  /** What a client reads back from a frame. */
  function Decoded(f: Frame): Option<Event> {
    match f
    case DeltaFrame(text) => Some(Delta(text))
    case UsageFrame(tokens) => Some(Usage(tokens))
    case DoneFrame(reason) => Some(Done(reason))
    case ErrorFrame(_) => None
  }

  predicate Terminal(f: Frame) {
    f.DoneFrame? || f.ErrorFrame?
  }

  /** Exactly one frame is terminal, and it is the last. */
  ghost predicate EndsOnce(frames: seq<Frame>) {
    && frames != [] && Terminal(frames[|frames| - 1])
    && (forall i :: 0 <= i < |frames| - 1 ==> !Terminal(frames[i]))
  }

  /** encode_started_chat_stream, once a first event is there. Only the application's own errors become a frame. */
  method EncodeStarted(r: Streamed) returns (frames: seq<Frame>)
    requires WellEnded(r) && r.events != []
    ensures |frames| == |r.events| + if r.error.Some? && r.error != Some(Internal) then 1 else 0
    ensures forall i :: 0 <= i < |r.events| ==> frames[i] == EncodeEvent(r.events[i]) && Decoded(frames[i]) == Some(r.events[i])
    ensures EndsOnce(frames) <==> r.error != Some(Internal)
    ensures r.error.Some? && r.error != Some(Internal) ==> frames[|frames| - 1] == ErrorFrame(r.error.value)
  {
    frames := [EncodeEvent(r.events[0])];
    if r.events[0].Done? {
      return;
    }
    for i := 1 to |r.events|
      invariant |frames| == i && forall j :: 0 <= j < i ==> frames[j] == EncodeEvent(r.events[j])
      invariant forall j :: 0 <= j < i ==> !r.events[j].Done?
    {
      frames := frames + [EncodeEvent(r.events[i])];
      if r.events[i].Done? {
        return;
      }
    }
    if r.error.Some? && r.error.value != Internal {
      frames := frames + [ErrorFrame(r.error.value)];
    }
  }

  // ---- The whole stack -----------------------------------------------------------------------

  datatype Served = Served(records: seq<Record>, stored: seq<Record>, frames: seq<Frame>, rejected: Option<StreamError>)

  /**
   One request from provider to client, not cancelled. A failure before the first
   event is an ordinary error response; after it, the frames end in exactly one done
   or error, unless the provider raised something that is not a provider error.
   */
  method Serve(prepared: Option<StreamError>, s: Script, max: nat, saves: bool) returns (served: Served, ghost last: nat)
    ensures |served.records| == 1 && served.stored == if saves then served.records else []
    ensures served.rejected.Some? <==> served.frames == []
    ensures prepared.Some? ==> served.rejected == prepared && served.records[0].error == prepared
    ensures prepared.None? ==> LastAttempt(s, max, last)
    ensures prepared.Some? ==> served.records[0].status == Failed && served.records[0].usage == None && !served.records[0].sawText
    ensures prepared.None? ==> served.records == [RecordFor(Final(s, max, last), None)]
    ensures prepared.None? ==> (served.records[0].status == Success <==> HasDone(s.attempt(last).events))
    ensures prepared.None? ==> served.records[0].error == Final(s, max, last).error
    ensures prepared.None? && served.rejected.Some? ==> served.rejected == Final(s, max, last).error
    ensures served.frames != [] ==>
      var events := CutAtDone(s.attempt(last).events);
      |events| <= |served.frames| <= |events| + 1 && forall i :: 0 <= i < |events| ==> Decoded(served.frames[i]) == Some(events[i])
    ensures prepared.None? ==> (served.rejected.Some? <==> s.attempt(last).events == [])
    ensures served.frames != [] ==>
      (EndsOnce(served.frames) <==> HasDone(s.attempt(last).events) || s.attempt(last).ending != NotAProviderError)
  {
    last := 0;
    if prepared.Some? {
      var record := Record(Failed, None, prepared, false);
      return Served([record], if saves then [record] else [], [], prepared), last;
    }
    var streamed := Stream(s, max);
    last :| LastAttempt(s, max, last) && streamed == Final(s, max, last);
    OneAttemptIsSeen(s, max, last);
    CutHasOneDone(s.attempt(last).events);
    var consumed := ConsumeStream(streamed, None, saves);
    if streamed.events == [] {
      return Served(consumed.records, consumed.stored, [], streamed.error), last;
    }
    var frames := EncodeStarted(streamed);
    return Served(consumed.records, consumed.stored, frames, None), last;
  }

  /** A stream that has begun and then meets an error of another kind ends without a terminal frame. */
  method UnendedStream() returns (frames: seq<Frame>)
    ensures frames == [DeltaFrame("x")] && !EndsOnce(frames)
  {
    var script := Script(n => Attempt([Delta("x")], NotAProviderError), n => false);
    var streamed := Stream(script, 2);
    ghost var last :| LastAttempt(script, 2, last) && streamed == Final(script, 2, last);
    assert !Delta("x").Done?;
    frames := EncodeStarted(streamed);
  }

  // ---- The non-streaming call ----------------------------------------------------------------

  datatype Reply = Answer(text: string) | Fault(ending: Ending)

  /** A provider and a clock: whether the total deadline passes during call `k`, or in the wait after it. */
  datatype Calls = Calls(reply: nat -> Reply, deadlineInCall: nat -> bool, deadlineInBackoff: nat -> bool)

  predicate CallsAgain(c: Calls, max: nat, k: nat) {
    !c.deadlineInCall(k) && c.reply(k).Fault? && Retryable(c.reply(k).ending) && k < max
  }

  ghost predicate LastCall(c: Calls, max: nat, last: nat) {
    && last <= max
    && (forall k :: 0 <= k < last ==> CallsAgain(c, max, k) && !c.deadlineInBackoff(k))
    && (CallsAgain(c, max, last) ==> c.deadlineInBackoff(last))
  }

  /** What the caller gets from the last call: its answer, its translated fault, or the deadline's time-out. */
  function ResultOf(c: Calls, max: nat, last: nat): Result<string, StreamError> {
    if c.deadlineInCall(last) || CallsAgain(c, max, last) then Err(TimedOut)
    else
      match c.reply(last)
      case Answer(text) => Ok(text)
      case Fault(e) => Err(Translate(e))
  }

  /** One answer or one told fault: every call before the last met a passing fault; a deadline in the last call or in the wait after it is a time-out. */
  lemma OneCallIsTold(c: Calls, max: nat, last: nat)
    requires LastCall(c, max, last)
    ensures last + 1 <= max + 1
    ensures forall k :: 0 <= k < last ==> !c.deadlineInCall(k) && c.reply(k).Fault? && Passing(c.reply(k).ending) && !c.deadlineInBackoff(k)
    ensures var reply, r := c.reply(last), ResultOf(c, max, last);
            if c.deadlineInCall(last) then r == Err(TimedOut)
            else if reply.Answer? then r == Ok(reply.text)
            else if Passing(reply.ending) && last < max then c.deadlineInBackoff(last) && r == Err(TimedOut)
            else r.Err? && Tells(r.error, reply.ending)
  {
    forall k | 0 <= k < last
      ensures !c.deadlineInCall(k) && c.reply(k).Fault? && Passing(c.reply(k).ending) && !c.deadlineInBackoff(k)
    {
      assert CallsAgain(c, max, k);
    }
  }

  /** AIGateway.generate: _generate_with_retry under the total deadline. */
  method Generate(c: Calls, max: nat) returns (r: Result<string, StreamError>)
    ensures exists last :: LastCall(c, max, last) && r == ResultOf(c, max, last)
  {
    var retryCount := 0;
    while true
      invariant retryCount <= max
      invariant forall k :: 0 <= k < retryCount ==> CallsAgain(c, max, k) && !c.deadlineInBackoff(k)
      decreases max - retryCount
    {
      if c.deadlineInCall(retryCount) {
        assert LastCall(c, max, retryCount);
        return Err(TimedOut);
      }
      match c.reply(retryCount) {
        case Answer(text) =>
          assert LastCall(c, max, retryCount);
          return Ok(text);
        case Fault(e) =>
          if !Retryable(e) || retryCount >= max {
            assert LastCall(c, max, retryCount);
            return Err(Translate(e));
          }
      }
      if c.deadlineInBackoff(retryCount) {
        assert LastCall(c, max, retryCount);
        return Err(TimedOut);
      }
      retryCount := retryCount + 1;
    }
  }
}
