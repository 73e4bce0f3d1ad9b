/**
  The Azure variant of the meter (src/js/script-azure.js). A conversation
  transcriber delivers recognition events tagged with a speaker id. The first
  speaker heard in a measurement is taken to be the manager, and the duration
  of every final recognition is credited to either the manager's or the
  member's bucket. The session record holds the variables the script keeps at
  module level; each handler is a pure step from one record to the next.
*/
module AzureSession {
  import opened Options
  import Report

  /** The transcriber reports durations in 100-nanosecond ticks: 10000 ticks per millisecond. */
  const TicksPerMs: real := 10000.0

  /** The speaker id used when a recognition carries none. */
  const UnknownSpeaker: string := "Unknown"

  /** The `reason` of a recognition result; only `RecognizedSpeech` is credited. */
  datatype ResultReason = RecognizedSpeech | NoMatch | OtherReason

  /** What the transcriber delivers: interim hypotheses and final results. */
  datatype TranscriberEvent =
    | Transcribing(speakerId: Option<string>, text: string)
    | Transcribed(reason: ResultReason, speakerId: Option<string>, text: string, durationTicks: nat)

  /** The measurement state: `isMeeting`, `meetingStartTime`, `firstSpeaker` and the two buckets (ms). */
  datatype Session = Session(
    isMeeting: bool,
    meetingStart: int,
    firstSpeaker: Option<string>,
    managerMs: real,
    memberMs: real)

  /** The state when the page has loaded. */
  const PageLoaded: Session := Session(false, 0, None, 0.0, 0.0)

  /** Both buckets hold non-negative times. */
  predicate Valid(s: Session) {
    s.managerMs >= 0.0 && s.memberMs >= 0.0
  }

  // ---------------------------------------------------------------------------
  // Attribution
  // ---------------------------------------------------------------------------

  /** `e.result.speakerId || 'Unknown'`: a missing or empty id becomes "Unknown". */
  function SpeakerOrUnknown(id: Option<string>): (s: string)
    ensures s != ""
    ensures id.Some? && id.value != "" ==> s == id.value
    ensures id.None? || id.value == "" ==> s == UnknownSpeaker
  {
    if id.Some? && id.value != "" then id.value else UnknownSpeaker
  }

  /** `e.result.duration / 10000`: ticks converted to milliseconds. */
  function TicksToMs(ticks: nat): (ms: real)
    ensures ms >= 0.0
    ensures ms * TicksPerMs == ticks as real
  {
    ticks as real / TicksPerMs
  }

  /** The script tests `!firstSpeaker`, which holds for null and for the empty string alike. */
  predicate HasFirstSpeaker(s: Session) {
    s.firstSpeaker.Some? && s.firstSpeaker.value != ""
  }

  /** Whether a speaker counts as the manager, and the session after the first speaker is recorded. */
  datatype Verdict = Verdict(isManager: bool, session: Session)

  /**
    `identifySpeaker`: while no first speaker is recorded, the speaker is recorded
    and is the manager; afterwards exactly the recorded speaker is the manager.
  */
  function IdentifySpeaker(s: Session, speakerId: string): (v: Verdict)
    ensures !HasFirstSpeaker(s) ==> v.isManager && v.session == s.(firstSpeaker := Some(speakerId))
    ensures HasFirstSpeaker(s) ==> v.session == s && (v.isManager <==> speakerId == s.firstSpeaker.value)
  {
    if !HasFirstSpeaker(s) then Verdict(true, s.(firstSpeaker := Some(speakerId)))
    else Verdict(speakerId == s.firstSpeaker.value, s)
  }

  // ---------------------------------------------------------------------------
  // Crediting recognized speech
  // ---------------------------------------------------------------------------

  /** Only final results with reason `RecognizedSpeech` are credited. */
  predicate Credited(e: TranscriberEvent) {
    e.Transcribed? && e.reason == RecognizedSpeech
  }

  /** The speaker a credited event is attributed to. */
  function EventSpeaker(e: TranscriberEvent): string
    requires e.Transcribed?
  {
    SpeakerOrUnknown(e.speakerId)
  }

  /**
    The `transcribing` and `transcribed` handlers. An interim result or a final
    result of another reason changes nothing. A recognized result adds its
    duration to exactly one bucket, chosen by `identifySpeaker`: the other bucket
    is unchanged and the total grows by exactly that duration. Like the script,
    the handler does not look at `isMeeting`.
  */
  function OnEvent(s: Session, e: TranscriberEvent): (s': Session)
    ensures !Credited(e) ==> s' == s
    ensures Credited(e) ==>
      var d := TicksToMs(e.durationTicks);
      var v := IdentifySpeaker(s, EventSpeaker(e));
      && s'.isMeeting == s.isMeeting
      && s'.meetingStart == s.meetingStart
      && s'.firstSpeaker == v.session.firstSpeaker
      && HasFirstSpeaker(s')
      && s'.managerMs + s'.memberMs == s.managerMs + s.memberMs + d
      && (v.isManager ==> s'.managerMs == s.managerMs + d && s'.memberMs == s.memberMs)
      && (!v.isManager ==> s'.memberMs == s.memberMs + d && s'.managerMs == s.managerMs)
    ensures Valid(s) ==> Valid(s')
  {
    if !Credited(e) then s
    else
      var d := TicksToMs(e.durationTicks);
      var v := IdentifySpeaker(s, EventSpeaker(e));
      if v.isManager then v.session.(managerMs := s.managerMs + d)
      else v.session.(memberMs := s.memberMs + d)
  }

  /** The session after the events are handled in order. */
  function Replay(s: Session, events: seq<TranscriberEvent>): Session
    decreases |events|
  {
    if |events| == 0 then s else Replay(OnEvent(s, events[0]), events[1..])
  }

  // Reference definitions of what a run of events credits, stated without sessions.

  /** Total duration of the credited events. */
  function CreditedMs(events: seq<TranscriberEvent>): real
    decreases |events|
  {
    if |events| == 0 then 0.0
    else (if Credited(events[0]) then TicksToMs(events[0].durationTicks) else 0.0) + CreditedMs(events[1..])
  }

  /** Total duration of the credited events attributed to one speaker id. */
  function CreditedMsOf(events: seq<TranscriberEvent>, speaker: string): real
    decreases |events|
  {
    if |events| == 0 then 0.0
    else
      var e := events[0];
      (if Credited(e) && EventSpeaker(e) == speaker then TicksToMs(e.durationTicks) else 0.0)
      + CreditedMsOf(events[1..], speaker)
  }

  /** The speaker of the first credited event, if there is one. */
  function FirstCreditedSpeaker(events: seq<TranscriberEvent>): Option<string>
    decreases |events|
  {
    if |events| == 0 then None
    else if Credited(events[0]) then Some(EventSpeaker(events[0]))
    else FirstCreditedSpeaker(events[1..])
  }

  /**
    Once a first speaker is recorded it never changes while events arrive; the
    manager's bucket grows by exactly that speaker's credited time and the
    member's bucket by everybody else's.
  */
  lemma {:induction false} ReplayAfterFirstSpeaker(s: Session, events: seq<TranscriberEvent>)
    requires HasFirstSpeaker(s)
    ensures var f := s.firstSpeaker.value;
      var r := Replay(s, events);
      && r.firstSpeaker == s.firstSpeaker
      && r.isMeeting == s.isMeeting
      && r.managerMs == s.managerMs + CreditedMsOf(events, f)
      && r.memberMs == s.memberMs + (CreditedMs(events) - CreditedMsOf(events, f))
    decreases |events|
  {
    if |events| > 0 {
      ReplayAfterFirstSpeaker(OnEvent(s, events[0]), events[1..]);
    }
  }

  /**
    First speaker wins: in a session with no first speaker, the speaker of the
    first credited event becomes the manager, and from then on the manager's
    bucket collects exactly that speaker's credited time. Without any credited
    event the session is unchanged.
  */
  lemma {:induction false} ReplayFromFreshSession(s: Session, events: seq<TranscriberEvent>)
    requires !HasFirstSpeaker(s)
    ensures FirstCreditedSpeaker(events).None? ==> Replay(s, events) == s
    ensures FirstCreditedSpeaker(events).Some? ==>
      var f := FirstCreditedSpeaker(events).value;
      var r := Replay(s, events);
      && r.firstSpeaker == Some(f)
      && r.isMeeting == s.isMeeting
      && r.managerMs == s.managerMs + CreditedMsOf(events, f)
      && r.memberMs == s.memberMs + (CreditedMs(events) - CreditedMsOf(events, f))
    decreases |events|
  {
    if |events| > 0 {
      var e := events[0];
      if Credited(e) {
        var s1 := OnEvent(s, e);
        ReplayAfterFirstSpeaker(s1, events[1..]);
      } else {
        ReplayFromFreshSession(s, events[1..]);
      }
    }
  }

  /** Handling events keeps both buckets non-negative. */
  lemma {:induction false} ReplayKeepsValid(s: Session, events: seq<TranscriberEvent>)
    requires Valid(s)
    ensures Valid(Replay(s, events))
    decreases |events|
  {
    if |events| > 0 {
      ReplayKeepsValid(OnEvent(s, events[0]), events[1..]);
    }
  }

  /** Without a credited event nothing is credited. */
  lemma {:induction false} NoCreditedSpeakerNoTime(events: seq<TranscriberEvent>)
    requires FirstCreditedSpeaker(events).None?
    ensures CreditedMs(events) == 0.0
    decreases |events|
  {
    if |events| > 0 {
      NoCreditedSpeakerNoTime(events[1..]);
    }
  }

  // ---------------------------------------------------------------------------
  // Lifecycle
  // ---------------------------------------------------------------------------

  /**
    How creating and starting the transcriber went: construction threw (the
    catch block runs before any variable is set), recognition failed to start
    (its error callback clears `isMeeting` after the buckets were zeroed), or
    recognition is running.
  */
  datatype TranscriberStart = ConstructionFailed | RecognitionFailed | Recognizing

  /**
    `startMeeting`: nothing happens while a measurement runs, without a registered
    voice, without speech settings, or when the transcriber cannot be built.
    Otherwise both buckets are zeroed and the start time recorded; the first
    speaker is left as it is.
  */
  function StartMeeting(s: Session, now: int, registered: bool, configured: bool, sdk: TranscriberStart): (s': Session)
    ensures s.isMeeting || !registered || !configured || sdk == ConstructionFailed ==> s' == s
    ensures !s.isMeeting && registered && configured && sdk != ConstructionFailed ==>
      && s'.managerMs == 0.0
      && s'.memberMs == 0.0
      && s'.meetingStart == now
      && s'.firstSpeaker == s.firstSpeaker
      && (s'.isMeeting <==> sdk == Recognizing)
    ensures Valid(s) ==> Valid(s')
  {
    if s.isMeeting || !registered || !configured || sdk == ConstructionFailed then s
    else Session(sdk == Recognizing, now, s.firstSpeaker, 0.0, 0.0)
  }

  /** What `stopMeeting` leaves behind, and the summary it shows (None when it did nothing). */
  datatype StopOutcome = StopOutcome(
    session: Session,
    summary: Option<Result<Report.Summary, Report.SummaryError>>)

  /**
    `stopMeeting`: a no-op when no measurement runs. Otherwise it clears
    `isMeeting` and the first speaker and summarizes the buckets; when nothing
    was spoken the summary fails and the session is reset.
  */
  function StopMeeting(s: Session): (o: StopOutcome)
    ensures !s.isMeeting ==> o == StopOutcome(s, None)
    ensures s.isMeeting ==>
      && !o.session.isMeeting
      && o.session.firstSpeaker.None?
      && o.session.meetingStart == s.meetingStart
      && o.summary == Some(Report.Summarize(s.managerMs, s.memberMs))
      && (o.summary.value.Err? ==> o.session.managerMs == 0.0 && o.session.memberMs == 0.0)
      && (o.summary.value.Ok? ==> o.session.managerMs == s.managerMs && o.session.memberMs == s.memberMs)
    ensures Valid(s) ==> Valid(o.session)
  {
    if !s.isMeeting then StopOutcome(s, None)
    else
      var stopped := s.(isMeeting := false, firstSpeaker := None);
      var summary := Report.Summarize(stopped.managerMs, stopped.memberMs);
      if summary.Err? then StopOutcome(ResetMeeting(stopped), Some(summary))
      else StopOutcome(stopped, Some(summary))
  }

  /**
    `resetMeeting`: zeroes both buckets and forgets the first speaker, whatever
    the prior state; whether a measurement runs is not touched.
  */
  function ResetMeeting(s: Session): (s': Session)
    ensures s'.managerMs == 0.0 && s'.memberMs == 0.0
    ensures !HasFirstSpeaker(s') && s'.firstSpeaker.None?
    ensures s'.isMeeting == s.isMeeting && s'.meetingStart == s.meetingStart
    ensures Valid(s')
  {
    s.(managerMs := 0.0, memberMs := 0.0, firstSpeaker := None)
  }

  /** Resetting twice is resetting once. */
  lemma ResetIdempotent(s: Session)
    ensures ResetMeeting(ResetMeeting(s)) == ResetMeeting(s)
  {
  }

  /**
    After a reset, the next credited event's speaker is the manager, whoever
    was the manager before.
  */
  lemma ResetForgetsManager(s: Session, e: TranscriberEvent)
    requires Credited(e)
    ensures var r := OnEvent(ResetMeeting(s), e);
      && r.firstSpeaker == Some(EventSpeaker(e))
      && r.managerMs == TicksToMs(e.durationTicks)
      && r.memberMs == 0.0
  {
  }

  /**
    A whole measurement: started with no first speaker, fed events, stopped.
    The summary fails exactly when no recognized speech was credited; otherwise
    the manager's time is the credited time of the first recognized speaker,
    the total is all credited time, and both ratios lie in [0, 100] and sum to
    100. The first speaker is forgotten afterwards.
  */
  lemma MeasurementSummary(s: Session, now: int, events: seq<TranscriberEvent>)
    requires !s.isMeeting && !HasFirstSpeaker(s)
    ensures var started := StartMeeting(s, now, true, true, Recognizing);
      var o := StopMeeting(Replay(started, events));
      && o.summary.Some?
      && !HasFirstSpeaker(o.session)
      && (o.summary.value.Err? <==> CreditedMs(events) == 0.0)
      && (o.summary.value.Ok? ==>
        var sum := o.summary.value.value;
        && FirstCreditedSpeaker(events).Some?
        && sum.managerMs == CreditedMsOf(events, FirstCreditedSpeaker(events).value)
        && sum.totalMs == CreditedMs(events)
        && 0.0 <= sum.managerRatio <= 100.0
        && 0.0 <= sum.memberRatio <= 100.0
        && sum.managerRatio + sum.memberRatio == 100.0)
  {
    var started := StartMeeting(s, now, true, true, Recognizing);
    ReplayFromFreshSession(started, events);
    ReplayKeepsValid(started, events);
    if FirstCreditedSpeaker(events).None? {
      NoCreditedSpeakerNoTime(events);
    }
  }
}
