/**
  The Web Audio variant of the meter (src/js/script.js). An audio callback
  fires for every buffer of microphone input with the buffer's volume and a
  low-frequency level. During registration the loud buffers become the
  manager's voice profile. During a measurement each loud buffer credits the
  time since the previous buffer to the manager when its frequency level is
  within 30 of the profile's mean, and to the member otherwise.
*/
module WebAudioSession {
  import opened Options
  import Report
  import TextFormat

  /** A buffer counts as speech only above this volume. */
  const VoiceThreshold: real := 30.0
  /** A speaker is the manager only when the frequency level is closer than this to the profile's mean. */
  const SpeakerFrequencyDiffThreshold: real := 30.0
  /** Registration records for this many milliseconds and then stops by itself. */
  const RegistrationDurationMs: int := 10000

  /** One audio buffer as the callback sees it: the clock reading, the volume and the frequency level. */
  datatype AudioFrame = AudioFrame(now: int, volume: real, frequency: real)

  /** One recorded registration sample. */
  datatype Sample = Sample(volume: real, frequency: real, timestamp: int)

  /** The stored voice profile of the manager. */
  datatype VoiceProfile = VoiceProfile(data: seq<Sample>, timestamp: int, sampleCount: nat)

  datatype Role = Manager | Member

  predicate Loud(volume: real) {
    volume > VoiceThreshold
  }

  function Abs(x: real): real {
    if x < 0.0 then -x else x
  }

  // ---------------------------------------------------------------------------
  // Attribution against the registered profile
  // ---------------------------------------------------------------------------

  function FrequencySum(data: seq<Sample>): real
    decreases |data|
  {
    if |data| == 0 then 0.0 else data[0].frequency + FrequencySum(data[1..])
  }

  function MeanFrequency(data: seq<Sample>): real
    requires |data| > 0
  {
    FrequencySum(data) / |data| as real
  }

  /**
    `identifySpeaker`: the member when no profile is stored; otherwise the
    manager exactly when the frequency level is strictly closer than 30 to the
    mean of the profile's sample frequencies. A profile without samples has a
    mean of NaN, which no comparison accepts, so it yields the member.
  */
  function IdentifySpeaker(profile: Option<VoiceProfile>, volume: real, frequency: real): (r: Role)
    ensures profile.None? ==> r == Member
    ensures profile.Some? && |profile.value.data| == 0 ==> r == Member
    ensures profile.Some? && |profile.value.data| > 0 ==>
      (r == Manager <==> Abs(frequency - MeanFrequency(profile.value.data)) < SpeakerFrequencyDiffThreshold)
  {
    if profile.None? || |profile.value.data| == 0 then Member
    else if Abs(frequency - MeanFrequency(profile.value.data)) < SpeakerFrequencyDiffThreshold then Manager
    else Member
  }

  /** Every sample frequency lies in [lo, hi]. */
  predicate FrequenciesWithin(data: seq<Sample>, lo: real, hi: real) {
    forall i :: 0 <= i < |data| ==> lo <= data[i].frequency <= hi
  }

  lemma {:induction false} FrequencySumWithin(data: seq<Sample>, lo: real, hi: real)
    requires FrequenciesWithin(data, lo, hi)
    ensures lo * |data| as real <= FrequencySum(data) <= hi * |data| as real
    decreases |data|
  {
    if |data| > 0 {
      assert FrequenciesWithin(data[1..], lo, hi) by {
        forall i | 0 <= i < |data[1..]| ensures lo <= data[1..][i].frequency <= hi {
          assert data[1..][i] == data[i + 1];
        }
      }
      FrequencySumWithin(data[1..], lo, hi);
      assert lo * |data| as real == lo + lo * |data[1..]| as real;
      assert hi * |data| as real == hi + hi * |data[1..]| as real;
    }
  }

  /** The profile's mean lies between its lowest and highest sample frequency. */
  lemma MeanWithin(data: seq<Sample>, lo: real, hi: real)
    requires |data| > 0 && FrequenciesWithin(data, lo, hi)
    ensures lo <= MeanFrequency(data) <= hi
  {
    FrequencySumWithin(data, lo, hi);
    var n := |data| as real;
    assert MeanFrequency(data) * n == FrequencySum(data);
  }

  /**
    A frequency level at least 30 away from the whole range of the registered
    sample frequencies is never the manager.
  */
  lemma FarFromProfileIsMember(p: VoiceProfile, volume: real, frequency: real, lo: real, hi: real)
    requires |p.data| > 0 && FrequenciesWithin(p.data, lo, hi)
    requires frequency >= hi + SpeakerFrequencyDiffThreshold || frequency <= lo - SpeakerFrequencyDiffThreshold
    ensures IdentifySpeaker(Some(p), volume, frequency) == Member
  {
    MeanWithin(p.data, lo, hi);
  }

  /**
    A frequency level closer than 30 to every value the registered samples span
    is always the manager.
  */
  lemma NearProfileIsManager(p: VoiceProfile, volume: real, frequency: real, lo: real, hi: real)
    requires |p.data| > 0 && FrequenciesWithin(p.data, lo, hi)
    requires hi - SpeakerFrequencyDiffThreshold < frequency < lo + SpeakerFrequencyDiffThreshold
    ensures IdentifySpeaker(Some(p), volume, frequency) == Manager
  {
    MeanWithin(p.data, lo, hi);
  }

  // ---------------------------------------------------------------------------
  // Measurement
  // ---------------------------------------------------------------------------

  /** The measurement state: `isMeeting`, `meetingStartTime`, `lastUpdateTime` and the two buckets (ms). */
  datatype Meeting = Meeting(
    isMeeting: bool,
    meetingStart: int,
    lastUpdate: int,
    managerMs: int,
    memberMs: int)

  /** The state when the page has loaded. */
  const PageLoaded: Meeting := Meeting(false, 0, 0, 0, 0)

  /**
    The measurement audio callback. It does nothing unless a measurement runs.
    A loud buffer credits the time since the previous buffer to exactly the
    bucket `identifySpeaker` chooses; a quiet one credits nothing. Either way
    the buffer's time becomes the previous buffer time.
  */
  function MeetingTick(m: Meeting, profile: Option<VoiceProfile>, f: AudioFrame): (m': Meeting)
    ensures !m.isMeeting ==> m' == m
    ensures m.isMeeting ==>
      && m'.isMeeting
      && m'.meetingStart == m.meetingStart
      && m'.lastUpdate == f.now
    ensures m.isMeeting && !Loud(f.volume) ==>
      m'.managerMs == m.managerMs && m'.memberMs == m.memberMs
    ensures m.isMeeting && Loud(f.volume) ==>
      var delta := f.now - m.lastUpdate;
      var who := IdentifySpeaker(profile, f.volume, f.frequency);
      && (who == Manager ==> m'.managerMs == m.managerMs + delta && m'.memberMs == m.memberMs)
      && (who == Member ==> m'.memberMs == m.memberMs + delta && m'.managerMs == m.managerMs)
  {
    if !m.isMeeting then m
    else
      var delta := f.now - m.lastUpdate;
      if Loud(f.volume) then
        if IdentifySpeaker(profile, f.volume, f.frequency) == Manager then
          m.(managerMs := m.managerMs + delta, lastUpdate := f.now)
        else
          m.(memberMs := m.memberMs + delta, lastUpdate := f.now)
      else m.(lastUpdate := f.now)
  }

  /** The measurement after the buffers are handled in order. */
  function RunMeeting(m: Meeting, profile: Option<VoiceProfile>, frames: seq<AudioFrame>): Meeting
    decreases |frames|
  {
    if |frames| == 0 then m else RunMeeting(MeetingTick(m, profile, frames[0]), profile, frames[1..])
  }

  /** Reference definition: the gaps before the loud buffers, starting from the previous buffer time `prev`. */
  function LoudTime(prev: int, frames: seq<AudioFrame>): int
    decreases |frames|
  {
    if |frames| == 0 then 0
    else (if Loud(frames[0].volume) then frames[0].now - prev else 0) + LoudTime(frames[0].now, frames[1..])
  }

  /**
    Over a running measurement the two buckets together grow by exactly the
    gaps before the loud buffers, and the previous buffer time ends at the last
    buffer's time.
  */
  lemma {:induction false} RunCreditsLoudTime(m: Meeting, profile: Option<VoiceProfile>, frames: seq<AudioFrame>)
    requires m.isMeeting
    ensures var r := RunMeeting(m, profile, frames);
      && r.isMeeting
      && r.managerMs + r.memberMs == m.managerMs + m.memberMs + LoudTime(m.lastUpdate, frames)
      && r.lastUpdate == (if |frames| == 0 then m.lastUpdate else frames[|frames| - 1].now)
    decreases |frames|
  {
    if |frames| > 0 {
      RunCreditsLoudTime(MeetingTick(m, profile, frames[0]), profile, frames[1..]);
    }
  }

  /** The buffer times never go backwards, starting from `prev`. */
  predicate Chronological(prev: int, frames: seq<AudioFrame>) {
    && (|frames| > 0 ==> prev <= frames[0].now)
    && forall i :: 0 < i < |frames| ==> frames[i - 1].now <= frames[i].now
  }

  /**
    With a clock that never goes backwards, the credited speaking time is never
    negative and never exceeds the wall-clock time the buffers span.
  */
  lemma {:induction false} LoudTimeBounded(prev: int, frames: seq<AudioFrame>)
    requires Chronological(prev, frames)
    ensures 0 <= LoudTime(prev, frames)
    ensures |frames| > 0 ==> LoudTime(prev, frames) <= frames[|frames| - 1].now - prev
    decreases |frames|
  {
    if |frames| > 0 {
      assert Chronological(frames[0].now, frames[1..]) by {
        forall i | 0 < i < |frames[1..]| ensures frames[1..][i - 1].now <= frames[1..][i].now {
          assert frames[1..][i] == frames[i + 1];
        }
      }
      LoudTimeBounded(frames[0].now, frames[1..]);
    }
  }

  /** Without a stored profile every loud buffer is the member's: the manager's bucket never grows. */
  lemma {:induction false} NoProfileCreditsOnlyMember(m: Meeting, frames: seq<AudioFrame>)
    ensures RunMeeting(m, None, frames).managerMs == m.managerMs
    decreases |frames|
  {
    if |frames| > 0 {
      NoProfileCreditsOnlyMember(MeetingTick(m, None, frames[0]), frames[1..]);
    }
  }

  /**
    `startMeeting`: nothing happens while a measurement runs, without a stored
    profile, or when the microphone cannot be opened. Otherwise the measurement
    runs from `now` with both buckets zeroed.
  */
  function StartMeeting(m: Meeting, profile: Option<VoiceProfile>, microphoneOpened: bool, now: int): (m': Meeting)
    ensures m.isMeeting || profile.None? || !microphoneOpened ==> m' == m
    ensures !m.isMeeting && profile.Some? && microphoneOpened ==>
      && m'.isMeeting
      && m'.meetingStart == now
      && m'.lastUpdate == now
      && m'.managerMs == 0
      && m'.memberMs == 0
  {
    if m.isMeeting || profile.None? || !microphoneOpened then m
    else Meeting(true, now, now, 0, 0)
  }

  /** What `stopMeeting` leaves behind, and the summary it shows (None when it did nothing). */
  datatype StopOutcome = StopOutcome(
    meeting: Meeting,
    summary: Option<Result<Report.Summary, Report.SummaryError>>)

  /**
    `stopMeeting`: a no-op when no measurement runs. Otherwise it clears
    `isMeeting` and summarizes the buckets; when nothing was spoken the summary
    fails and the buckets are reset.
  */
  function StopMeeting(m: Meeting): (o: StopOutcome)
    ensures !m.isMeeting ==> o == StopOutcome(m, None)
    ensures m.isMeeting ==>
      && !o.meeting.isMeeting
      && o.meeting.meetingStart == m.meetingStart
      && o.meeting.lastUpdate == m.lastUpdate
      && o.summary == Some(Report.Summarize(m.managerMs as real, m.memberMs as real))
      && (o.summary.value.Err? <==> m.managerMs + m.memberMs == 0)
      && (o.summary.value.Err? ==> o.meeting.managerMs == 0 && o.meeting.memberMs == 0)
      && (o.summary.value.Ok? ==> o.meeting.managerMs == m.managerMs && o.meeting.memberMs == m.memberMs)
  {
    if !m.isMeeting then StopOutcome(m, None)
    else
      var stopped := m.(isMeeting := false);
      var summary := Report.Summarize(m.managerMs as real, m.memberMs as real);
      if summary.Err? then StopOutcome(ResetMeeting(stopped), Some(summary))
      else StopOutcome(stopped, Some(summary))
  }

  /** `resetMeeting`: zeroes both buckets and touches nothing else. */
  function ResetMeeting(m: Meeting): (m': Meeting)
    ensures m'.managerMs == 0 && m'.memberMs == 0
    ensures m'.isMeeting == m.isMeeting && m'.meetingStart == m.meetingStart && m'.lastUpdate == m.lastUpdate
  {
    m.(managerMs := 0, memberMs := 0)
  }

  /**
    A measurement started at `start` and fed buffers whose clock never goes
    backwards ends, when stopped, with ratios in [0, 100] that sum to 100, or
    with "no speech" when no loud buffer arrived after a gap.
  */
  lemma ChronologicalMeetingSummary(m: Meeting, profile: Option<VoiceProfile>, micOpened: bool, start: int, frames: seq<AudioFrame>)
    requires Chronological(start, frames)
    requires !m.isMeeting && profile.Some? && micOpened
    ensures var r := RunMeeting(StartMeeting(m, profile, micOpened, start), profile, frames);
      var o := StopMeeting(r);
      && o.summary.Some?
      && (o.summary.value.Err? <==> LoudTime(start, frames) == 0)
      && (o.summary.value.Ok? ==>
        && o.summary.value.value.managerRatio + o.summary.value.value.memberRatio == 100.0
        && 0.0 <= o.summary.value.value.managerRatio <= 100.0
        && 0.0 <= o.summary.value.value.memberRatio <= 100.0)
  {
    var m0 := StartMeeting(m, profile, micOpened, start);
    RunCreditsLoudTime(m0, profile, frames);
    LoudTimeBounded(start, frames);
    BucketsNeverShrink(m0, profile, frames);
  }

  /** With a clock that never goes backwards each bucket only grows. */
  lemma {:induction false} BucketsNeverShrink(m: Meeting, profile: Option<VoiceProfile>, frames: seq<AudioFrame>)
    requires m.isMeeting && Chronological(m.lastUpdate, frames)
    ensures var r := RunMeeting(m, profile, frames);
      r.managerMs >= m.managerMs && r.memberMs >= m.memberMs
    decreases |frames|
  {
    if |frames| > 0 {
      var m1 := MeetingTick(m, profile, frames[0]);
      assert Chronological(m1.lastUpdate, frames[1..]) by {
        forall i | 0 < i < |frames[1..]| ensures frames[1..][i - 1].now <= frames[1..][i].now {
          assert frames[1..][i] == frames[i + 1];
        }
      }
      BucketsNeverShrink(m1, profile, frames[1..]);
    }
  }


  // ---------------------------------------------------------------------------
  // Registration
  // ---------------------------------------------------------------------------

  /** The registration state: `isRegistering`, `registrationData` and `registrationStartTime`. */
  datatype Registration = Registration(isRegistering: bool, data: seq<Sample>, startTime: int)

  /** Every sample was recorded from a loud buffer. */
  predicate AllLoud(data: seq<Sample>) {
    forall i :: 0 <= i < |data| ==> Loud(data[i].volume)
  }

  /** A profile as registration saves it: at least one sample, all loud, and a correct sample count. */
  predicate WellFormedProfile(p: VoiceProfile) {
    |p.data| > 0 && p.sampleCount == |p.data| && AllLoud(p.data)
  }

  /**
    `startVoiceRegistration`: nothing happens while registering; when the
    microphone cannot be opened registration stays off; otherwise recording
    starts from `now` with no samples.
  */
  function StartRegistration(r: Registration, microphoneOpened: bool, now: int): (r': Registration)
    ensures r.isRegistering || !microphoneOpened ==> r' == r
    ensures !r.isRegistering && microphoneOpened ==> r'.isRegistering && r'.data == [] && r'.startTime == now
  {
    if r.isRegistering || !microphoneOpened then r else Registration(true, [], now)
  }

  /**
    The countdown shown while registering:
    `Math.max(0, Math.ceil((10000 - elapsed) / 1000))` whole seconds. It is 0
    exactly when the ten seconds are over, and otherwise the smallest whole
    number of seconds covering the time left.
  */
  function Remaining(elapsed: int): (n: int)
    ensures n >= 0
    ensures n == 0 <==> elapsed >= RegistrationDurationMs
    ensures elapsed < RegistrationDurationMs ==>
      (n - 1) * TextFormat.MsPerSecond < RegistrationDurationMs - elapsed <= n * TextFormat.MsPerSecond
  {
    var left := RegistrationDurationMs - elapsed;
    var ceiling := -((-left) / TextFormat.MsPerSecond);
    if ceiling > 0 then ceiling else 0
  }

  /** What `stopVoiceRegistration` leaves behind, and the profile it saves, if any. */
  datatype RegistrationStop = RegistrationStop(registration: Registration, saved: Option<VoiceProfile>)

  /**
    `stopVoiceRegistration`: a no-op when not registering. Otherwise recording
    stops, and a profile holding all recorded samples, stamped `now`, is saved
    exactly when at least one sample was recorded.
  */
  function StopRegistration(r: Registration, now: int): (o: RegistrationStop)
    ensures !r.isRegistering ==> o == RegistrationStop(r, None)
    ensures r.isRegistering ==>
      && !o.registration.isRegistering
      && o.registration.data == r.data
      && o.registration.startTime == r.startTime
      && (o.saved.Some? <==> |r.data| > 0)
    ensures o.saved.Some? ==>
      && o.saved.value.data == r.data
      && o.saved.value.sampleCount == |r.data|
      && o.saved.value.timestamp == now
    ensures AllLoud(r.data) && o.saved.Some? ==> WellFormedProfile(o.saved.value)
  {
    if !r.isRegistering then RegistrationStop(r, None)
    else
      var stopped := r.(isRegistering := false);
      if |r.data| > 0 then RegistrationStop(stopped, Some(VoiceProfile(r.data, now, |r.data|)))
      else RegistrationStop(stopped, None)
  }

  /** What one registration callback leaves behind: the state, the countdown shown, a saved profile. */
  datatype RegistrationTick = RegistrationTick(
    registration: Registration,
    remaining: Option<int>,
    saved: Option<VoiceProfile>)

  /**
    The registration audio callback. It does nothing unless registering. A loud
    buffer is appended as a sample and a quiet one is dropped. The countdown is
    shown, and once ten seconds have elapsed registration stops by itself.
  */
  function RegistrationFrame(r: Registration, f: AudioFrame): (t: RegistrationTick)
    ensures !r.isRegistering ==> t == RegistrationTick(r, None, None)
    ensures r.isRegistering ==>
      var elapsed := f.now - r.startTime;
      && t.registration.startTime == r.startTime
      && |t.registration.data| >= |r.data|
      && t.registration.data[..|r.data|] == r.data
      && (Loud(f.volume) ==> t.registration.data == r.data + [Sample(f.volume, f.frequency, f.now)])
      && (!Loud(f.volume) ==> t.registration.data == r.data)
      && t.remaining == Some(Remaining(elapsed))
      && (t.registration.isRegistering <==> elapsed < RegistrationDurationMs)
      && (t.saved.Some? <==> elapsed >= RegistrationDurationMs && |t.registration.data| > 0)
    ensures AllLoud(r.data) ==> AllLoud(t.registration.data)
    ensures AllLoud(r.data) && t.saved.Some? ==>
      WellFormedProfile(t.saved.value) && t.saved.value.data == t.registration.data
  {
    if !r.isRegistering then RegistrationTick(r, None, None)
    else
      var data := if Loud(f.volume) then r.data + [Sample(f.volume, f.frequency, f.now)] else r.data;
      var recorded := r.(data := data);
      var elapsed := f.now - r.startTime;
      if elapsed >= RegistrationDurationMs then
        var stop := StopRegistration(recorded, f.now);
        RegistrationTick(stop.registration, Some(Remaining(elapsed)), stop.saved)
      else RegistrationTick(recorded, Some(Remaining(elapsed)), None)
  }

  /** The registration after the buffers are handled in order, and the profiles saved on the way. */
  function RunRegistration(r: Registration, frames: seq<AudioFrame>): (Registration, seq<VoiceProfile>)
    decreases |frames|
  {
    if |frames| == 0 then (r, [])
    else
      var t := RegistrationFrame(r, frames[0]);
      var rest := RunRegistration(t.registration, frames[1..]);
      var saved := if t.saved.Some? then [t.saved.value] else [];
      (rest.0, saved + rest.1)
  }

  /**
    Every sample ever recorded came from a loud buffer, and every profile a
    registration run saves has at least one sample, all loud, with a matching
    sample count, so the NaN case of `identifySpeaker` cannot arise from it.
  */
  lemma {:induction false} RegistrationSavesWellFormedProfiles(r: Registration, frames: seq<AudioFrame>)
    requires AllLoud(r.data)
    ensures var run := RunRegistration(r, frames);
      && AllLoud(run.0.data)
      && forall i :: 0 <= i < |run.1| ==> WellFormedProfile(run.1[i])
    decreases |frames|
  {
    if |frames| > 0 {
      var t := RegistrationFrame(r, frames[0]);
      RegistrationSavesWellFormedProfiles(t.registration, frames[1..]);
    }
  }

  /** Registration saves at most one profile: after the automatic stop later buffers do nothing. */
  lemma {:induction false} RegistrationSavesAtMostOnce(r: Registration, frames: seq<AudioFrame>)
    ensures |RunRegistration(r, frames).1| <= 1
    ensures !r.isRegistering ==> RunRegistration(r, frames) == (r, [])
    decreases |frames|
  {
    if |frames| > 0 {
      var t := RegistrationFrame(r, frames[0]);
      RegistrationSavesAtMostOnce(t.registration, frames[1..]);
    }
  }

  /**
    Registration ends by its deadline: once any buffer arrives ten seconds or
    more after the start, recording has stopped for good.
  */
  lemma {:induction false} RegistrationStopsAtDeadline(r: Registration, frames: seq<AudioFrame>, i: nat)
    requires i < |frames| && frames[i].now - r.startTime >= RegistrationDurationMs
    ensures !RunRegistration(r, frames).0.isRegistering
    decreases |frames|
  {
    var t := RegistrationFrame(r, frames[0]);
    if !r.isRegistering {
      RegistrationSavesAtMostOnce(r, frames);
    } else if i == 0 {
      RegistrationSavesAtMostOnce(t.registration, frames[1..]);
    } else {
      assert frames[1..][i - 1] == frames[i];
      RegistrationStopsAtDeadline(t.registration, frames[1..], i - 1);
    }
  }

  /**
    A registration started with the microphone open and fed any buffers saves
    at most one profile, and that profile is well formed: it can be used by
    `identifySpeaker` without reaching the NaN case.
  */
  lemma FreshRegistrationProfile(r: Registration, now: int, frames: seq<AudioFrame>)
    requires !r.isRegistering
    ensures var run := RunRegistration(StartRegistration(r, true, now), frames);
      && |run.1| <= 1
      && (|run.1| == 1 ==> WellFormedProfile(run.1[0]) && run.1[0].data == run.0.data)
  {
    var r0 := StartRegistration(r, true, now);
    RegistrationSavesAtMostOnce(r0, frames);
    RegistrationSavesWellFormedProfiles(r0, frames);
    if |RunRegistration(r0, frames).1| == 1 {
      SavedProfileIsFinalData(r0, frames);
    }
  }

  /** A profile saved during a run holds the samples the registration ends with. */
  lemma {:induction false} SavedProfileIsFinalData(r: Registration, frames: seq<AudioFrame>)
    requires |RunRegistration(r, frames).1| == 1
    ensures RunRegistration(r, frames).1[0].data == RunRegistration(r, frames).0.data
    decreases |frames|
  {
    var t := RegistrationFrame(r, frames[0]);
    if t.saved.Some? {
      RegistrationSavesAtMostOnce(t.registration, frames[1..]);
    } else {
      SavedProfileIsFinalData(t.registration, frames[1..]);
    }
  }
}
