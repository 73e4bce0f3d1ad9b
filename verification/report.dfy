/**
  The post-meeting summary shared by both variants of the meter: the speaking
  ratios computed when a measurement stops, the "no speech detected" failure,
  and the three-way advice classification of the manager's ratio.
*/
module Report {
  import opened Options

  /** The manager's share above which the advice is to listen more. */
  const ManagerHeavyAbove: real := 60.0
  /** The manager's share below which the advice is to add feedback. */
  const MemberHeavyBelow: real := 30.0

  /** The three advice messages of `showAdvice`. */
  datatype Advice =
    | ManagerDominant   // the manager talks too much: listen more
    | MemberDominant    // the member talks most: add feedback and advice
    | Balanced          // a good balance

  /** `showAdvice`: classifies the manager's speaking ratio (a percentage). */
  function Advise(managerRatio: real): (a: Advice)
    ensures a == ManagerDominant <==> managerRatio > ManagerHeavyAbove
    ensures a == MemberDominant <==> managerRatio < MemberHeavyBelow
    ensures a == Balanced <==> MemberHeavyBelow <= managerRatio <= ManagerHeavyAbove
  {
    if managerRatio > ManagerHeavyAbove then ManagerDominant
    else if managerRatio < MemberHeavyBelow then MemberDominant
    else Balanced
  }

  /** How manager-heavy an advice category is: member-dominant < balanced < manager-dominant. */
  function Weight(a: Advice): int {
    match a
    case MemberDominant => 0
    case Balanced => 1
    case ManagerDominant => 2
  }

  /** A larger manager ratio never yields a less manager-heavy advice. */
  lemma AdviceMonotone(r1: real, r2: real)
    requires r1 <= r2
    ensures Weight(Advise(r1)) <= Weight(Advise(r2))
  {
  }

  /** The values shown in the result area once a measurement stops. */
  datatype Summary = Summary(
    totalMs: real,
    managerMs: real,
    memberMs: real,
    managerRatio: real,
    memberRatio: real,
    advice: Advice)

  /** The only failure of the summary: nothing was credited to either speaker. */
  datatype SummaryError = NoSpeechDetected

  /**
    `showMeetingResult`: the total, each speaker's percentage of it, and the advice
    for the manager's percentage; fails with `NoSpeechDetected` when the total is 0.
  */
  function Summarize(managerMs: real, memberMs: real): (r: Result<Summary, SummaryError>)
    ensures r.Err? <==> managerMs + memberMs == 0.0
    ensures r.Ok? ==>
      && r.value.totalMs == managerMs + memberMs
      && r.value.managerMs == managerMs
      && r.value.memberMs == memberMs
      && r.value.managerRatio * r.value.totalMs == managerMs * 100.0
      && r.value.memberRatio * r.value.totalMs == memberMs * 100.0
      && r.value.managerRatio + r.value.memberRatio == 100.0
      && r.value.advice == Advise(r.value.managerRatio)
    ensures r.Ok? && managerMs >= 0.0 && memberMs >= 0.0 ==>
      && 0.0 <= r.value.managerRatio <= 100.0
      && 0.0 <= r.value.memberRatio <= 100.0
  {
    var total := managerMs + memberMs;
    if total == 0.0 then Err(NoSpeechDetected)
    else
      var managerRatio := (managerMs / total) * 100.0;
      var memberRatio := (memberMs / total) * 100.0;
      RatiosSumToHundred(managerMs, memberMs);
      Ok(Summary(total, managerMs, memberMs, managerRatio, memberRatio, Advise(managerRatio)))
  }

  lemma RatiosSumToHundred(managerMs: real, memberMs: real)
    requires managerMs + memberMs != 0.0
    ensures var total := managerMs + memberMs;
      (managerMs / total) * 100.0 + (memberMs / total) * 100.0 == 100.0
    ensures var total := managerMs + memberMs;
      managerMs >= 0.0 && memberMs >= 0.0 ==>
        0.0 <= (managerMs / total) * 100.0 <= 100.0 && 0.0 <= (memberMs / total) * 100.0 <= 100.0
  {
    var total := managerMs + memberMs;
    assert managerMs / total + memberMs / total == total / total;
  }

  /**
    The advice read directly off the two speaking times, without ratios: with
    non-negative times and some speech, the manager dominates exactly when
    2 * manager > 3 * member (a share above 60%), and the member dominates
    exactly when 7 * manager < 3 * member (a share below 30%).
  */
  lemma AdviceFromSpeakingTimes(managerMs: real, memberMs: real)
    requires managerMs >= 0.0 && memberMs >= 0.0 && managerMs + memberMs > 0.0
    ensures Summarize(managerMs, memberMs).Ok?
    ensures var a := Summarize(managerMs, memberMs).value.advice;
      && (a == ManagerDominant <==> 2.0 * managerMs > 3.0 * memberMs)
      && (a == MemberDominant <==> 7.0 * managerMs < 3.0 * memberMs)
      && (a == Balanced <==> 3.0 * memberMs <= 7.0 * managerMs && 2.0 * managerMs <= 3.0 * memberMs)
  {
    var total := managerMs + memberMs;
    var s := Summarize(managerMs, memberMs).value;
    assert s.managerRatio * total == managerMs * 100.0;
    RatioAgainstBand(s.managerRatio, total, managerMs, ManagerHeavyAbove);
    RatioAgainstBand(s.managerRatio, total, managerMs, MemberHeavyBelow);
  }

  /** Comparing a ratio with a band is comparing the share with the band's part of the total. */
  lemma RatioAgainstBand(ratio: real, total: real, part: real, band: real)
    requires total > 0.0 && ratio * total == part * 100.0
    ensures ratio > band <==> part * 100.0 > band * total
    ensures ratio < band <==> part * 100.0 < band * total
  {
    if ratio > band {
      assert ratio * total > band * total;
    } else if ratio < band {
      assert ratio * total < band * total;
    }
  }

  /** Exchanging the two speakers exchanges their ratios. */
  lemma SwapSpeakers(managerMs: real, memberMs: real)
    requires managerMs + memberMs != 0.0
    ensures Summarize(memberMs, managerMs).Ok? && Summarize(managerMs, memberMs).Ok?
    ensures Summarize(memberMs, managerMs).value.managerRatio == Summarize(managerMs, memberMs).value.memberRatio
    ensures Summarize(memberMs, managerMs).value.memberRatio == Summarize(managerMs, memberMs).value.managerRatio
  {
    assert memberMs + managerMs == managerMs + memberMs;
  }
}
