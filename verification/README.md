# 1on1 speaking-ratio meter: a Dafny model

The application measures how long a manager and a team member each speak during a
one-on-one meeting. When the meeting ends, it shows each person's share and advice
based on the manager's share. It comes in two browser variants:

- **Azure variant** (`src/js/script-azure.js`). A conversation transcriber delivers
  final recognitions tagged with speaker ids. The first speaker heard is taken to be
  the manager ("first speaker wins"). Each recognition's duration is converted from
  100-ns ticks to milliseconds and credited to the manager's or the member's bucket.
- **Web Audio variant** (`src/js/script.js`). An audio callback reports each
  buffer's volume and low-frequency level. A 10-second registration stores the loud
  buffers as the manager's voice profile. During a measurement, each loud buffer
  credits the time since the previous buffer. It goes to the manager when its
  frequency level is strictly within 30 of the profile's mean frequency, and to the
  member otherwise.

Both variants share the summary (ratios, the "no speech detected" failure and the
three advice bands) and the formatting (`formatTime` and the `mm:ss` clock).

The model is functional. Each variant's module-level variables form an immutable
record. Each handler (`startMeeting`, `stopMeeting`, `resetMeeting`, the transcriber
handlers, the audio callbacks, registration start and stop) is a pure step from one
record to the next. Clock readings, measured volumes and frequencies, the stored
profile and the outcomes of SDK and microphone calls are parameters.

Files:

- `options.dfy`: `Option` and `Result`.
- `text_format.dfy` (module `TextFormat`): `Math.round`, `String(n)`, `padStart`,
  `formatTime` and the meeting clock `updateMeetingTimer`. `String(n)`, the
  `formatTime` label and the clock text (for a non-negative elapsed time) have
  decoders with round-trip proofs. `Math.round` is characterized by its rounding
  window and `padStart` by its length, suffix and fill. The two scripts contain identical copies of this code:
  `script-azure.js:612-629` and `script.js:583-600`.
- `report.dfy` (module `Report`): `showMeetingResult` ratio math and `showAdvice`.
  The two scripts contain identical copies of this code: `script-azure.js:634-755`
  and `script.js:605-726`.
- `azure_session.dfy` (module `AzureSession`): the Azure variant.
- `web_audio_session.dfy` (module `WebAudioSession`): the Web Audio variant.

## Model

| member | source | states |
|---|---|---|
| TextFormat.RoundHalfUp | src/js/script-azure.js:627 | `Math.round` yields the integer n with n - 0.5 <= x < n + 0.5 (ties go up) |
| TextFormat.RoundHalfUpUnique | src/js/script-azure.js:627 | exactly one integer satisfies that rounding window |
| TextFormat.IntTextRoundTrip | src/js/script-azure.js:620 | `String(n)` of any integer, negative ones included, reads back as n |
| TextFormat.DigitsRoundTrip | src/js/script-azure.js:620 | the decimal digits of a natural number read back as that number |
| TextFormat.PadStart | src/js/script-azure.js:620 | `padStart` keeps the text as a suffix and fills the front with the fill char up to the width |
| TextFormat.ZeroPaddedValue | src/js/script-azure.js:620 | zero padding never changes the number a digit string denotes |
| TextFormat.FormatTime | src/js/script-azure.js:626-629 | the "N秒" label reads back as the whole seconds nearest to ms/1000 |
| TextFormat.JsRemainder | src/js/script-azure.js:617 | JavaScript `%`: a = b*q + r with q the quotient truncated toward zero; r lies in [0, b) for a non-negative dividend and in (-b, 0] for a negative one |
| TextFormat.ClockCountsWholeSeconds | src/js/script-azure.js:615-617 | for elapsed >= 0: minutes >= 0, seconds in [0, 60), and minutes*60 + seconds = whole seconds elapsed |
| TextFormat.ClockRoundTrip | src/js/script-azure.js:615-620 | for elapsed >= 0 the `mm:ss` text decodes back to the two clock fields, and the minutes field has at least two digits and the seconds field exactly two |
| TextFormat.MeetingTimer | src/js/script-azure.js:612-621 | shared with script.js:583-592. No display unless meeting; otherwise the `mm:ss` text decodes to minutes (at least two digits) and seconds < 60 (exactly two digits) that together count the whole seconds since the start |
| Report.Advise | src/js/script-azure.js:737-749 | manager-dominant iff ratio > 60, member-dominant iff ratio < 30, balanced iff 30 <= ratio <= 60: exactly one band, both boundaries balanced |
| Report.AdviceMonotone | src/js/script-azure.js:737-749 | a higher manager ratio never gives a less manager-heavy advice |
| Report.Summarize | src/js/script-azure.js:637-646 | fails with NoSpeechDetected iff total = 0; otherwise ratio*total = part*100 for each speaker, ratios sum to 100, each is in [0, 100] for non-negative times, and the advice is that of the manager's ratio |
| Report.RatiosSumToHundred | src/js/script-azure.js:645-646 | the two percentages of a non-zero total sum to 100, and each is in [0, 100] for non-negative parts |
| Report.AdviceFromSpeakingTimes | src/js/script-azure.js:637-663 | from the raw times: manager-dominant iff 2*manager > 3*member, member-dominant iff 7*manager < 3*member, balanced otherwise |
| Report.RatioAgainstBand | src/js/script-azure.js:737-741 | comparing a ratio with a band equals comparing the part*100 with band*total |
| Report.SwapSpeakers | src/js/script-azure.js:645-646 | exchanging the two speakers' times exchanges their ratios |
| AzureSession.SpeakerOrUnknown | src/js/script-azure.js:482 | a missing or empty speaker id becomes "Unknown"; a non-empty id is kept; the result is never empty |
| AzureSession.TicksToMs | src/js/script-azure.js:484 | the credited duration is ticks/10000 ms and is non-negative |
| AzureSession.IdentifySpeaker | src/js/script-azure.js:538-550 | with no first speaker (null or ""), the speaker is recorded and is the manager; afterwards the manager is exactly the recorded speaker, and the record is unchanged |
| AzureSession.OnEvent | src/js/script-azure.js:474-518 | interim events and non-RecognizedSpeech results change nothing; a recognized result credits its duration to exactly the bucket `identifySpeaker` picks, the other is unchanged, the total grows by exactly that duration, and a first speaker is then recorded |
| AzureSession.ReplayAfterFirstSpeaker | src/js/script-azure.js:538-550 | once recorded, the first speaker never changes over any event sequence; the manager bucket gains exactly that speaker's credited time and the member bucket everyone else's |
| AzureSession.ReplayFromFreshSession | src/js/script-azure.js:492-513 | with no first speaker, the first recognized speaker becomes the manager and collects exactly their own credited time; with no recognized event the session is unchanged |
| AzureSession.ReplayKeepsValid | src/js/script-azure.js:497-513 | handling any events keeps both buckets non-negative |
| AzureSession.NoCreditedSpeakerNoTime | src/js/script-azure.js:481 | a sequence with no recognized result credits no time |
| AzureSession.StartMeeting | src/js/script-azure.js:397-465 | no change while meeting, unregistered, unconfigured or when the transcriber cannot be built; otherwise both buckets are zeroed, the start time is recorded, the first speaker is kept, and the meeting runs unless recognition fails to start |
| AzureSession.StopMeeting | src/js/script-azure.js:563-607 | no-op when not meeting; otherwise clears `isMeeting` and the first speaker and summarizes; a zero total yields NoSpeechDetected and a reset, any other total keeps the buckets |
| AzureSession.ResetMeeting | src/js/script-azure.js:760-767 | both buckets become 0 and the first speaker is unset whatever the prior state; `isMeeting` is untouched |
| AzureSession.ResetIdempotent | src/js/script-azure.js:760-767 | resetting twice equals resetting once |
| AzureSession.ResetForgetsManager | src/js/script-azure.js:764-766 | after a reset the next recognized speaker becomes the manager and gets that event's whole duration |
| AzureSession.MeasurementSummary | src/js/script-azure.js:637-646 | start, events, stop: the summary fails iff no speech was credited; otherwise manager time = the first speaker's credited time, total = all credited time, ratios in [0, 100] summing to 100 |
| WebAudioSession.IdentifySpeaker | src/js/script.js:433-460 | member without a profile or with an empty sample list (NaN mean); otherwise manager iff abs(frequency - mean) < 30, strictly |
| WebAudioSession.FrequencySumWithin | src/js/script.js:444 | the sum of n sample frequencies in [lo, hi] lies in [n*lo, n*hi] |
| WebAudioSession.MeanWithin | src/js/script.js:444 | the profile's mean frequency lies between its lowest and highest sample frequency |
| WebAudioSession.FarFromProfileIsMember | src/js/script.js:444-449 | a frequency at least 30 outside the registered range is always the member |
| WebAudioSession.NearProfileIsManager | src/js/script.js:444-449 | a frequency strictly within 30 of both ends of the registered range is always the manager |
| WebAudioSession.MeetingTick | src/js/script.js:500-535 | no-op when not meeting; otherwise a loud buffer (volume > 30) credits now - lastUpdate to exactly the chosen bucket, a quiet one credits nothing, and lastUpdate becomes now |
| WebAudioSession.RunCreditsLoudTime | src/js/script.js:503-534 | over any buffer sequence the buckets together gain exactly the gaps before the loud buffers, and lastUpdate ends at the last buffer's time |
| WebAudioSession.LoudTimeBounded | src/js/script.js:503-534 | with a clock that never goes back, credited time is >= 0 and never exceeds the wall-clock time spanned |
| WebAudioSession.BucketsNeverShrink | src/js/script.js:510-521 | with a clock that never goes back, neither bucket ever shrinks |
| WebAudioSession.NoProfileCreditsOnlyMember | src/js/script.js:435-439 | without a stored profile the manager bucket never changes |
| WebAudioSession.StartMeeting | src/js/script.js:465-543 | no change while meeting, without a profile, or when the microphone fails; otherwise meeting from now with lastUpdate = now and both buckets 0 |
| WebAudioSession.StopMeeting | src/js/script.js:548-578 | no-op when not meeting; otherwise clears `isMeeting`, keeps the start time and lastUpdate, and summarizes; the summary fails iff the total is 0, and then both buckets are zeroed |
| WebAudioSession.ResetMeeting | src/js/script.js:731-737 | both buckets become 0; `isMeeting`, start time and lastUpdate are untouched |
| WebAudioSession.ChronologicalMeetingSummary | src/js/script.js:605-617 | start, buffers with a non-decreasing clock, stop: fails iff no loud time was credited; otherwise ratios in [0, 100] summing to 100 |
| WebAudioSession.StartRegistration | src/js/script.js:302-363 | no change while registering or when the microphone fails; otherwise recording starts at now with no samples |
| WebAudioSession.Remaining | src/js/script.js:344-345 | the countdown is >= 0, is 0 exactly when 10 s have elapsed, and otherwise is the least whole number of seconds covering the time left |
| WebAudioSession.StopRegistration | src/js/script.js:368-389 | no-op when not registering; otherwise stops, keeping the samples and the start time, and a profile of all samples with sampleCount = number of samples is saved iff at least one was recorded |
| WebAudioSession.RegistrationFrame | src/js/script.js:323-353 | no-op when not registering; a loud buffer is appended as a sample and a quiet one dropped; the countdown is shown; registration stops, and saves a profile when it has samples, exactly when elapsed >= 10000 |
| WebAudioSession.RegistrationSavesWellFormedProfiles | src/js/script.js:333-339 | every recorded sample has volume > 30, and every saved profile is non-empty with sampleCount = number of samples |
| WebAudioSession.RegistrationStopsAtDeadline | src/js/script.js:344-352 | once any buffer arrives 10 s or more after the start, registration has stopped for good |
| WebAudioSession.FreshRegistrationProfile | src/js/script.js:311-315 | a freshly started registration saves at most one profile, well formed and holding exactly the recorded samples |
| WebAudioSession.SavedProfileIsFinalData | src/js/script.js:382-387 | a profile saved during a run holds the samples the registration ends with |
| WebAudioSession.RegistrationSavesAtMostOnce | src/js/script.js:349-352 | a registration saves at most one profile; once stopped, later buffers do nothing |

## Notes on the code

- The Azure script's `transcribed` handler never checks `isMeeting`, so recognition
  events that arrive after `stopMeeting` are still credited, and the model keeps this
  (`AzureSession.OnEvent`). Because `stopMeeting` also clears the first speaker, the
  speaker of such a late event becomes the next first speaker.
- The Azure `startMeeting` does not clear the first speaker. Only `stopMeeting` and
  `resetMeeting` do, and the model keeps this.

## Left out

- Presentation: tab switching, progress-bar widths, `innerHTML`/`className` updates,
  the live speaking-time text and the Chart.js pie chart only render values the model
  computes.
- Storage: `localStorage` reads and writes, Azure settings save/load/check, and
  registration status checks. The Web Audio profile is an `Option<VoiceProfile>`
  parameter, and the Azure checks are the booleans `registered` and `configured`.
  `clearVoiceRegistration` only removes storage keys behind a `confirm` dialog, so
  it amounts to passing `None` or `false`.
- The Azure registration flow (`startVoiceRegistration`, `completeVoiceRegistration`,
  `stopVoiceRegistration`): a simulated timer countdown. Its only lasting effect is
  storing a `'profile_' + Date.now()` id, which the model represents as `registered`.
- The Speech SDK: creating `SpeechConfig`, `ConversationTranscriber` and the async
  start and stop callbacks. Their outcomes are the `TranscriberStart` parameter. The
  `canceled` and `sessionStopped` handlers only log.
- Web Audio signal processing: `getVolume` (RMS with `sqrt`) and
  `getFrequencyCharacteristics` (FFT bins). Volume and frequency are inputs of each
  `AudioFrame`.
- Clocks and timers: `setInterval`/`setTimeout` are not modelled. Each step takes the
  clock reading `now` as a parameter. When one callback reads `Date.now()` several
  times, the model uses a single reading.
- `lastSpeakingTime` in the Azure variant is assigned but never read.
- AzureSession.TicksToMs: durations and both bucket sums are exact reals, while the
  script rounds each `duration / 10000` quotient and each `+=` to an IEEE double.
  The equalities of `AzureSession.ReplayAfterFirstSpeaker`,
  `AzureSession.ReplayFromFreshSession` and `AzureSession.MeasurementSummary` hold in
  the script only up to that rounding, and when durations are not whole milliseconds
  the advice at exactly 60 % or 30 % can differ (57 and 38 ticks give 60 % exactly
  here but slightly above 60 % in doubles). The Web Audio profile mean
  (`WebAudioSession.MeanFrequency`) is likewise exact rather than a double.
- Report.Summarize: real arithmetic is exact, so the ratios sum to exactly 100. The
  script's IEEE doubles sum to 100 only up to rounding, and NaN and infinite inputs
  are not modelled.
- TextFormat.FormatTime: the contract covers finite real inputs only. JavaScript's
  `Math.round` of NaN or an infinity is not modelled.
- TextFormat.MeetingTimer: when the clock went backwards (negative elapsed time),
  the contract only promises that some text is shown. The text follows JavaScript's
  `%` and `Math.floor` (`TextFormat.JsRemainder`), but its reading is not stated.
- Console logging, `alert` and `confirm` dialogs.
