/** The answer recorder: the remaining-time display, the choice of
    recording format and file extension, the one-second countdown that ends
    the recording, and the collection of recorded chunks. The microphone,
    the media recorder and the transcription upload are outside the model;
    their outcomes arrive as parameters. */
module AudioRecording {

  // ----- Decimal text, as Number#toString writes integers -----

  predicate IsDigit(c: char)
  {
    '0' <= c <= '9'
  }

  predicate IsDecimal(s: string)
  {
    |s| > 0 && forall i :: 0 <= i < |s| ==> IsDigit(s[i])
  }

  function DigitChar(d: nat): (c: char)
    requires d < 10
    ensures IsDigit(c) && c as int - '0' as int == d
  {
    ('0' as int + d) as char
  }

  /** The decimal text of a natural number, without leading zeros. */
  function NatToDecimal(n: nat): (s: string)
    ensures IsDecimal(s)
    ensures |s| > 1 ==> s[0] != '0'
    ensures |s| == 1 <==> n < 10
    ensures n < 100 ==> |s| <= 2
    decreases n
  {
    if n < 10 then [DigitChar(n)] else NatToDecimal(n / 10) + [DigitChar(n % 10)]
  }

  /** The number a decimal text stands for. */
  function DecimalValue(s: string): int
    requires forall i :: 0 <= i < |s| ==> IsDigit(s[i])
  {
    if s == [] then 0
    else DecimalValue(s[..|s| - 1]) * 10 + (s[|s| - 1] as int - '0' as int)
  }

  /** Reading the decimal text of a number gives the number back. */
  lemma {:induction false} DecimalRoundTrip(n: nat)
    ensures DecimalValue(NatToDecimal(n)) == n
  {
    if n >= 10 {
      var s := NatToDecimal(n);
      DecimalRoundTrip(n / 10);
      assert s[..|s| - 1] == NatToDecimal(n / 10);
    }
  }

  /** Number#toString of an integer: a minus sign before a negative one. */
  function IntToDecimal(i: int): (s: string)
    ensures |s| > 0 && (s[0] == '-' <==> i < 0)
    ensures var digits := if i < 0 then s[1..] else s;
            IsDecimal(digits) && (|digits| > 1 ==> digits[0] != '0')
            && DecimalValue(digits) == (if i < 0 then -i else i)
  {
    DecimalRoundTrip(if i < 0 then -i else i);
    if i < 0 then "-" + NatToDecimal(-i) else NatToDecimal(i)
  }

  /** String#padStart(2, '0'). */
  function PadStart2(s: string): (r: string)
    ensures |r| == if |s| >= 2 then |s| else 2
    ensures |s| >= 2 ==> r == s
    ensures |s| < 2 ==> r[2 - |s|..] == s && forall i :: 0 <= i < 2 - |s| ==> r[i] == '0'
  {
    if |s| >= 2 then s else seq(2 - |s|, _ => '0') + s
  }

  /** JavaScript's `%`: the remainder has the sign of the dividend. */
  function JsRemainder(a: int, b: int): (r: int)
    requires b > 0
    ensures a >= 0 ==> 0 <= r < b && r == a % b
    ensures a < 0 ==> -b < r <= 0
    ensures a == b * (if a >= 0 then a / b else -((-a) / b)) + r
  {
    if a >= 0 then a % b else -((-a) % b)
  }

  /** The remaining-time display `m:ss`: whole minutes (rounded down), a
      colon, and the remaining seconds padded to two digits. */
  function FormatTime(seconds: int): string
  {
    var mins := seconds / 60;
    var secs := JsRemainder(seconds, 60);
    IntToDecimal(mins) + ":" + PadStart2(IntToDecimal(secs))
  }

  /** For a non-negative count of seconds, the display reads back: the
      minutes before the colon, two digits of seconds below sixty after it,
      and minutes times sixty plus seconds is the count. */
  lemma FormatTimeReadsBack(seconds: int)
    requires seconds >= 0
    ensures var text := FormatTime(seconds);
            && |text| >= 4 && text[|text| - 3] == ':'
            && (|text| == 4 || text[0] != '0')
            && IsDecimal(text[..|text| - 3]) && IsDecimal(text[|text| - 2..])
            && DecimalValue(text[|text| - 2..]) < 60
            && DecimalValue(text[..|text| - 3]) * 60 + DecimalValue(text[|text| - 2..]) == seconds
  {
    var mins, secs := seconds / 60, seconds % 60;
    var m, ss := NatToDecimal(mins), PadStart2(NatToDecimal(secs));
    assert IntToDecimal(mins) == m && IntToDecimal(secs) == NatToDecimal(secs);
    var text := FormatTime(seconds);
    assert text == m + ":" + ss;
    assert |ss| == 2;
    assert text[0] == m[0];
    assert text[..|text| - 3] == m;
    assert text[|text| - 2..] == ss;
    DecimalRoundTrip(mins);
    DecimalRoundTrip(secs);
    if secs < 10 {
      var d := NatToDecimal(secs);
      assert ss == ['0'] + d;
      assert ss[..1] == ['0'];
      assert ss[..1][..0] == [];
    } else {
      assert ss == NatToDecimal(secs);
    }
  }

  // ----- Recording format -----

  const OpusWebm := "audio/webm;codecs=opus"
  const PlainWebm := "audio/webm"
  const Mp4Audio := "audio/mp4"

  /** The format the recorder is created with, and whether no preferred one
      was available (the empty type lets the recorder pick its own). */
  datatype MimeChoice = MimeChoice(mimeType: string, useAudioContext: bool)

  /** Tries Opus in WebM, then WebM, then MP4, keeping the first the browser
      supports (`supported`); with none of them, the empty type. */
  function ChooseMimeType(supported: set<string>): (choice: MimeChoice)
    ensures choice.useAudioContext <==> choice.mimeType == ""
    ensures choice.mimeType != "" ==> choice.mimeType in supported
    ensures choice.mimeType == OpusWebm <==> OpusWebm in supported
    ensures choice.mimeType == PlainWebm <==> OpusWebm !in supported && PlainWebm in supported
    ensures choice.mimeType == Mp4Audio <==>
              OpusWebm !in supported && PlainWebm !in supported && Mp4Audio in supported
    ensures choice.mimeType == "" <==>
              OpusWebm !in supported && PlainWebm !in supported && Mp4Audio !in supported
  {
    var first := OpusWebm;
    var second := if first !in supported then PlainWebm else first;
    var third := if second !in supported then Mp4Audio else second;
    if third !in supported then MimeChoice("", true) else MimeChoice(third, false)
  }

  /** The type the recording is labelled with: the chosen one, or the
      recorder's own when none was chosen. */
  function ActualMimeType(chosen: string, recorderMimeType: string): (mimeType: string)
    ensures chosen != "" ==> mimeType == chosen
    ensures chosen == "" ==> mimeType == recorderMimeType
  {
    if chosen != "" then chosen else recorderMimeType
  }

  /** String#includes. */
  predicate Contains(s: string, part: string)
    decreases |s|
  {
    |part| <= |s| && (s[..|part|] == part || (|s| > 0 && Contains(s[1..], part)))
  }

  /** A text holding one of `part`'s characters nowhere does not contain it. */
  lemma {:induction false} AbsentCharNotContained(s: string, part: string, k: nat)
    requires k < |part| && part[k] !in s
    ensures !Contains(s, part)
    decreases |s|
  {
    if |part| <= |s| {
      assert s[..|part|][k] == s[k];
      if |s| > 0 {
        assert forall c :: c in s[1..] ==> c in s;
        AbsentCharNotContained(s[1..], part, k);
      }
    }
  }

  /** A text contains every part found at some position in it. */
  lemma {:induction false} ContainedAt(s: string, part: string, i: nat)
    requires i + |part| <= |s| && s[i..i + |part|] == part
    ensures Contains(s, part)
    decreases i
  {
    if i > 0 {
      assert s[1..][i - 1..i - 1 + |part|] == s[i..i + |part|];
      ContainedAt(s[1..], part, i - 1);
    }
  }

  /** `part` occurs in `s` starting at position `i`. */
  predicate OccursAt(s: string, part: string, i: nat)
  {
    i + |part| <= |s| && s[i..i + |part|] == part
  }

  /** String#includes holds exactly when the part occurs at some position. */
  lemma {:induction false} ContainsIffOccurs(s: string, part: string)
    ensures Contains(s, part) <==> exists i: nat :: OccursAt(s, part, i)
    decreases |s|
  {
    if exists i: nat :: OccursAt(s, part, i) {
      var i: nat :| OccursAt(s, part, i);
      ContainedAt(s, part, i);
    }
    if Contains(s, part) && s[..|part|] != part {
      ContainsIffOccurs(s[1..], part);
      var j: nat :| OccursAt(s[1..], part, j);
      assert s[1..][j..j + |part|] == s[j + 1..j + 1 + |part|];
      assert OccursAt(s, part, j + 1);
    }
    if Contains(s, part) && s[..|part|] == part {
      assert OccursAt(s, part, 0);
    }
  }

  /** The upload's file extension: m4a for MP4 audio, ogg for Ogg, WebM
      otherwise. */
  function FileExtension(mimeType: string): (ext: string)
    ensures ext == "m4a" <==> Contains(mimeType, "mp4") || Contains(mimeType, "m4a")
    ensures ext == "ogg" <==>
              !Contains(mimeType, "mp4") && !Contains(mimeType, "m4a") && Contains(mimeType, "ogg")
    ensures ext == "webm" <==>
              !Contains(mimeType, "mp4") && !Contains(mimeType, "m4a") && !Contains(mimeType, "ogg")
  {
    if Contains(mimeType, "mp4") || Contains(mimeType, "m4a") then "m4a"
    else if Contains(mimeType, "ogg") then "ogg"
    else "webm"
  }

  /** A MIME type without the characters '4' and 'g' uploads as webm. */
  lemma WebmExtension(mimeType: string)
    requires '4' !in mimeType && 'g' !in mimeType
    ensures FileExtension(mimeType) == "webm"
  {
    AbsentCharNotContained(mimeType, "mp4", 2);
    AbsentCharNotContained(mimeType, "m4a", 1);
    AbsentCharNotContained(mimeType, "ogg", 1);
  }

  /** Both WebM formats upload with the webm extension. */
  lemma WebmFormatsUploadAsWebm()
    ensures FileExtension(OpusWebm) == "webm" && FileExtension(PlainWebm) == "webm"
  {
    WebmExtension(OpusWebm);
    WebmExtension(PlainWebm);
  }

  /** MP4 audio uploads with the m4a extension. */
  lemma Mp4UploadsAsM4a()
    ensures FileExtension(Mp4Audio) == "m4a"
  {
    assert Mp4Audio[6..9] == "mp4";
    ContainedAt(Mp4Audio, "mp4", 6);
  }

  /** Whenever a preferred format was chosen, the upload is named after its
      container: the two WebM formats upload as webm, MP4 as m4a. */
  lemma ExtensionFollowsChosenFormat(supported: set<string>, recorderMimeType: string)
    ensures var choice := ChooseMimeType(supported);
            var ext := FileExtension(ActualMimeType(choice.mimeType, recorderMimeType));
            (choice.mimeType == OpusWebm || choice.mimeType == PlainWebm ==> ext == "webm")
            && (choice.mimeType == Mp4Audio ==> ext == "m4a")
  {
    WebmFormatsUploadAsWebm();
    Mp4UploadsAsM4a();
  }

  // ----- The recorder -----

  /** A piece of recorded audio; only its size matters here. */
  datatype AudioChunk = AudioChunk(size: nat)

  class Recorder {
    /** The longest a recording may run, in seconds. */
    const maxDuration: int

    var hasMediaRecorder: bool
    var mimeType: string
    var isRecording: bool
    var recordingStarted: bool
    var timeLeft: int
    /** The one-second countdown interval is running. */
    var timerRunning: bool
    /** The recorded chunks, in arrival order. */
    var chunks: seq<AudioChunk>

    /** Only non-empty chunks are kept; the countdown runs only while
        recording; recording needs a media recorder. */
    ghost predicate Valid()
      reads this
    {
      && (forall i :: 0 <= i < |chunks| ==> chunks[i].size > 0)
      && (timerRunning ==> isRecording)
      && (isRecording ==> hasMediaRecorder)
    }

    constructor (maxDuration: int)
      ensures Valid() && this.maxDuration == maxDuration
      ensures !hasMediaRecorder && !isRecording && !recordingStarted && !timerRunning
      ensures timeLeft == maxDuration && chunks == []
    {
      this.maxDuration := maxDuration;
      hasMediaRecorder := false;
      mimeType := "";
      isRecording := false;
      recordingStarted := false;
      timeLeft := maxDuration;
      timerRunning := false;
      chunks := [];
    }

    /** Starts a recording. The chunks are cleared first; when the microphone
        is refused (`micGranted` false) nothing else happens. Otherwise the
        format is chosen from `supported`, recording starts with the full
        time left, and the countdown runs. */
    method StartRecording(micGranted: bool, supported: set<string>)
      requires Valid()
      modifies this
      ensures Valid() && chunks == []
      ensures !micGranted ==>
                && hasMediaRecorder == old(hasMediaRecorder) && mimeType == old(mimeType)
                && isRecording == old(isRecording) && recordingStarted == old(recordingStarted)
                && timeLeft == old(timeLeft) && timerRunning == old(timerRunning)
      ensures micGranted ==>
                && hasMediaRecorder && mimeType == ChooseMimeType(supported).mimeType
                && isRecording && recordingStarted && timeLeft == maxDuration && timerRunning
    {
      chunks := [];
      if !micGranted {
        return;
      }
      var choice := ChooseMimeType(supported);
      mimeType := choice.mimeType;
      hasMediaRecorder := true;
      isRecording := true;
      recordingStarted := true;
      timeLeft := maxDuration;
      timerRunning := true;
    }

    /** The recorder delivers a chunk: kept only when it holds data. */
    method OnDataAvailable(chunk: AudioChunk)
      requires Valid()
      modifies this`chunks
      ensures Valid()
      ensures chunks == if chunk.size > 0 then old(chunks) + [chunk] else old(chunks)
    {
      if chunk.size > 0 {
        chunks := chunks + [chunk];
      }
    }

    /** `stopRecording` as one closure of it runs: `seenRecording` is the
        recording flag of the render that created that closure. It stops
        the recording and its countdown when there is a media recorder and
        the flag it sees is set; otherwise it does nothing. */
    method StopAsSeen(seenRecording: bool)
      requires Valid()
      modifies this`isRecording, this`timerRunning
      ensures Valid()
      ensures hasMediaRecorder && seenRecording ==> !isRecording && !timerRunning
      ensures !(hasMediaRecorder && seenRecording) ==>
                isRecording == old(isRecording) && timerRunning == old(timerRunning)
    {
      if hasMediaRecorder && seenRecording {
        isRecording := false;
        if timerRunning {
          timerRunning := false;
        }
      }
    }

    /** Stops a recording in progress and its countdown, seeing the current
        recording flag; without a recording in progress it does nothing. */
    method StopRecording()
      requires Valid()
      modifies this`isRecording, this`timerRunning
      ensures Valid()
      ensures old(hasMediaRecorder && isRecording) ==> !isRecording && !timerRunning
      ensures !old(hasMediaRecorder && isRecording) ==>
                isRecording == old(isRecording) && timerRunning == old(timerRunning)
    {
      StopAsSeen(isRecording);
    }

    /** One second of recording passes: with one second or less left the
        time reaches zero and the recording stops; otherwise exactly one
        second comes off. */
    method Tick()
      requires Valid() && timerRunning
      modifies this`timeLeft, this`isRecording, this`timerRunning
      ensures Valid()
      ensures old(timeLeft) <= 1 ==> timeLeft == 0 && !isRecording && !timerRunning
      ensures old(timeLeft) > 1 ==>
                timeLeft == old(timeLeft) - 1 && isRecording == old(isRecording) && timerRunning
    {
      if timeLeft <= 1 {
        StopRecording();
        timeLeft := 0;
      } else {
        timeLeft := timeLeft - 1;
      }
    }

    /** One second as the interval set up by `StartRecording` runs it. The
        stop it calls is the one captured when recording was still off, so
        that stop's guard fails and it does nothing: at one second or less
        the time is pinned at zero and recording goes on. */
    method TickWithCapturedStop()
      requires Valid() && timerRunning
      modifies this`timeLeft, this`isRecording, this`timerRunning
      ensures Valid()
      ensures timeLeft == if old(timeLeft) <= 1 then 0 else old(timeLeft) - 1
      ensures isRecording == old(isRecording) && timerRunning == old(timerRunning)
    {
      if timeLeft <= 1 {
        StopAsSeen(false);
        timeLeft := 0;
      } else {
        timeLeft := timeLeft - 1;
      }
    }
  }

  /** The recorder's countdown as the interval actually runs it, through
      `TickWithCapturedStop`: left alone, the recording never ends. After
      any number of ticks beyond the allowed time it is still recording, its
      countdown still runs, and the time shown stays at zero. */
  method UnattendedRecordingAsWritten(maxDuration: int, extra: nat) returns (stillRecording: bool, timerStillRunning: bool, timeLeft: int)
    ensures stillRecording && timerStillRunning && timeLeft == 0
  {
    var recorder := new Recorder(maxDuration);
    recorder.StartRecording(true, {OpusWebm});
    var total := (if maxDuration >= 1 then maxDuration else 1) + extra;
    var n := 0;
    while n < total
      invariant 0 <= n <= total
      invariant recorder.Valid() && recorder.isRecording && recorder.timerRunning
      invariant n == 0 ==> recorder.timeLeft == maxDuration
      invariant n > 0 ==> recorder.timeLeft == if maxDuration - n >= 1 then maxDuration - n else 0
    {
      recorder.TickWithCapturedStop();
      n := n + 1;
    }
    stillRecording, timerStillRunning, timeLeft := recorder.isRecording, recorder.timerRunning, recorder.timeLeft;
  }

  /** A recording that is never stopped by hand ends on the countdown: after
      `maxDuration` ticks, or after one tick when no time was allowed. */
  method TicksUntilRecordingEnds(maxDuration: int) returns (ticks: nat)
    ensures ticks == if maxDuration >= 1 then maxDuration else 1
  {
    var recorder := new Recorder(maxDuration);
    recorder.StartRecording(true, {OpusWebm});
    ticks := 0;
    while recorder.timerRunning
      invariant recorder.Valid()
      invariant recorder.timerRunning ==>
                  recorder.timeLeft == maxDuration - ticks && (ticks == 0 || recorder.timeLeft >= 1)
      invariant !recorder.timerRunning ==> ticks == if maxDuration >= 1 then maxDuration else 1
      decreases recorder.timerRunning, recorder.timeLeft
    {
      recorder.Tick();
      ticks := ticks + 1;
    }
  }
}
