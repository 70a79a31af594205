/** The countdown of the egg timer as a state machine on values.

    A state records the remaining time in seconds, the text of the timer
    label, whether the one-second QTimer is armed, and how many times the
    completion sound has been played. Start is a click on a preset button,
    Tick is one run of the timer's timeout handler, and Timeout is one
    delivery of the timer's signal, which happens only while it is armed.
 */
module Countdown {
  import opened TimeText

  /** The label text once the countdown has run out. */
  const CompletionText: string := "Time's up! \U{23F3}"

  /** One entry of the egg-type table: the button's name, its image, its
      countdown and the pixel size of its icon. */
  datatype Preset = Preset(name: string, image: string, duration: nat, iconSize: nat)

  const EggTypes: seq<Preset> := [
    Preset("Boiled Egg", "images/New Piskel-1.png.png", 4 * 60, 250),
    Preset("Omelette", "images/New Piskel-1.png (2).png", 3 * 60, 250),
    Preset("Bullseye Egg", "images/New Piskel-1.png (1).png", 2 * 60 + 30, 250)
  ]

  datatype TimerState = TimerState(remaining: nat, display: string, running: bool, soundCount: nat)

  /** Before any click: four minutes, shown as "4:00", timer not armed. */
  const Initial: TimerState := TimerState(4 * 60, "4:00", false, 0)

  /** What every reachable state satisfies: the time is a valid QTime, the
      label shows it while the timer runs, and once stopped the label shows
      either that time (nothing started yet) or the completion text at 0:00. */
  predicate Inv(s: TimerState) {
    && s.remaining < SecondsPerDay
    && (s.running ==> s.display == Format(s.remaining))
    && (!s.running ==> s.display == Format(s.remaining) || (s.remaining == 0 && s.display == CompletionText))
  }

  /** start_timer: take the new time, show it, (re)arm the timer. */
  function Start(s: TimerState, time: nat): (r: TimerState)
    requires time < SecondsPerDay
    ensures Inv(r) && r.running && r.remaining == time && r.soundCount == s.soundCount
  {
    s.(remaining := time, display := Format(time), running := true)
  }

  /** update_timer: at 0:00 stop, show the completion text and play the
      sound; otherwise go back one second and show the new time. */
  function Tick(s: TimerState): (r: TimerState)
    requires s.remaining < SecondsPerDay
    ensures r.remaining <= s.remaining && (r.running ==> s.running)
    ensures r.soundCount == s.soundCount + 1 <==> s.remaining == 0
  {
    if s.remaining == 0 then
      s.(running := false, display := CompletionText, soundCount := s.soundCount + 1)
    else
      s.(remaining := s.remaining - 1, display := Format(s.remaining - 1))
  }

  /** The timer's timeout signal: delivered only while the timer is armed. */
  function Timeout(s: TimerState): (r: TimerState)
    requires s.remaining < SecondsPerDay
    ensures r.remaining <= s.remaining && (r.running ==> s.running)
    ensures !s.running ==> r == s
  {
    if s.running then Tick(s) else s
  }

  /** k consecutive one-second timeouts. */
  function Timeouts(s: TimerState, k: nat): (r: TimerState)
    requires s.remaining < SecondsPerDay
    ensures r.remaining <= s.remaining
  {
    if k == 0 then s else Timeout(Timeouts(s, k - 1))
  }

  /** What can happen to the timer: a preset button is clicked (starting the
      countdown from the given time), or the armed timer fires. */
  datatype Event = Clicked(time: nat) | TimedOut

  predicate ValidEvents(evs: seq<Event>) {
    forall i :: 0 <= i < |evs| ==> (evs[i].Clicked? ==> evs[i].time < SecondsPerDay)
  }

  function Step(s: TimerState, e: Event): (r: TimerState)
    requires s.remaining < SecondsPerDay
    requires e.Clicked? ==> e.time < SecondsPerDay
    ensures r.remaining < SecondsPerDay
  {
    match e
    case Clicked(time) => Start(s, time)
    case TimedOut => Timeout(s)
  }

  function Run(s: TimerState, evs: seq<Event>): (r: TimerState)
    requires s.remaining < SecondsPerDay && ValidEvents(evs)
    ensures r.remaining < SecondsPerDay
    decreases |evs|
  {
    if evs == [] then s else Run(Step(s, evs[0]), evs[1..])
  }

  /** Number of clicks in an event sequence. */
  function Starts(evs: seq<Event>): (n: nat) {
    if evs == [] then 0 else (if evs[0].Clicked? then 1 else 0) + Starts(evs[1..])
  }

  function Armed(s: TimerState): (n: nat) {
    if s.running then 1 else 0
  }

  /** The three presets: distinct names, 4:00, 3:00 and 2:30, all positive and
      under an hour, so "m:ss" never hides an hour. */
  lemma PresetsWellFormed()
    ensures |EggTypes| == 3
    ensures EggTypes[0].name == "Boiled Egg" && EggTypes[0].duration == 240
    ensures EggTypes[1].name == "Omelette" && EggTypes[1].duration == 180
    ensures EggTypes[2].name == "Bullseye Egg" && EggTypes[2].duration == 150
    ensures forall i, j :: 0 <= i < j < |EggTypes| ==> EggTypes[i].name != EggTypes[j].name
    ensures forall p :: p in EggTypes ==> 0 < p.duration < SecondsPerHour
    ensures Format(EggTypes[0].duration) == "4:00"
    ensures Format(EggTypes[1].duration) == "3:00"
    ensures Format(EggTypes[2].duration) == "2:30"
  {
    FormatExamples();
  }

  lemma InitialValid()
    ensures Inv(Initial) && Initial.remaining == 240 && !Initial.running
    ensures Initial.display == Format(Initial.remaining)
  {
    FormatExamples();
  }

  /** Clicking restarts cleanly: the state after a click depends only on the
      time clicked and on the sounds already played, not on a countdown that
      was in progress. */
  lemma StartRestarts(s: TimerState, other: TimerState, time: nat)
    requires time < SecondsPerDay
    ensures Start(s, time) == TimerState(time, Format(time), true, s.soundCount)
    ensures Start(s, time).(soundCount := 0) == Start(other, time).(soundCount := 0)
    ensures Inv(Start(s, time))
  {
  }

  /** A tick above zero goes back exactly one second and changes nothing else;
      a tick at zero stops the timer and plays the sound once. */
  lemma TickEffect(s: TimerState)
    requires Inv(s) && s.running
    ensures s.remaining > 0 ==> Tick(s) == TimerState(s.remaining - 1, Format(s.remaining - 1), true, s.soundCount)
    ensures s.remaining == 0 ==> Tick(s) == TimerState(0, CompletionText, false, s.soundCount + 1)
  {
  }

  lemma StepPreservesInv(s: TimerState, e: Event)
    requires Inv(s) && (e.Clicked? ==> e.time < SecondsPerDay)
    ensures Inv(Step(s, e))
  {
  }

  lemma {:induction false} RunPreservesInv(s: TimerState, evs: seq<Event>)
    requires Inv(s) && ValidEvents(evs)
    ensures Inv(Run(s, evs))
    decreases |evs|
  {
    if evs != [] {
      StepPreservesInv(s, evs[0]);
      RunPreservesInv(Step(s, evs[0]), evs[1..]);
    }
  }

  /** The first d timeouts after starting from d count down through
      d-1, ..., 0:00 without a sound. */
  lemma {:induction false} CountingDown(s: TimerState, d: nat, k: nat)
    requires d < SecondsPerDay && k <= d
    ensures Timeouts(Start(s, d), k) == TimerState(d - k, Format(d - k), true, s.soundCount)
  {
    if k > 0 {
      CountingDown(s, d, k - 1);
    }
  }

  /** Once stopped, further timeouts change nothing. */
  lemma {:induction false} StoppedStaysStopped(s: TimerState, k: nat)
    requires s.remaining < SecondsPerDay && !s.running
    ensures Timeouts(s, k) == s
  {
    if k > 0 {
      StoppedStaysStopped(s, k - 1);
    }
  }

  /** Timeouts compose. */
  lemma {:induction false} TimeoutsAdd(s: TimerState, j: nat, k: nat)
    requires s.remaining < SecondsPerDay
    ensures Timeouts(s, j + k) == Timeouts(Timeouts(s, j), k)
  {
    if k > 0 {
      TimeoutsAdd(s, j, k - 1);
      var mid := Timeouts(s, j);
      assert Timeouts(s, j + k) == Timeout(Timeouts(s, j + k - 1));
      assert Timeouts(mid, k) == Timeout(Timeouts(mid, k - 1));
    }
  }

  /** Timeout d+1 after starting from d completes the countdown, and every
      later timeout leaves that final state alone: the sound plays exactly
      once for the start. */
  lemma Completion(s: TimerState, d: nat, k: nat)
    requires d < SecondsPerDay && k > d
    ensures Timeouts(Start(s, d), k) == TimerState(0, CompletionText, false, s.soundCount + 1)
  {
    var start := Start(s, d);
    var done := TimerState(0, CompletionText, false, s.soundCount + 1);
    CountingDown(s, d, d);
    assert Timeouts(start, d + 1) == done;
    StoppedStaysStopped(done, k - (d + 1));
    TimeoutsAdd(start, d + 1, k - (d + 1));
  }

  /** Over any sequence of clicks and timeouts, the sounds played plus a
      countdown still armed never exceed the clicks: at most one sound per
      start. */
  lemma {:induction false} SoundAtMostOncePerStart(s: TimerState, evs: seq<Event>)
    requires s.remaining < SecondsPerDay && ValidEvents(evs)
    ensures s.soundCount <= Run(s, evs).soundCount
    ensures Run(s, evs).soundCount + Armed(Run(s, evs)) <= s.soundCount + Armed(s) + Starts(evs)
    decreases |evs|
  {
    if evs != [] {
      SoundAtMostOncePerStart(Step(s, evs[0]), evs[1..]);
    }
  }

  /** While the timer runs under an hour, the label names the remaining time exactly. */
  lemma RunningLabelShowsRemaining(s: TimerState)
    requires Inv(s) && s.running && s.remaining < SecondsPerHour
    ensures Parse(s.display) == Some(s.remaining)
  {
    FormatRoundTrip(s.remaining);
  }
}
