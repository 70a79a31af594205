/** The egg-timer window's countdown, as an object whose fields its handlers
    update in place: the remaining time, the timer label's text, whether the
    periodic timer is armed, and a counter standing for the completion sound.
 */
module EggTimer {
  import opened TimeText
  import opened Countdown

  class EggTimerApp {
    var remaining: nat
    var display: string
    var running: bool
    var soundCount: nat

    /** The object's fields as a value of the countdown model. */
    function State(): (s: TimerState)
      reads this
    {
      TimerState(remaining, display, running, soundCount)
    }

    ghost predicate Valid()
      reads this
    {
      Inv(State())
    }

    /** The window as built: "4:00" on the label, four minutes remaining, timer idle. */
    constructor ()
      ensures Valid() && State() == Initial
      ensures remaining == 240 && display == "4:00" && !running && soundCount == 0
    {
      remaining := 4 * 60;
      display := "4:00";
      running := false;
      soundCount := 0;
      InitialValid();
    }

    /** start_timer: whatever was going on, the countdown restarts from time. */
    method Start(time: nat)
      requires Valid() && time < SecondsPerDay
      modifies this
      ensures Valid() && State() == Countdown.Start(old(State()), time)
      ensures remaining == time && display == Format(time) && running
      ensures soundCount == old(soundCount)
    {
      remaining := time;
      display := Format(time);
      running := true;
    }

    /** A click on a preset button starts that preset's countdown. */
    method Click(p: Preset)
      requires Valid() && p in EggTypes
      modifies this
      ensures Valid() && State() == Countdown.Start(old(State()), p.duration)
      ensures remaining == p.duration && display == Format(p.duration) && running
      ensures soundCount == old(soundCount)
    {
      PresetsWellFormed();
      Start(p.duration);
    }

    /** update_timer, run by the armed timer once a second. */
    method Tick()
      requires Valid() && running
      modifies this
      ensures Valid() && State() == Countdown.Tick(old(State()))
      ensures old(remaining) == 0 ==>
        && remaining == 0 && !running && display == CompletionText
        && soundCount == old(soundCount) + 1
      ensures old(remaining) > 0 ==>
        && remaining == old(remaining) - 1 && running && display == Format(remaining)
        && soundCount == old(soundCount)
    {
      if remaining == 0 {
        running := false;
        display := CompletionText;
        soundCount := soundCount + 1;
      } else {
        remaining := remaining - 1;
        display := Format(remaining);
      }
    }

    /** One delivery of the timer's timeout signal, which happens only while armed. */
    method Timeout()
      requires Valid()
      modifies this
      ensures Valid() && State() == Countdown.Timeout(old(State()))
      ensures !old(running) ==> State() == old(State())
    {
      if running {
        Tick();
      }
    }
  }
}
