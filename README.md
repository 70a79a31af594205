# Egg timer countdown in Dafny

This project models the countdown at the centre of the Egg Timer application. That application is a PyQt window with three preset buttons: Boiled Egg, Omelette and Bullseye Egg.

- Clicking a preset (re)starts a countdown from that preset's time. The timer label shows the time as `m:ss` and a one-second `QTimer` is armed.
- Each timeout takes one second off and shows the new time.
- A timeout that finds `0:00` stops the timer, shows `Time's up! ⏳` and plays a sound.

The project has three modules:

- `TimeText` (`timetext.dfy`) covers `QTime::toString("m:ss")`. A `QTime` is modelled as seconds since midnight, below 86400. `Format` prints the minute of the hour without a leading zero, then a colon, then the seconds as two digits. It drops the hour, as Qt's format does. `Parse` reads such a text back. It is the independent partner against which `Format` is proved.
- `Countdown` (`countdown.dfy`) is the state machine on values. It holds the preset table and the state (remaining seconds, label text, whether the timer is armed, sounds played). It defines the transitions `Start`, `Tick`, `Timeout` and `Run` over a sequence of clicks and timeouts, and the lemmas about them.
- `EggTimer` (`eggtimer.dfy`) holds the class `EggTimerApp`. Its fields are `remaining`, `display`, `running` and `soundCount`. Its methods update them in place, and each method's postcondition ties the new fields to the `Countdown` transition of the old ones.

In the model:

- The clock is an explicit `Timeout()` call. It has an effect only while the timer is armed.
- The label is a `string` field.
- Sound playback is an increment of `soundCount`.

## Model

| member | source | states |
|---|---|---|
| `TimeText.Format` | main.py:114 | the `m:ss` text is 4 or 5 characters. It is a run of digits for the minute, then `:`, then exactly two digits for the seconds. |
| `TimeText.FormatUnpadded` | main.py:114 | the minute is printed without a leading zero. The text is 4 characters exactly when the minute of the hour is below 10, and it starts with `0` only when that minute is 0, so 240 s shows `4:00`, not `04:00`. |
| `TimeText.DecimalRoundTrip` | main.py:114 | the unpadded decimal minute text reads back to the number it was printed from. |
| `TimeText.FormatRoundTrip` | main.py:124 | under one hour, reading the label text back as minutes*60+seconds gives exactly the time that was formatted. |
| `TimeText.FormatInjective` | main.py:124 | under one hour, two different times never produce the same label text. |
| `TimeText.FormatDropsHours` | main.py:114 | `m:ss` has no hour field: adding an hour does not change the text. This is why the presets must be under an hour. |
| `TimeText.FormatExamples` | main.py:114 | 240 → `4:00`, 180 → `3:00`, 150 → `2:30`, 65 → `1:05`, 0 → `0:00`. |
| `Countdown.PresetsWellFormed` | main.py:54-58 | the contract of the table `EggTypes`: there are three presets with distinct names. Boiled Egg is 240 s, Omelette 180 s and Bullseye Egg 150 s. All are positive, all are under an hour, and they show as `4:00`, `3:00` and `2:30`. |
| `Countdown.InitialValid` | main.py:40-62 | the contract of the state `Initial`: before any click, 240 s remain, the label shows `4:00` (the format of that time), the timer is idle and the state invariant holds. |
| `Countdown.Start` | main.py:112-115 | `start_timer` on values. The result is armed, holds the clicked time, keeps the sound count, and satisfies the invariant, so the label shows that time. `StartRestarts` adds that the prior state does not matter. |
| `Countdown.Tick` | main.py:117-124 | `update_timer` on values. It never increases the remaining time and never arms a stopped timer. It plays a sound exactly when it finds 0 remaining. `TickEffect` gives both branches as whole new states, and `StepPreservesInv` shows the invariant is kept. |
| `Countdown.Timeout` | main.py:60-61 | one delivery of the timer's signal. It never increases the remaining time, never arms the timer, and changes nothing while the timer is stopped. `StepPreservesInv` shows the invariant is kept. |
| `Countdown.Step` | main.py:60-78 | one event, a click (the button lambda at line 78) or a timeout (the connection at lines 60-61), keeps the time a valid QTime. `StepPreservesInv` gives the full invariant. |
| `Countdown.Run` | main.py:112-124 | a sequence of clicks and timeouts keeps the time a valid QTime. `RunPreservesInv` gives the full invariant. |
| `Countdown.StartRestarts` | main.py:112-115 | a click gives the remaining time `d`, the label `Format(d)` and an armed timer, with sounds unchanged. Two clicks of the same time from any two prior states give the same state apart from the sound count, so a countdown in progress is forgotten. |
| `Countdown.TickEffect` | main.py:117-124 | a tick above zero takes exactly one second off, shows the new time, stays armed and plays nothing. A tick at zero stops the timer, shows the completion text, plays the sound once and leaves 0. |
| `Countdown.Timeouts` | main.py:118-123 | the remaining time never increases under timeouts. The decrement happens only above zero, so it never goes below 0. |
| `Countdown.StepPreservesInv` | main.py:112-124 | a click or a timeout keeps the invariant. The time stays a valid QTime. While armed, the label shows the remaining time. When stopped, the label shows either that time or the completion text at 0. |
| `Countdown.RunPreservesInv` | main.py:112-124 | every sequence of clicks and timeouts keeps that invariant. |
| `Countdown.CountingDown` | main.py:122-124 | timeouts 1..d after starting from `d` show `Format(d-1)` … `0:00`, keep the timer armed and play no sound. |
| `Countdown.StoppedStaysStopped` | main.py:119 | once the timer is stopped, any number of timeouts change nothing. |
| `Countdown.Completion` | main.py:117-121 | timeout d+1 after starting from `d` leaves 0 remaining, the completion text, a stopped timer and one more sound. Every later timeout leaves that state alone, so the sound plays exactly once for the start. |
| `Countdown.SoundAtMostOncePerStart` | main.py:112-124 | over any clicks and timeouts, sounds never decrease. Sounds played plus a still-armed countdown never exceed the sounds already played, plus one for a countdown already armed at the start, plus the number of clicks. From the initial state there is therefore at most one sound per click. |
| `Countdown.RunningLabelShowsRemaining` | main.py:123-124 | while the timer runs (under an hour), reading the label back gives exactly the remaining time. |
| `EggTimer.EggTimerApp.constructor` | main.py:40-62 | the window starts with 240 s remaining, label `4:00`, timer idle and no sound played. |
| `EggTimer.EggTimerApp.Start` | main.py:112-115 | sets remaining to the given time, the label to its `m:ss` text and arms the timer. The sound count is unchanged and the invariant is kept. |
| `EggTimer.EggTimerApp.Click` | main.py:78 | a preset button's click starts the countdown from that preset's time. |
| `EggTimer.EggTimerApp.Tick` | main.py:117-124 | at 0 it stops, shows the completion text and adds one sound. Otherwise it subtracts one second and shows the new time. Both cases keep the invariant. |
| `EggTimer.EggTimerApp.Timeout` | main.py:60-61 | the timer's signal runs `Tick` while armed and leaves every field unchanged when stopped. |

## Left out

- Widget construction, layouts, palette, stylesheet, fonts and icon scaling (main.py:12-48, 64-110). These are presentation only.
- Resource directory resolution through `sys._MEIPASS` / `os.path` and the loading of image files. Preset images are kept as relative path strings.
- Audio playback through `QSound.play`. Each completion is only an increment of `soundCount`.
- Real-time scheduling by `QTimer` and the Qt event loop, including the 1000 ms period. Each timeout is an explicit `Timeout()` or `Tick()` call. `Tick` requires an armed timer, because only the timer calls `update_timer`.
- `QTime.addSecs` wrapping past midnight. That case cannot happen, because the decrement only runs above zero, so remaining time is a `nat` of seconds.
- Application start-up and shutdown (`QApplication`, `show`, `exec_`), and the text after `sys.exit(...)` on main.py:131. That text is not code.
