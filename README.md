# oryp3 fan control, modelled in Dafny

`oryp3-fancontrol.py` drives the two fans of a System76 Oryx Pro laptop
through the `system76` hwmon files. `main` writes `"1"` to `pwm1_enable` and
`pwm2_enable` to take manual control, then runs `loop()` forever. Each pass
reads the CPU temperature from `temp1_input` in millidegrees. It writes the
CPU duty to `pwm1`. It then reads the GPU temperature from line 8 of the
`nvidia-smi` report and writes the GPU duty to `pwm2`. A duty is 0..255 on
a curve that clamps below and above a temperature range and interpolates in
between. An exit hook registered with `atexit` writes `"2"` to both enable
files, which hands the fans back to the firmware.

The model has five modules:

- `Wrappers` (`wrappers.dfy`): `Option` and `Result`.
- `PyText` (`pytext.dfy`): the Python text built-ins the script relies on:
  - `str.strip()`;
  - `re.split(r"\s+", …)`;
  - base-10 `int(text)`, which accepts surrounding whitespace (that of
    `str.isspace()` except U+001C..U+001F), a sign, leading zeros and
    single underscores between digits, and raises ValueError on more than
    4300 digits (CPython's default limit since 3.11 and the 3.7.14, 3.8.14,
    3.9.14 and 3.10.7 security releases; leading zeros count,
    underscores do not);
  - `str(n)`.
- `Curve` (`curve.dfy`): the duty curve, defined once as `Duty` and
  instantiated with the CPU constants (45/75/0/255) and the GPU constants
  (40/75/0/255). Temperatures are exact integers of millidegrees.
- `Sensors` (`sensors.dfy`): `read_cpu_temp` and `read_gpu_temp` on the
  sensor texts. Python's exceptions become `Fault` values.
- `FanControl` (`fancontrol.dfy`): the sysfs files as a map from path to
  contents. A `Controller` class holds that map and the current mode, and
  its methods model `_write`, `loop`, `main` and `resume_auto_fan_control`.
  - Each method is proved against pure functions: `Pass`, `Run` and
    `ScriptWrites`.
  - A ghost history of writes carries the class invariant: a PWM control
    file is written only after both enable files were last set to `"1"`.

The controller's passes take `Readings`, which is what `read_cpu_temp()`
and `read_gpu_temp()` return or raise during one pass. `Read` computes them
from a `Sample` of sensor texts, and `SamplePass` states the whole pass on
texts.

Three behaviours of the script that the model keeps as written:

- The passes run in one loop, CPU first and then GPU; nothing runs
  concurrently.
- A reading equal to a curve's minimum or maximum temperature takes the
  interpolation branch (`cpu_temp < CPU_MIN_TEMP` and `cpu_temp >
  CPU_MAX_TEMP` are strict), which gives 0 and 255 there (`DutyAtEnds`).
- One `atexit` hook restores both enable files; the model runs it once
  after `main`, whatever ended the passes.

## Model

| member | source | states |
|---|---|---|
| Curve.Duty | oryp3-fancontrol.py:57-64 | the duty for a reading in millidegrees, used for both channels (lines 72-79 for the GPU); its meaning is stated by the four lemmas below |
| Curve.DutyBelowRange | oryp3-fancontrol.py:58-59 | below the minimum temperature the duty is the curve's `minFan` |
| Curve.DutyAboveRange | oryp3-fancontrol.py:60-61 | above the maximum temperature the duty is the curve's `maxFan` |
| Curve.DutyInterpolates | oryp3-fancontrol.py:62-64 | inside the range, ends included, the duty d is 0..255 and is the floor of 255·(t − min)/(max − min): d·span ≤ (t − min)·255 < (d+1)·span |
| Curve.DutyAtEnds | oryp3-fancontrol.py:62-64 | the minimum temperature gives 0 and the maximum gives 255, both through the interpolation branch |
| Curve.DutyOfDegrees | oryp3-fancontrol.py:72-79 | for whole degrees (the GPU reading), the millidegree duty equals the script's formula over degrees |
| Curve.DutyInRange | oryp3-fancontrol.py:57-64 | when both clamp values are duties, every duty is 0..255 |
| Curve.MonotoneIff | oryp3-fancontrol.py:57-64 | the curve never decreases with temperature exactly when minFan ≤ 0 and maxFan ≥ 255, because the middle branch ignores both |
| Curve.ConfiguredCurves | oryp3-fancontrol.py:16-28 | the CPU and GPU constants give well-formed curves whose duties are all 0..255 and never decrease |
| Curve.CpuExamples | oryp3-fancontrol.py:57-64 | CPU at 60 °C gives 127, at 44 °C gives 0, at 76 °C gives 255 |
| PyText.TrimLeft | oryp3-fancontrol.py:44 | `lstrip()` for a given whitespace class; its meaning is `TrimLeftShape` |
| PyText.TrimRight | oryp3-fancontrol.py:44 | `rstrip()` for a given whitespace class; its meaning is `TrimRightShape` |
| PyText.Strip | oryp3-fancontrol.py:44 | `str.strip()`: both trims with `str.isspace()`; its meaning is `StripAround` and the two shape lemmas |
| PyText.IntStrip | oryp3-fancontrol.py:39 | the whitespace `int()` skips: `str.isspace()` without U+001C..U+001F; `ParseRejectsSeparator` states the difference |
| PyText.TrimLeftShape | oryp3-fancontrol.py:44 | the left trim keeps a suffix, drops only whitespace, and what remains starts with a non-space |
| PyText.TrimRightShape | oryp3-fancontrol.py:44 | the right trim keeps a prefix, drops only whitespace, and what remains ends with a non-space |
| PyText.StripAround | oryp3-fancontrol.py:44 | stripping removes exactly the whitespace around a text whose ends are not whitespace |
| PyText.SplitWs | oryp3-fancontrol.py:46 | `re.split(r"\s+")` gives at least one piece; no piece holds whitespace; the pieces hold every non-space character in order |
| PyText.SplitGaps | oryp3-fancontrol.py:46 | the whitespace runs the split breaks at; its meaning is `SplitRebuilds` |
| PyText.JoinWith | oryp3-fancontrol.py:46 | a row of words with a given whitespace run between each two; the inverse of the split by `SplitJoinWith` |
| PyText.SplitRebuilds | oryp3-fancontrol.py:46 | every text is its pieces joined by the separating runs, each run non-empty whitespace, every inner piece non-empty: the split breaks exactly at maximal runs |
| PyText.SplitJoinWith | oryp3-fancontrol.py:46 | splitting pieces joined by any non-empty whitespace runs gives back the pieces, so the decomposition of `SplitRebuilds` is the only one |
| PyText.ParseSigned | oryp3-fancontrol.py:39 | `int()` after the whitespace is skipped: an optional sign, then a digit run of at most 4300 digits |
| PyText.ParseInt | oryp3-fancontrol.py:39 | `int(text)` in base 10; an accepted text is never blank; its meaning is stated by the lemmas below |
| PyText.ParseRejectsForeignChar | oryp3-fancontrol.py:39 | a character that is not a digit, an underscore or a leading sign, anywhere between the whitespace `int()` skips, makes `int()` fail |
| PyText.ParseRejectsSeparator | oryp3-fancontrol.py:39 | a U+001C..U+001F character anywhere in the text makes `int()` fail, though `strip()` would drop it |
| PyText.ParseRejectsBlank | oryp3-fancontrol.py:39 | text made only of whitespace makes `int()` fail |
| PyText.ParseRejectsStrayUnderscore | oryp3-fancontrol.py:39 | an underscore first after the sign, last, or next to another underscore makes `int()` fail |
| PyText.ParseRejectsTooManyDigits | oryp3-fancontrol.py:39 | more than 4300 digits between the whitespace `int()` skips make `int()` fail, leading zeros included |
| PyText.ParseSignedZeros | oryp3-fancontrol.py:39 | `int()` accepts a `+` or `-` sign and leading zeros: `int("+007") == 7`; with the zeros, more than 4300 digits fail |
| PyText.ParseSkipsUnderscore | oryp3-fancontrol.py:50 | one underscore between two digit strings does not change what `int()` gives, and the digits are accepted exactly when there are at most 4300 of them |
| PyText.ShowNat | oryp3-fancontrol.py:33 | `str(n)` of a natural: all digits, no leading zero |
| PyText.ShowInt | oryp3-fancontrol.py:33 | `str(i)` is non-empty and neither starts nor ends with whitespace |
| PyText.DigitRunOfShowNat | oryp3-fancontrol.py:33 | the digits `str(n)` writes read back as n when there are at most 4300 of them, and fail otherwise |
| PyText.ParseShowInt | oryp3-fancontrol.py:39 | `int()` of `str(i)` with any whitespace `int()` skips around it is i when i has at most 4300 digits, and fails otherwise |
| Sensors.ReadCpuTemp | oryp3-fancontrol.py:36-39 | an unreadable sensor, and only that, raises `SensorUnreadable`; the other failures are `NotNumeric` and `FloatOverflow`; a reading is below 2^1024 − 2^970 in magnitude |
| Sensors.CpuReadsWrittenValue | oryp3-fancontrol.py:36-39 | a sensor text holding `str(n)` and whitespace `int()` skips reads as n millidegrees when a double holds n |
| Sensors.CpuRejectsHuge | oryp3-fancontrol.py:39 | an integer no double holds raises OverflowError in `/ 1000.0` when it has at most 4300 digits, and ValueError in `int()` when it has more |
| Sensors.CpuRejectsTooManyDigits | oryp3-fancontrol.py:39 | a sensor text with more than 4300 digits raises `NotNumeric`, whatever they spell |
| Sensors.CpuRejectsSeparator | oryp3-fancontrol.py:39 | a sensor text with a U+001C..U+001F character raises `NotNumeric` |
| Sensors.CpuRejectsNonNumeric | oryp3-fancontrol.py:36-39 | a sensor text with a character other than a digit, an underscore or a leading sign, anywhere between the whitespace `int()` skips, raises `NotNumeric` |
| Sensors.GpuTokens | oryp3-fancontrol.py:44-46 | line 8 of the report, stripped and split on whitespace runs |
| Sensors.ReadGpuTemp | oryp3-fancontrol.py:42-50 | reading the GPU never raises the CPU sensor's fault; its meaning is stated by the lemmas below |
| Sensors.GpuFaults | oryp3-fancontrol.py:45-48 | the error is IndexError exactly when there are fewer than 9 lines or fewer than 3 tokens; it is AssertionError exactly when token 2 does not end in "C" |
| Sensors.WordsOfLine | oryp3-fancontrol.py:44-46 | a row of words padded and separated by any whitespace runs strips and splits into those words |
| Sensors.GpuReadsToken | oryp3-fancontrol.py:47-50 | token 2 equal to `str(t) + "C"` reads as t, or raises `NotNumeric` when t has more than 4300 digits |
| Sensors.GpuReadsTemperatureColumn | oryp3-fancontrol.py:42-50 | a report whose line 8 is words, with any whitespace runs between the columns and `str(t) + "C"` third, reads as t whatever the other lines hold, or raises `NotNumeric` when t has more than 4300 digits |
| Sensors.GpuRejectsNonNumeric | oryp3-fancontrol.py:49-50 | a "C"-suffixed token whose number holds a character other than a digit, an underscore or a leading sign raises `NotNumeric` |
| Sensors.GpuRejectsBareC | oryp3-fancontrol.py:49-50 | a token 2 that is "C" alone leaves `int("")`, which raises `NotNumeric` |
| FanControl.PathsDistinct | oryp3-fancontrol.py:13-23 | the four sysfs files are four different paths |
| FanControl.DutyTextReadsBack | oryp3-fancontrol.py:65 | a duty text written to a PWM file reads back with `int()` as a value 0..255 |
| FanControl.Apply | oryp3-fancontrol.py:31-33 | the files after a series of `_write` calls; its meaning is `ApplyHoldsLastWritten` |
| FanControl.ApplyHoldsLastWritten | oryp3-fancontrol.py:31-33 | after a series of writes each file holds the last text written to it, and an unwritten file keeps its old contents |
| FanControl.PwmOnlyWhileManual | oryp3-fancontrol.py:89-93 | the safety invariant on the writes: every PWM write comes after both enable files were last set to "1" |
| FanControl.Read | oryp3-fancontrol.py:54-69 | the two reads of a pass on the sensor texts |
| FanControl.Pass | oryp3-fancontrol.py:53-82 | one `loop()` on its readings, including the OverflowError of the `%f` debug print of a GPU reading no double holds (line 71); its meaning is `PassShape` |
| FanControl.PassShape | oryp3-fancontrol.py:53-82 | a pass writes at most the CPU duty and then the GPU duty. A CPU raise writes nothing, and a GPU raise leaves only the CPU write. The pass raises nothing exactly when both reads succeed and a double holds the GPU reading. Each text is `str` of the curve's duty for the reading, and is 0..255 |
| FanControl.SamplePass | oryp3-fancontrol.py:53-80 | on sensor texts: an unreadable CPU sensor or one holding a number no double holds raises before any write (ValueError beyond 4300 digits, OverflowError otherwise). A CPU sensor holding `str(n)` otherwise gets the CPU duty for n. Then a GPU fault, or a GPU reading no double holds, raises after that write, and any other GPU reading gets the GPU duty |
| FanControl.Run | oryp3-fancontrol.py:92-93 | `while True: loop()` over the readings of successive passes; its meaning is `RunCounts` and `RunAlternates` |
| FanControl.RunCounts | oryp3-fancontrol.py:92-93 | passes run until the readings end or one raises; each completed pass adds two writes, and a raising pass adds at most one |
| FanControl.RunAlternates | oryp3-fancontrol.py:92-93 | the passes write CPU and GPU duties alternately, CPU first, each 0..255 |
| FanControl.ScriptWrites | oryp3-fancontrol.py:89-104 | every write of the script: the enable writes, the passes, the exit hook; its meaning is `ScriptSafe` |
| FanControl.ManualBeforeEachPwm | oryp3-fancontrol.py:89-93 | under the invariant, the writes before any PWM write left both enable files at "1" |
| FanControl.PwmWritesStayManual | oryp3-fancontrol.py:92-93 | PWM writes after manual mode keep the invariant and keep the fans manual |
| FanControl.ScriptSafe | oryp3-fancontrol.py:89-104 | for any readings, the script writes PWM values only while both fans are manual, and leaves both enable files last set to "2" |
| FanControl.RestoreIdempotent | oryp3-fancontrol.py:96-99 | the exit hook sets both enable files to "2" and nothing else, and running it again changes nothing |
| FanControl.Controller.Valid | oryp3-fancontrol.py:31-33 | the class invariant: the files are the history applied to the boot files, the history keeps `PwmOnlyWhileManual`, and manual mode means both enables were last set to "1" |
| FanControl.Controller.constructor | oryp3-fancontrol.py:102-103 | the script starts with the files as found, automatic mode and no writes, and the invariant holds |
| FanControl.Controller.Write | oryp3-fancontrol.py:31-33 | `_write` replaces one file's contents and appends to the history; it keeps the invariant whenever the PWM files are written only under manual control |
| FanControl.Controller.Loop | oryp3-fancontrol.py:53-82 | `loop()` makes exactly the writes of `Pass` and raises its fault |
| FanControl.Controller.TakeManualControl | oryp3-fancontrol.py:90-91 | the two enable writes set both files to "1", and the controller is manual afterwards |
| FanControl.Controller.RunPasses | oryp3-fancontrol.py:92-93 | the loop's writes, pass count and fault are those of `Run` on the readings |
| FanControl.Controller.RunMain | oryp3-fancontrol.py:89-93 | `main` appends the enable writes and then the run's writes; the files are those writes applied to the old files |
| FanControl.Controller.ResumeAutoFanControl | oryp3-fancontrol.py:96-99 | both enable files become "2" from any state, and the controller is automatic |
| FanControl.Controller.RunScript | oryp3-fancontrol.py:102-104 | `main`, then the exit hook: the files are `ScriptWrites` applied to the old files, and both enable files end at "2" |

## Left out

- File and process I/O is not modelled. The CPU sensor's text, or its absence, and the lines `nvidia-smi` prints are inputs. A failure to launch `nvidia-smi` is not modelled.
- Write failures are not modelled: `_write` always succeeds on the map of files.
- `while True` and `time.sleep(CHECK_INTERVAL)` are not modelled as such: the passes run over a finite sequence of readings, and time is not modelled.
- `atexit` is an explicit final step (`RunScript`), so signals are not modelled.
- `DEBUG` prints are left out as output. The one print with an effect is modelled: `"GPU TEMP: %f"` converts the GPU reading to a float and raises OverflowError for a reading no double holds (`Pass`). The CPU prints format values already in float range.
- Floating point is not modelled beyond the overflow of `int(s) / 1000.0` and of the GPU reading's `%f`, which raise `FloatOverflow`. The division and `p * 255` are otherwise computed exactly on integers of millidegrees. Where the exact value of 255·(t − min)/(max − min) is a whole number, the float product may lie just below it and truncate one lower; the model gives the exact floor.
- `utf-8` decoding of the report is not modelled: lines are given as strings.
- Non-ASCII Unicode digits, which `int()` also accepts, are not modelled: only ASCII digits are.
- The digit limit of `int()` is fixed at CPython's default of 4300. Changing it with `PYTHONINTMAXSTRDIGITS` or `-X int_max_str_digits` is not modelled, nor are interpreters without the limit (those before 3.11, other than the 3.7.14, 3.8.14, 3.9.14 and 3.10.7 security releases and their later patches).
- `GPU_TEMP_FILE` is declared by the script and never used, so it has no counterpart here.
- Running Python with `-O` removes the `assert` in `read_gpu_temp`. This is not modelled: the model always checks for the "C".
- `read_gpu_temp` strips every report line. The model strips only line 8, the only one used.
- Controller.Loop, Controller.RunPasses, Controller.RunMain and Controller.RunScript: take the readings of each pass as an input (`Readings`) instead of calling the sensor readers. `Read` and `SamplePass` connect the readings with the sensor texts.
