# A verified model of the kiln monitor and its LED controllers

This project models the state-keeping core of a kiln monitor written in
Python, and the colour logic of the two LED strip controllers that go with
it. It then proves properties of the model in Dafny. The model covers:

- **The run recorder and observer list** (`OvenMonitor`, module
  `OvenMonitorModel`, file `oven_monitor.dfy`).
  - One iteration of the poll loop: a `RUNNING` reading is appended to the log, any other reading stops the recording, and every reading is broadcast.
  - `record`, which starts a new run.
  - `lastlog_subset`, the stride subsampling of the backlog.
  - `add_observer`, which sends the backlog and registers the observer.
  - `notify_all`, which removes failing observers from the very list it is iterating.
  - The record file name.
- **The analysis of a finished run** (module `Analysis`): `analyse_results` up to its report, with every exception on the way.
  - The hours since the first sample, the equispaced grid and `extra_ind`.
  - The mirror padding of the series and of its grid, `smooth_gaussian`, and the crop.
  - The two peaks of the report, the two plot files, and the shifted views behind the derivative.
  - The linear interpolation and the convolution are parameters; the plots are only named.
- **The integer logic of `smooth_gaussian`** (module `Smoothing`): the sigma guard, the kernel length and the IndexError of an empty kernel, the odd tile count, the tiling, the crop onto the middle copy, and the output length. The convolution is a parameter.
- **The request handlers** of `kiln-monitor.py` (module `KilnMonitor`):
  - the `mailto` parsing;
  - `find_profile`;
  - the profile store with the `save_profile` overwrite rule and the PUT message;
  - the HTTP `/api` handler;
  - the RUN and STOP messages of the control websocket.
- **The LED effects** (module `LedEffects`), which are the same code in `light_controller.py` and `script/light_controller.py`:
  - `wheel`, `color_chase` and `rainbow_cycle`;
  - the effect keys of a command (`color_chase`, `rainbow_cycle`, `fill`, `brightness`) and the start-up sequence of `main()`;
  - the per-pixel writes both `color_pixels` handlers end in.
- **The `color_pixels` handlers**:
  - module `LightController`: the effect keys, then the integer keys, with values assigned as they stand;
  - module `ScriptLightController`: the first effect key and the RuntimeError after it; otherwise string values cleaned of brackets and spaces, then read as comma-separated integers.

Three modules hold shared helpers. `PySeq` holds Python's slice bounds, slicing and reversal. `Text` holds the Python string operations the core relies on: `str.replace`, `str.split`, `", ".join`, `filter(None, …)`, `str()` of an integer, two-digit zero padding, and `int()` of a base-10 string. `Arithmetic` holds small facts about integer division.

The model follows the code as written, including these behaviours a reader may not expect:

- The backlog can hold more than `maxpts` samples.
- A tick never sets `recording` to true; only `record` does.
- `notify_all` does not broadcast to a snapshot of the list.
- `send_email_start`, which RUN calls when there are recipients, is not defined on `OvenMonitor`. RUN with recipients therefore ends in an `AttributeError` after `record`.
- STOP with recipients mails the report only when `analyse_results` goes through. STOP straight after RUN, on a record of one sample, ends in the ValueError of `interp1d`.
- In `script/light_controller.py` a command with an effect key runs that effect and then ends in a RuntimeError, before any pixel key is read.
- An out-of-range pixel index is not a precondition. It is modelled as the uncaught `IndexError` it raises, with the writes made before it kept.

## Model

| member | source | states |
|---|---|---|
| OvenMonitorModel.OvenMonitor.Tick | lib/ovenMonitor.py:41-49 | A RUNNING reading is appended to the log and `recording` is kept. Any other reading leaves the log and clears `recording`. Then the observer list becomes what one `notify_all` pass leaves. |
| OvenMonitorModel.OvenMonitor.Record | lib/ovenMonitor.py:60-68 | After `record(p, e)` the log is exactly the current reading, `recording` is true, and the profile, start time and recipients are `p`, now and `e`. The observers are untouched. |
| OvenMonitorModel.OvenMonitor.AddObserver | lib/ovenMonitor.py:70-94 | The backlog is built from the last profile and the subsampled log. The send succeeds only for a live socket. The observer is appended exactly once, whether or not the send succeeded. |
| OvenMonitorModel.OvenMonitor.NotifyAll | lib/ovenMonitor.py:96-107 | The loop, which removes from the list it walks, leaves exactly what `NotifyPass` says, and delivers to the healthy entries that pass reads. |
| OvenMonitorModel.OvenMonitor.NotifyAllSnapshot | lib/ovenMonitor.py:96-107 | The corrected broadcast walks a copy of the list. Every survivor is delivered to, and exactly the failing or null entries are dropped. |
| OvenMonitorModel.OvenMonitor.SaveRecordToFile | lib/ovenMonitor.py:119-130 | Before any `record` there is no start time, and the call fails. Otherwise the log is written under `RecordFileName(dir, started)`. |
| OvenMonitorModel.StrideAt | lib/ovenMonitor.py:58 | `s[::k]` holds `ceil(|s|/k)` elements. Its j-th element is `s[j*k]`. |
| OvenMonitorModel.LastlogSubset | lib/ovenMonitor.py:52-58 | `lastlog_subset`: the whole log up to maxpts samples, else every (N div (maxpts-1))-th sample. |
| OvenMonitorModel.LastlogSubsetShape | lib/ovenMonitor.py:52-58 | A log of at most maxpts samples is returned whole. A longer one becomes every (N div (maxpts-1))-th sample, between maxpts-1 and 2(maxpts-1)-1 of them. The first sample is always kept. |
| OvenMonitorModel.LastlogSubsetExceedsMaxpts | lib/ovenMonitor.py:55-58 | With 51 samples and maxpts 50 all 51 samples are sent. |
| OvenMonitorModel.StrideCountBounds | lib/ovenMonitor.py:57-58 | For N > m, the stride N div (m-1) is at least 1 and yields between m-1 and 2(m-1)-1 samples. |
| OvenMonitorModel.MakeBacklogShape | lib/ovenMonitor.py:71-85 | The backlog's profile is None exactly when there is no last profile, and otherwise carries its name and data. Its log is the subsampled log and starts with the first sample. |
| OvenMonitorModel.MakeBacklog | lib/ovenMonitor.py:71-85 | The backlog message `add_observer` builds: the last profile, if any, and the subsampled log. |
| OvenMonitorModel.IndexOf | lib/ovenMonitor.py:105 | The index `list.remove` uses is the first occurrence of x. |
| OvenMonitorModel.NotifyPass | lib/ovenMonitor.py:96-107 | One `notify_all` pass as written: read the entry at the index, drop it if it is falsy or its send raises, and then move to the next index either way. |
| OvenMonitorModel.RemoveFirstCons | lib/ovenMonitor.py:105-107 | `list.remove(x)` drops the first element equal to x and keeps the rest in order. |
| OvenMonitorModel.DroppedMembers | lib/ovenMonitor.py:102-106 | An entry is removed exactly when it is read and is falsy or its send raises. |
| OvenMonitorModel.HealthyMembers | lib/ovenMonitor.py:100-102 | An observer is sent the message exactly when it is read, is a socket, and its send does not raise. |
| OvenMonitorModel.NotifyPassKeepsOrder | lib/ovenMonitor.py:99-107 | A pass never adds an observer, and the survivors keep their relative order. |
| OvenMonitorModel.NotifyPassAccounts | lib/ovenMonitor.py:99-107 | The entries left, plus those removed, are exactly the entries before the pass. Only failing or null entries are removed. |
| OvenMonitorModel.NotifyPassKeepsHealthy | lib/ovenMonitor.py:99-107 | Every occurrence of an entry whose send succeeds survives the pass. |
| OvenMonitorModel.NotifyPassReadsTail | lib/ovenMonitor.py:99 | A pass resumed at index i reads only entries found at index i or later. |
| OvenMonitorModel.NotifyPassSkipsSuccessor | lib/ovenMonitor.py:99-107 | In a list without repeats, the entry right after a removed one is not read in that pass. |
| OvenMonitorModel.NotifyPassAllHealthy | lib/ovenMonitor.py:99-102 | With nothing to drop, every entry is read and none is removed. |
| OvenMonitorModel.NotifyPassExampleTwoFailing | lib/ovenMonitor.py:99-105 | Two failing sockets: the second is never tried and stays registered. |
| OvenMonitorModel.NotifyPassExampleMissedDelivery | lib/ovenMonitor.py:99-105 | A failing socket followed by a healthy one: the healthy one is not sent the message, although the intended broadcast sends it. |
| OvenMonitorModel.SnapshotBroadcastMeaning | lib/ovenMonitor.py:96-107 | The intended broadcast reads every entry and keeps exactly the healthy ones, in order. |
| OvenMonitorModel.NotifyPassKeepsSnapshotSurvivors | lib/ovenMonitor.py:96-107 | The pass as written removes nothing the intended broadcast keeps. |
| OvenMonitorModel.NameTail | lib/ovenMonitor.py:124 | The part of the name after the year has a fixed length of 19 characters: `_MM_DD-hh_mm.pickle`. |
| OvenMonitorModel.RecordFileName | lib/ovenMonitor.py:124 | The record file name: `dir/YYYY_MM_DD-hh_mm.pickle` of the start time. |
| OvenMonitorModel.RecordFileNameSplit | lib/ovenMonitor.py:124 | The record file name is `dir + '/'`, then the year, then the fixed-width tail. |
| OvenMonitorModel.NameTailInjective | lib/ovenMonitor.py:124 | Equal tails mean equal month, day, hour and minute. |
| OvenMonitorModel.RecordFileNameSameExactly | lib/ovenMonitor.py:124 | Two start times give the same record file exactly when they agree to the minute. |
| PySeq.PyIndex | lib/ovenMonitor.py:156-157 | A slice bound in range is kept, a negative one counts from the end, and the result is clamped to the length. |
| PySeq.Reverse | lib/ovenMonitor.py:156-157 | `s[::-1]` has the same length, with element k equal to `s[n-1-k]`. |
| PySeq.PySlice | lib/ovenMonitor.py:156-159 | `s[i:j]` after both bounds are normalised as Python does. |
| Analysis.TapesMirror | lib/ovenMonitor.py:156-157 | For 1 ≤ e ≤ n-1, `dn_tape` is t[e], …, t[1] and `up_tape` is t[n-2], …, t[n-1-e]. |
| Analysis.PaddedShape | lib/ovenMonitor.py:156-161 | The padded series has n+2e samples. The original samples sit at e … e+n-1, and the ends mirror them, the end samples themselves not repeated. |
| Analysis.Padded | lib/ovenMonitor.py:156-161 | `np.concatenate((dn_tape, equi_temp, up_tape))`. |
| Analysis.CropPadding | lib/ovenMonitor.py:162 | The crop `[extra_ind:-extra_ind]`, with Python's reading of a negative or zero bound. |
| Analysis.CropMiddle | lib/ovenMonitor.py:162 | For e ≥ 1, `[e:-e]` keeps exactly the middle samples. |
| Analysis.CropZeroIsEmpty | lib/ovenMonitor.py:162 | With e = 0, `[0:-0]` is empty. `ZeroExtraTripsGuard` shows that the crop is never reached with e = 0. |
| Analysis.CropUndoesPadding | lib/ovenMonitor.py:156-162 | Padding and then cropping gives back the series, for 1 ≤ e ≤ n-1. |
| Analysis.ShiftedViews | lib/ovenMonitor.py:196-197 | `s[:-1]` and `s[1:]` both have n-1 elements and pair each sample with its successor. |
| Analysis.Trunc | lib/ovenMonitor.py:155 | `int()` of a float truncates toward zero, for either sign. |
| Analysis.MinReal | lib/ovenMonitor.py:155 | `min(a, b)` is one of its arguments and bounds both. |
| Analysis.Linspace | lib/ovenMonitor.py:148 | `np.linspace(a, b, n)` has n points, starts at a, ends at b, and steps by (b-a)/(n-1). |
| Analysis.Hours | lib/ovenMonitor.py:142-143 | One time per sample, in hours since the first one, which is 0. |
| Analysis.Temperatures | lib/ovenMonitor.py:144 | One temperature per sample. |
| Analysis.PaddedGrid | lib/ovenMonitor.py:158-160 | The grid extended by `dn_time` and `up_time`. |
| Analysis.SmoothTemperature | lib/ovenMonitor.py:148-162 | The grid step, `extra_ind`, the padding, `smooth_gaussian` and the crop, with the exceptions of each step. |
| Analysis.AnalyseResults | lib/ovenMonitor.py:134-215 | `analyse_results`: an IndexError on an empty record, a ValueError on one sample, else the analysis of the series. |
| Analysis.AnalyseSeries | lib/ovenMonitor.py:147-162 | The interpolation on the grid, then the smoothing, then the report. |
| Analysis.Summarise | lib/ovenMonitor.py:172-212 | The peaks of both series and the two plot files, or the ValueError of `np.amax` or of `ax.plot`. |
| Analysis.TimeStepBounds | lib/ovenMonitor.py:148-149 | The grid step times n-1 is the span, and the step lies between 0 and the span, on the span's side of 0. |
| Analysis.SpacingAtLeastEnds | lib/utilities.py:18 | The spacing `smooth_gaussian` uses is at least the distance of the end points over the gaps. |
| Analysis.SpacingOfGrid | lib/ovenMonitor.py:148 | The spacing `smooth_gaussian` computes on a rising grid is at least the grid step. |
| Analysis.ExtraIndZero | lib/ovenMonitor.py:155 | `extra_ind` is 0 only on a rising time axis whose step exceeds \|6σ\|. |
| Analysis.ExtraIndRange | lib/ovenMonitor.py:155 | For σ > 0, `extra_ind` lies in 0..n-1. |
| Analysis.PaddedGridZero | lib/ovenMonitor.py:158-160 | With `extra_ind` 0 the padded grid is the grid itself. |
| Analysis.PaddedZero | lib/ovenMonitor.py:156-161 | With `extra_ind` 0 the padded series is the series itself. |
| Analysis.GuardOnUnpaddedGrid | lib/ovenMonitor.py:155-160 | When `extra_ind` is 0, `smooth_gaussian` on the grid raises its sigma ValueError. |
| Analysis.ZeroExtraTripsGuard | lib/ovenMonitor.py:155-162 | When `extra_ind` is 0 the smoothing ends in that ValueError before the crop is reached. |
| Analysis.SmoothingNeedsPositiveScale | lib/ovenMonitor.py:154-162 | A smoothing scale that is not positive always ends in an exception: zero trips the guard, and a negative one past the guard (`extra_ind` = -1) leaves an empty kernel. |
| Analysis.SmoothedOneValuePerSample | lib/ovenMonitor.py:155-162 | With a "same"-mode convolution, a smoothing that goes through had σ > 0 and 1 ≤ `extra_ind` ≤ n-1, and gives one value per sample. |
| Analysis.CropOfSmoothed | lib/ovenMonitor.py:160-162 | For 1 ≤ e ≤ n-1, cropping the smoothed padded series leaves n values. |
| Analysis.SummariseSound | lib/ovenMonitor.py:172-212 | With one smoothed value per sample the report never raises: a smoothing exception passes through, and otherwise the peaks are those of the two series. |
| Analysis.AnalyseSeriesSound | lib/ovenMonitor.py:147-215 | For any σ, with a "same"-mode convolution and a length-keeping interpolant, neither `np.amax` nor `ax.plot` raises; a success reports the peak sample and names the two plots. |
| Analysis.AnalyseReportSound | lib/ovenMonitor.py:134-215 | For the whole record: the same, and a success needs at least two samples and reports the largest recorded temperature. |
| Analysis.AnalyseShortRecord | lib/ovenMonitor.py:142-147 | An empty record raises the IndexError exactly, and a one-sample record the ValueError exactly. |
| Smoothing.Spacing | lib/utilities.py:18 | dx = (max x − min x)/(len x − 1), and it is never negative. |
| Smoothing.Max | lib/utilities.py:18 | `np.amax` is an element that bounds every element from above. |
| Smoothing.Min | lib/utilities.py:18 | `np.amin` is an element that bounds every element from below. |
| Smoothing.Ceil | lib/utilities.py:30 | `np.ceil` gives the least integer at least r. |
| Smoothing.GuardRaisesExactly | lib/utilities.py:18-21 | The ValueError is raised exactly when \|6σ\| ≤ dx. |
| Smoothing.KernelAtLeastThree | lib/utilities.py:20-23 | A positive σ that passes the guard gives a kernel of at least three points. |
| Smoothing.NegativeSigmaEmptyKernel | lib/utilities.py:23 | A negative σ gives an empty kernel. |
| Smoothing.NegativeSigmaRaises | lib/utilities.py:20-27 | A negative σ that passes the guard ends in the IndexError `integrate.simps` raises on the empty kernel. |
| Smoothing.SuccessNeedsPositiveSigma | lib/utilities.py:18-27 | A result that goes through had at least two x values, a positive spacing, σ > 0 with 6σ > dx, and a kernel of at least three points. |
| Smoothing.TileCountShape | lib/utilities.py:29-33 | When tiling happens, `num_rep` is odd, at least 3, and `num_rep * len(y) ≥ len(kernel)`. |
| Smoothing.TileLength | lib/utilities.py:34 | `np.tile(y, r)` has r·len(y) elements. |
| Smoothing.TileAt | lib/utilities.py:34 | `_y[i] == y[i mod len(y)]` for every i < num_rep·len(y). |
| Smoothing.CropIsMiddleCopy | lib/utilities.py:41 | The crop start is a multiple of len(y), with as many copies after the window as before it, and the window is one copy of y. |
| Smoothing.SmoothGaussian | lib/utilities.py:9-43 | `smooth_gaussian`: the sigma guard, then the kernel, whose emptiness raises in `integrate.simps`, the tiling when the kernel is longer than y, the convolution and the crop. |
| Smoothing.ResultLength | lib/utilities.py:38-43 | With a "same"-mode convolution, every successful result has len(y) values, tiled or not. |
| Smoothing.IdentityConvolution | lib/utilities.py:29-43 | With the identity in place of the convolution, the result is y itself in both branches. |
| Smoothing.NoTilingForShortKernel | lib/utilities.py:23-38 | Past the guard, when len(kernel) ≤ len(y), an empty kernel raises and any other kernel convolves y as it is. |
| KilnMonitor.MailtoEntries | kiln-monitor.py:153-155 | Every parsed recipient is non-empty and holds no space and no comma. A message without `mailto` gives no recipient. |
| KilnMonitor.ParseMailto | kiln-monitor.py:153-155 | The recipients: `mailto` without spaces, split at commas, empty pieces dropped. |
| KilnMonitor.MailtoRoundTrip | lib/ovenMonitor.py:229 | The `", ".join` of recipients is parsed back into the same list. |
| KilnMonitor.MailtoIdempotent | kiln-monitor.py:153-155 | Parsing the joined result of a parse gives the same recipients. |
| KilnMonitor.FindProfile | kiln-monitor.py:112-125 | The scan returns the first profile in order with the wanted name, or None. |
| KilnMonitor.FirstMatchMeaning | kiln-monitor.py:122-125 | The result is None exactly when no profile has the name. Otherwise it is a profile with the name, and no earlier profile has it. |
| KilnMonitor.ProfileFileShape | kiln-monitor.py:288-289 | For a relative name the file is the profile directory, a single '/', the name and `.json`. |
| KilnMonitor.ProfileFileInjective | kiln-monitor.py:288-289 | Distinct relative names are stored in distinct files. |
| KilnMonitor.ProfileStore.SaveProfile | kiln-monitor.py:286-297 | Without `force`, an existing file is refused: the result is False and nothing is written. Otherwise the file is (over)written and the result is True. |
| KilnMonitor.ProfileStore.Put | kiln-monitor.py:223-237 | No reply for a missing or empty profile. Otherwise PUT forces the save, always overwrites, and replies "OK". |
| KilnMonitor.ApiRunStarts | kiln-monitor.py:84-103 | A run request for a stored profile starts the first profile of that name at the requested minute, or at 0 when none is given. It records the run with no recipients and replies success. |
| KilnMonitor.ApiUnknownProfile | kiln-monitor.py:94-97 | A name that no profile has starts nothing and replies `success` False with "profile X not found". |
| KilnMonitor.HandleApi | kiln-monitor.py:79-109 | The `/api` handler: a run request starts the first profile of that name, or replies that it is not found. |
| KilnMonitor.LogPoints | lib/ovenMonitor.py:142-144 | The (runtime, temperature) of each sample of the log, in order. |
| KilnMonitor.StopHandled | kiln-monitor.py:176-186 | STOP: no recipient attribute raises; with recipients, save, analyse and mail, or raise what the analysis raised; without recipients, only save. |
| KilnMonitor.StopMailsRecipients | lib/ovenMonitor.py:217-248 | A STOP after RUN saves first. With recipients and an analysis that goes through it mails the plots and the saved record, with the peaks, to exactly the parsed recipients. With a failing analysis it ends in that exception. Without recipients it only saves. |
| KilnMonitor.StopAfterOneSampleCrashes | kiln-monitor.py:176-186 | STOP with recipients right after RUN, with the one sample `record` takes, ends in the ValueError of `interp1d`. |
| KilnMonitor.ControlSession.Run | kiln-monitor.py:150-164 | RUN takes the message's profile, or else the one kept from an earlier RUN; with neither it ends unbound. It starts the profile and records it with the parsed recipients. When there are recipients it ends in the missing `send_email_start`. |
| KilnMonitor.ControlSession.Stop | kiln-monitor.py:176-186 | STOP does what `StopHandled` lists for the monitor's recipients, the start time and `analyse_results` of its log: it raises before any `record`; with recipients it saves, analyses and mails, or raises what the analysis raised; without them it only saves. |
| LedEffects.Wheel | light_controller.py:37-48 | The result is black exactly outside 0..255. Inside that range every channel is in 0..255 and the channels sum to 255. |
| LedEffects.WheelDecode | light_controller.py:42-48 | The position can be read back from the colour, with 255 coming round to the colour of 0. |
| LedEffects.WheelInjective | light_controller.py:42-48 | Positions 0..254 give pairwise distinct colours. |
| LedEffects.WheelPrimaries | light_controller.py:42-48 | wheel(0) = wheel(255) = red, wheel(85) = green, wheel(170) = blue. |
| LedEffects.ColorChase | light_controller.py:51-56 | Afterwards every pixel holds the colour. Frame f shows pixels 0..f painted and the others as before. |
| LedEffects.RainbowIndex | light_controller.py:62-63 | The wheel argument is always in 0..255. |
| LedEffects.RainbowCycle | light_controller.py:59-65 | 255 frames; frame j sets pixel i to wheel((i·256 div 8 + j) mod 256). The strip ends on the last frame. |
| LedEffects.RainbowNeverBlack | light_controller.py:59-64 | No rainbow frame shows a pixel black, and pixel i runs 32·i places ahead of pixel 0. |
| LedEffects.Solid | light_controller.py:107 | `pixels.fill(c)` leaves every pixel c. |
| LedEffects.AfterEffect | light_controller.py:101-109 | The colours after one effect key: a chase or a fill leaves the strip one colour, a rainbow leaves its last frame, and brightness keeps the colours. |
| LedEffects.AfterEffects | light_controller.py:101-109 | The colours after the effect keys, in order. |
| LedEffects.LastPaintWins | light_controller.py:101-109 | After a run of effects the strip holds what the last chase, rainbow or fill leaves, whatever it held before. |
| LedEffects.BrightnessOnlyKeepsColours | light_controller.py:108-109 | Brightness keys alone leave the colours as they were. |
| LedEffects.FillStrip | light_controller.py:107 | After `pixels.fill(c)` the strip is `Solid(c)`. |
| LedEffects.ApplyEffect | light_controller.py:102-109 | One effect key changes the strip to `AfterEffect` of its colours. |
| LedEffects.ApplyEffects | light_controller.py:101-109 | The effect loop leaves the strip at `AfterEffects` of its colours. |
| LedEffects.Fireworks | light_controller.py:81-93 | After the start-up sequence pixel 0 is green and every other pixel black, whatever the strip held. |
| LedEffects.ApplyWritesAt | light_controller.py:111-114 | Each pixel ends with the colour of the last write aimed at it. Pixels no write is aimed at keep their colour. |
| LedEffects.UntouchedPixelKept | light_controller.py:111-116 | A pixel no write is aimed at keeps its colour. |
| LightController.ColorPixels | light_controller.py:111-122 | The loop ends in `Run`'s pixels. When an index is out of range it stops there with an IndexError. The returned state lists every pixel. |
| LightController.Step | light_controller.py:111-116 | One key of the per-pixel pass: skipped when `int()` rejects it, an IndexError outside the strip, else one write. |
| LightController.Run | light_controller.py:111-116 | The per-pixel pass over the command's entries in order, stopping at the first IndexError. |
| LightController.Handle | light_controller.py:96-122 | The request: the effect keys, then the per-pixel pass on the colours they leave. |
| LightController.HandleColorPixels | light_controller.py:96-122 | `color_pixels` ends in `Handle`'s colours, with an IndexError exactly when `Handle` fails, and returns every pixel. |
| LightController.HandleFinalColours | light_controller.py:101-122 | When every integer key is in the strip the request completes; each pixel a key names holds the last such value, every other pixel the colour the effects left. |
| LightController.RunPerformsWrites | light_controller.py:111-116 | When every integer key is inside the strip, the loop completes and performs the requested writes in order. |
| LightController.RunFailsExactly | light_controller.py:113-114 | The request fails with an IndexError exactly when some integer key is outside the strip. |
| LightController.RunFailureSticks | light_controller.py:111-114 | After an IndexError the rest of the command is not looked at. |
| LightController.IntegerKeysAllWrite | light_controller.py:111-114 | A command of integer keys asks for one write per entry, in order, each with the key's value. |
| LightController.NonIntegerKeysNoWrite | light_controller.py:111-116 | A command none of whose keys is an integer changes no pixel. |
| LightController.EffectKeysSkipped | light_controller.py:111-116 | `color_chase`, `rainbow_cycle`, `fill` and `brightness` are not integers, so the per-pixel pass skips them. |
| LightController.KeyThree | light_controller.py:113 | The key "3" names pixel 3. |
| LightController.KeyMinusOne | light_controller.py:113 | The key "-1" names the last pixel. |
| ScriptLightController.CleanCommand | script/light_controller.py:129-131 | The cleaned value holds exactly the characters of the original that are not brackets, braces, parentheses or spaces, in order. |
| ScriptLightController.WithoutCharsMembers | script/light_controller.py:129-131 | A character survives the cleaning exactly when it occurs in the value and is not one of the cleaned characters. |
| ScriptLightController.ParseIntsMeaning | script/light_controller.py:132 | The list comprehension succeeds exactly when `int()` accepts every piece, and then reads each piece in place. |
| ScriptLightController.ColorPixels | script/light_controller.py:123-138 | The loop ends in `Run`'s pixels. A ValueError from the key or from a component skips the entry; an out-of-range index stops the loop with an IndexError. |
| ScriptLightController.ParseValue | script/light_controller.py:127-132 | A string value is cleaned and read as comma-separated integers; any other value is taken as it stands. |
| ScriptLightController.Step | script/light_controller.py:123-138 | One entry: a ValueError skips it, an out-of-range index raises, else one write. |
| ScriptLightController.Run | script/light_controller.py:123-138 | The per-pixel pass over the entries in order, stopping at the first IndexError. |
| ScriptLightController.Handle | script/light_controller.py:104-138 | The request: with an effect key, its effect and then the RuntimeError; otherwise the per-pixel pass. |
| ScriptLightController.HandleColorPixels | script/light_controller.py:104-138 | `color_pixels` ends in `Handle`'s colours and fails exactly when `Handle` does. |
| ScriptLightController.EffectKeyEndsRequest | script/light_controller.py:109-121 | A command with an effect key never completes, and what it leaves depends only on the first effect, not on its pixel keys. |
| ScriptLightController.RunPerformsWrites | script/light_controller.py:123-138 | When every entry that parses names a pixel of the strip, the loop completes and performs the requested writes in order. |
| ScriptLightController.RunFailsExactly | script/light_controller.py:125-134 | The request fails with an IndexError exactly when an entry that parses lies outside the strip. |
| ScriptLightController.RunFailureSticks | script/light_controller.py:123-134 | After an IndexError the rest of the command is not looked at. |
| ScriptLightController.ColorStringRoundTrip | script/light_controller.py:128-132 | A colour written as "(c0, c1, …)", or with brackets or braces, reads back as its components. |
| ScriptLightController.ParseIntStrings | script/light_controller.py:132 | `int()` of each `str()` piece gives back the components. |
| ScriptLightController.CleanJoin | script/light_controller.py:129-131 | Cleaning ", "-joined clean pieces leaves them joined by ",". |
| ScriptLightController.RedExample | script/light_controller.py:128-132 | "(255, 0, 0)" becomes [255, 0, 0]. |
| ScriptLightController.EmptyColorSkipped | script/light_controller.py:128-138 | "()" cleans to "", and `int("")` raises ValueError, so the pixel is left unchanged. |
| ScriptLightController.UnparsedEntriesChangeNothing | script/light_controller.py:123-138 | A command none of whose entries parses leaves every pixel as it was. |
| Text.RemoveCharMembers | kiln-monitor.py:154 | `s.replace(c, '')` removes every c and keeps every other character. |
| Text.JoinSplit | kiln-monitor.py:154 | Joining the pieces of a split with the separator gives back the string. |
| Text.SplitJoin | kiln-monitor.py:154 | Splitting a join of separator-free pieces gives back the pieces. |
| Text.Split | kiln-monitor.py:154 | A split has at least one piece, and no piece holds the separator. |
| Text.DropEmpty | kiln-monitor.py:155 | `filter(None, …)` keeps exactly the non-empty pieces, in order. |
| Text.DropEmptyMembers | kiln-monitor.py:155 | A piece survives `filter(None, …)` exactly when it occurs in the list and is not empty. |
| Text.DropEmptyAppend | kiln-monitor.py:155 | Filtering a concatenation filters each part. |
| Text.Pad2Injective | lib/ovenMonitor.py:124 | Two-digit zero padding is one-to-one on 0..99. |
| Text.NatToStringInjective | lib/ovenMonitor.py:124 | Distinct years have distinct decimal forms. |
| Text.PyIntOfIntToString | light_controller.py:113 | `int(str(n)) == n` for every integer n. |
| Text.PyIntRejectsWord | light_controller.py:113-116 | `int()` rejects a word that starts with neither a sign nor a digit. |
| Text.PyInt | light_controller.py:113 | `int()` of a string: surrounding whitespace stripped, an optional sign, then digit groups joined by single underscores; anything else raises ValueError. |

## Left out

- Threads and timing: the poll thread's endless loop is one call of `Tick` per iteration, and the sleeps in the poll loop and the LED effects are dropped.
- The oven (`lib/oven.py` is not part of this model): its reading is an input of `Tick` and `Record`. `run_profile` and `abort_run` are recorded as actions.
- I/O is left out:
  - pickle files, profile files and directory listings (`get_profiles` and `delete_profile`); the profile directory is a map from paths to profiles;
  - SMTP and MIME assembly, and matplotlib output;
  - ngrok, bottle and gevent websockets, Flask/waitress, and the neopixel hardware.
- A socket send is an outcome: the set of observers whose send raises is a parameter.
- `datetime.now()` is a parameter of `Record`.
- json.dumps / json.loads are the identity on profiles. A JSON `null` for `mailto`, which would raise, is not modelled; `None` stands for a missing field.
- Floating point is left out: the interpolation, the Gaussian kernel values, the Simpson normalisation, the FFT convolution, the derivative values and the report's rounding. The index and length structure is modelled, and the convolution is a parameter of `SmoothGaussian`.
- Smoothing.SmoothGaussian: `np.arange`'s length is taken as ceil(12σ/dx) in exact arithmetic; rounding of that float division is not modelled.
- Text.PyInt: only ASCII digits are accepted; the other Unicode decimal digits that Python's `int()` also accepts are not modelled.
- The command is given as its effect keys, already decoded into `Effect` values, and its other entries in order. A malformed effect value (a missing key or a wrong type), which raises KeyError or TypeError, is not modelled, and neither are the waits of the effects.
- Brightness is accepted and not tracked; it scales what the strip emits, not the colours it holds and reports back.
- JSON integer colour values are not modelled: a colour is a list of integers, or a string in the script controller.
- The TypeError handler of the control loop, which closes the socket, is not modelled: no modelled path raises TypeError.
- The linear interpolation of `interp1d` is a parameter, with `None` for its ValueError outside the data.
- A value the neopixel driver rejects (a colour of the wrong length or range) raises inside the driver; that check is not modelled, and the value is stored as it stands.
- The SIMULATE message, the DELETE and GET storage messages, the config and status websockets, and the static file routes are outside the modelled core.
- `config.py` and `playground.py` are not part of this model.

## Findings

| source | as written | input that shows it | evidently intended | confidence | as-written member | corrected member |
|---|---|---|---|---|---|---|
| lib/ovenMonitor.py:99-107 | `notify_all` removes a failing observer from the list its `for` loop is walking, so the entry after it moves into the removed slot and is never read in that pass. | observers [s1, s2], the send to s1 raises: s2 is not sent the message | every healthy observer is sent the message and only failing ones are removed | high, not executed | OvenMonitorModel.NotifyPassExampleMissedDelivery | OvenMonitorModel.OvenMonitor.NotifyAllSnapshot |
