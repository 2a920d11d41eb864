# ASSISI CASU controllers, modelled in Dafny

This project models the decision logic of the ASSISI bee-arena controllers.
Each controller is a program that drives one CASU, a robot with a heater,
LEDs, six IR proximity sensors and a message radio. The project covers:

- **The bee-aggregation `Enhancer`** (`bee-aggregation-rob/robots/enhancer.py`):
  - Each cycle it counts its own IR detections against calibration thresholds.
  - It takes in its neighbours' bee counts from the message queue.
  - It pushes every source's count into a history buffer and smooths each buffer over a window.
  - It weighs the averages by the interaction-graph weights and sums them into an activation in [0, 1].
  - It maps the activation to a heater setpoint.
  - A three-state schedule decides what it then does: fixed heat, no heat, or proportional heat.
  - It drives the heater through a hysteresis wrapper, sends its own smoothed count to its out-neighbours and logs.
  - Module `BeeAggregation` holds the `Enhancer` class, whose fields the methods update as the source does.
  - Module `EnhancerSteps` holds the self-contained steps and the loops over dicts, as stateless methods proved against specification functions.
- **The interaction graph** (`bee-aggregation-rob/robots/interactions.py`):
  - flattening a layered graph;
  - reading off the out-map (whom a CASU sends to) and the in-map (whom it hears from, with weights);
  - module `Interactions`.
- **The fish-corridor controllers** (`fish-corridor-bees/controllers/`):
  - the shared usage check (`FishCorridor`);
  - the bee-density estimate (`BeeDensity`);
  - the per-side threshold tables (`Communicate`, `CommunicateAndHeat`);
  - the listen-and-heat controller, which steps its setpoint by half a degree in [29, 36] (`FishCasuOnly`).
- **The visualizer arithmetic** (`visualizer/assisi-visualizer/`):
  - the `clip` template (`ClipTemplate`);
  - the temperature-to-hue map, the IR-sector margin and pie angles, and the `casu_data` map that painting indexes (`Visualizer`).

How the outside world enters the model:

- Hardware readings (IR levels, temperatures, the peltier setpoint), the message queue and elapsed time are method parameters.
- What a controller asks of its CASU is recorded in a `commands` sequence (`CasuIo.Command`).
- The log file is recorded as a sequence of `LogLine` values.
- Python's `float()` on text is a function parameter `toFloat`.
- An exception is a `Wrappers.PyError` carried in a `Result` or an `Option`.
- Python numbers are Dafny `real`s. Integer arithmetic on configured values is not modelled separately (see `EnhancerSteps.DetectionShare` under "## Left out").

## Model

Source paths are relative to the repository root.

| member | source | states |
|---|---|---|
| ClipTemplate.Clip | visualizer/assisi-visualizer/include/visualizer.h:62-66 | with `lower <= upper` the result lies in `[lower, upper]`; an `x` already inside is returned unchanged; with `lower > upper` the result is `lower`; the result is always one of `lower`, `x`, `upper` |
| ClipTemplate.ClipIdempotent | visualizer/assisi-visualizer/include/visualizer.h:65 | clipping twice gives the same as clipping once |
| ClipTemplate.ClipMonotone | visualizer/assisi-visualizer/include/visualizer.h:65 | `clip` is non-decreasing in `x` |
| PyStrings.Split | bee-aggregation-rob/robots/interactions.py:159 | `str.split(sep)` never returns an empty list |
| PyStrings.Join | bee-aggregation-rob/robots/enhancer.py:289 | `sep.join(parts)` (a definition) |
| PyStrings.SplitPartsHaveNoSeparator | bee-aggregation-rob/robots/interactions.py:159 | no piece of a split contains the separator |
| PyStrings.SplitWithoutSeparator | bee-aggregation-rob/robots/interactions.py:159 | a string without the separator splits into itself alone |
| PyStrings.JoinSplit | bee-aggregation-rob/robots/enhancer.py:289 | joining the pieces of a split with the same separator gives back the string |
| PyStrings.SplitJoin | bee-aggregation-rob/robots/enhancer.py:289 | splitting a join of separator-free pieces gives back the pieces |
| PyStrings.LastComponentIsSuffix | bee-aggregation-rob/robots/interactions.py:159 | `s.split('/')[-1]` has no `/`, and `s` is a prefix that is empty or ends in `/`, followed by it |
| PyStrings.LastComponent | bee-aggregation-rob/robots/interactions.py:159 | `s.split('/')[-1]` (a definition) |
| PyStrings.LastComponentOfPlainName | bee-aggregation-rob/robots/interactions.py:76 | a name without `/` is kept as it is |
| PyStrings.LastComponentIdempotent | bee-aggregation-rob/robots/interactions.py:166-167 | trimming the layer prefix twice is trimming it once |
| PyStrings.LastComponentAfterSlash | bee-aggregation-rob/robots/enhancer.py:137 | for any directory, `dir/name` has the last component `name` |
| PyNumeric.Sorted3 | bee-aggregation-rob/robots/enhancer.py:623 | `sorted([a, b, c])` is in order and is a permutation of its inputs |
| PyNumeric.Median3 | bee-aggregation-rob/robots/enhancer.py:623 | `sorted([a, b, c])[1]` (a definition) |
| PyNumeric.Median3IsClip | fish-corridor-bees/controllers/listen_and_heat_fishcasu_only.py:48 | with the bounds in order, `sorted([lo, x, hi])[1]` equals `clip(x, lo, hi)` |
| PyNumeric.SumBounds | bee-aggregation-rob/robots/enhancer.py:534 | a sum of values in `[lo, hi]` lies between `n*lo` and `n*hi` |
| PyNumeric.Sum | bee-aggregation-rob/robots/enhancer.py:534 | `sum(s)` accumulated from the front (a definition) |
| PyNumeric.SumStrictBounds | bee-aggregation-rob/robots/enhancer.py:368 | the same with strict bounds |
| PyNumeric.Mean | bee-aggregation-rob/robots/enhancer.py:534 | `np.mean` of a non-empty sequence (a definition) |
| PyNumeric.MeanBounds | bee-aggregation-rob/robots/enhancer.py:534 | the mean of values in `[lo, hi]` is in `[lo, hi]` |
| PyNumeric.MeanStrictBounds | bee-aggregation-rob/robots/enhancer.py:366-368 | the mean of values in `(lo, hi)` is in `(lo, hi)` |
| BeeDensity.Pairs | fish-corridor-bees/controllers/communicate.py:36 | the number of pairs `zip` yields (a definition) |
| BeeDensity.AboveUpTo | fish-corridor-bees/controllers/communicate.py:36-37 | the indices below `k` whose reading is strictly above its threshold (a definition) |
| BeeDensity.Detected | fish-corridor-bees/controllers/communicate.py:36-37 | `[x > t for (x, t) in zip(xs, ts)]` (a definition) |
| BeeDensity.CountTrue | fish-corridor-bees/controllers/communicate.py:38 | `sum` of a list of booleans, counting the true ones (a definition) |
| BeeDensity.AboveUpToStep | fish-corridor-bees/controllers/communicate.py:36-37 | extending the zipped prefix by one pair adds that index exactly when its reading is above its threshold |
| BeeDensity.CountTruePrefix | fish-corridor-bees/controllers/communicate.py:36-38 | `sum` of the first `k` detections is the number of indices below `k` whose reading is strictly above its threshold |
| BeeDensity.Estimate | fish-corridor-bees/controllers/communicate.py:36-38 | `ZeroDivisionError` exactly when `zip` yields no pair; otherwise the number of readings strictly above threshold divided by the number of pairs, a value in `[0, 1]` |
| BeeDensity.NoneAboveGivesZero | fish-corridor-bees/controllers/communicate.py:36-38 | no reading above its threshold gives 0 |
| BeeDensity.AllAboveGivesOne | fish-corridor-bees/controllers/communicate.py:36-38 | every reading above its threshold gives 1 |
| BeeDensity.CountTrueAllTrue | fish-corridor-bees/controllers/communicate.py:38 | summing all-true detections gives their number |
| BeeDensity.AtThresholdNotCounted | fish-corridor-bees/controllers/communicate.py:36 | a reading equal to its threshold is not counted (strict comparison) |
| FishCorridor.Usage | fish-corridor-bees/controllers/communicate.py:19-21 | the usage text the controllers exit with (a definition) |
| FishCorridor.CheckArgs | fish-corridor-bees/controllers/communicate.py:19-25 | fewer than two arguments exit with the usage message; otherwise the `.rtc` file and the side are `argv[1]` and `argv[2]` |
| FishCorridor.SideEstimate | fish-corridor-bees/controllers/communicate.py:36-38 | an unknown side raises `KeyError`; a known side gives the density estimate against its thresholds |
| FishCorridor.ReportLoop | fish-corridor-bees/controllers/communicate.py:33-41 | each cycle sends its estimate to `cats`, in order; the first cycle whose estimate raises ends the loop with that exception and sends nothing for it |
| Communicate.Thresholds | fish-corridor-bees/controllers/communicate.py:29-31 | thresholds exist for `left` and `right` only, six per side |
| Communicate.Estimate | fish-corridor-bees/controllers/communicate.py:36-38 | `KeyError` for a side other than `left`/`right`; `ZeroDivisionError` for no readings; otherwise the share of the first `min(n, 6)` readings strictly above threshold, in `[0, 1]` |
| CommunicateAndHeat.Thresholds | fish-corridor-bees/controllers/communicate_and_heat.py:28-31 | thresholds exist for `left` and `right` only, six per side |
| CommunicateAndHeat.Estimate | fish-corridor-bees/controllers/communicate_and_heat.py:35-39 | as `Communicate.Estimate`, against this controller's thresholds |
| FishCasuOnly.Thresholds | fish-corridor-bees/controllers/listen_and_heat_fishcasu_only.py:27-30 | thresholds exist for `left` and `right` only, six per side |
| FishCasuOnly.Directions | fish-corridor-bees/controllers/listen_and_heat_fishcasu_only.py:32 | the side-to-direction dict, `left` to `CCW` and `right` to `CW` (a definition) |
| FishCasuOnly.TempMin | fish-corridor-bees/controllers/listen_and_heat_fishcasu_only.py:15 | `temp_min`, 29 (a definition) |
| FishCasuOnly.TempMax | fish-corridor-bees/controllers/listen_and_heat_fishcasu_only.py:16 | `temp_max`, 36 (a definition) |
| FishCasuOnly.TempStep | fish-corridor-bees/controllers/listen_and_heat_fishcasu_only.py:48-53 | the half-degree step of the setpoint (a definition) |
| FishCasuOnly.Startup | fish-corridor-bees/controllers/listen_and_heat_fishcasu_only.py:19-33 | the usage exit for missing arguments, `KeyError` for an unknown side, and `left` to `CCW`, `right` to `CW` |
| FishCasuOnly.StepTemp | fish-corridor-bees/controllers/listen_and_heat_fishcasu_only.py:46-53 | the setpoint moves half a degree up when the verdict names our direction and down otherwise, clamped, and always lands in `[29, 36]` |
| FishCasuOnly.ItemStep | fish-corridor-bees/controllers/listen_and_heat_fishcasu_only.py:44-55 | `ValueError` exactly when the item does not split into two parts on `:`; items not from `fishCasu` change nothing; `fishCasu` items set the stepped temperature, then light the LED red when the verdict names our direction and blue otherwise |
| FishCasuOnly.ApplyItems | fish-corridor-bees/controllers/listen_and_heat_fishcasu_only.py:43-55 | the `for item in data` loop (a definition): each item stepped in order until one fails to unpack |
| FishCasuOnly.Continue | fish-corridor-bees/controllers/listen_and_heat_fishcasu_only.py:43-55 | one more pass of the loop: once an item has raised the outcome stays as it is; otherwise the item is stepped, its error recorded or its setpoint and commands taken on |
| FishCasuOnly.ApplyItemsNext | fish-corridor-bees/controllers/listen_and_heat_fishcasu_only.py:43-55 | a successful item extends the loop's outcome by its own step |
| FishCasuOnly.ApplyItemsFailAt | fish-corridor-bees/controllers/listen_and_heat_fishcasu_only.py:43-44 | the first item that fails to unpack ends the loop with its state just before that item |
| FishCasuOnly.ApplyItemsInRange | fish-corridor-bees/controllers/listen_and_heat_fishcasu_only.py:43-55 | whatever the items, a setpoint in `[29, 36]` stays in `[29, 36]` |
| FishCasuOnly.ForeignItemsKeepTemp | fish-corridor-bees/controllers/listen_and_heat_fishcasu_only.py:45 | well-formed items not from `fishCasu` leave the setpoint and the commands unchanged |
| FishCasuOnly.ErrorStopsLoop | fish-corridor-bees/controllers/listen_and_heat_fishcasu_only.py:43-44 | items after a failing one are never looked at |
| FishCasuOnly.HandleItems | fish-corridor-bees/controllers/listen_and_heat_fishcasu_only.py:42-55 | the `for item in data` loop computes exactly `ApplyItems` |
| FishCasuOnly.Controller.constructor | fish-corridor-bees/controllers/listen_and_heat_fishcasu_only.py:15-17 | the setpoint starts at `temp_min` and nothing has been sent |
| FishCasuOnly.Controller.Valid | fish-corridor-bees/controllers/listen_and_heat_fishcasu_only.py:15-53 | the controller's invariant (a definition): the side is `left` or `right` with its direction, and the setpoint lies in `[temp_min, temp_max]` = `[29, 36]` |
| FishCasuOnly.Controller.HandleMessage | fish-corridor-bees/controllers/listen_and_heat_fishcasu_only.py:39-55 | the message's comma-separated items update the setpoint and the commands as `ApplyItems` says, and the setpoint stays in range |
| FishCasuOnly.Controller.ReportDensity | fish-corridor-bees/controllers/listen_and_heat_fishcasu_only.py:57-61 | the density estimate is sent to `cats`; an estimate that raises sends nothing and reports the error |
| FishCasuOnly.Controller.Cycle | fish-corridor-bees/controllers/listen_and_heat_fishcasu_only.py:37-63 | without a message the setpoint stays; with one it becomes what the item loop leaves, and the setpoint stays in range; an item that fails to unpack ends the cycle with its error and only the item commands before it; otherwise a density estimate that raises reports its error after the item commands, and a good one appends its `cats` send |
| Interactions.Trim | bee-aggregation-rob/robots/interactions.py:76 | a node name without its layer prefix, `split('/')[-1]` (a definition) |
| Interactions.EdgeAttrs | bee-aggregation-rob/robots/interactions.py:73 | `dict(fg.get_edge(src, dst).attr)`, empty for an edge without attributes (a definition) |
| Interactions.Get | bee-aggregation-rob/robots/interactions.py:74 | `attr.get(key)` (a definition) |
| Interactions.GetOutmap | bee-aggregation-rob/robots/interactions.py:57-81 | `KeyError` exactly for an unknown CASU; otherwise the map built edge by edge |
| Interactions.OutmapUpTo | bee-aggregation-rob/robots/interactions.py:71-79 | the out-map after the first edges (a definition): each out-edge of the CASU sets its trimmed destination to its `label` attribute, if any |
| Interactions.Outmap | bee-aggregation-rob/robots/interactions.py:57-81 | the out-map over all edges (a definition) |
| Interactions.OutmapKeys | bee-aggregation-rob/robots/interactions.py:71-79 | the out-map's keys are exactly the trimmed destinations of the CASU's out-edges |
| Interactions.OutmapLastLabel | bee-aggregation-rob/robots/interactions.py:71-79 | each destination carries the `label` of the last out-edge that reaches it |
| Interactions.Weight | bee-aggregation-rob/robots/interactions.py:105 | `ValueError` for a weight text that is not a number; `TypeError` when there is no weight and no default |
| Interactions.GetInmap | bee-aggregation-rob/robots/interactions.py:83-110 | `KeyError` for an unknown CASU; otherwise the map (or exception) built edge by edge |
| Interactions.InmapUpTo | bee-aggregation-rob/robots/interactions.py:102-108 | the in-map after the first edges (a definition), or the first weight error |
| Interactions.InWeight | bee-aggregation-rob/robots/interactions.py:103-105 | the weight read for one in-edge of the CASU (a definition) |
| Interactions.InmapStopsAtFailure | bee-aggregation-rob/robots/interactions.py:102-108 | once the scan has raised, it keeps that exception |
| Interactions.InmapSucceeds | bee-aggregation-rob/robots/interactions.py:102-108 | the in-map is built exactly when every in-edge's weight can be read |
| Interactions.InmapFirstError | bee-aggregation-rob/robots/interactions.py:102-108 | a failing scan raises the exception of the first unreadable in-edge weight |
| Interactions.InmapEntries | bee-aggregation-rob/robots/interactions.py:102-108 | the in-map holds exactly the in-neighbours, each with its edge's weight and label |
| Interactions.Flatten | bee-aggregation-rob/robots/interactions.py:148-189 | the flat graph's nodes are the trimmed node names, once each; its edges and attributes are `Kept` and `FlatAttrs` |
| Interactions.FlattenNodes | bee-aggregation-rob/robots/interactions.py:157-161 | adding an existing node changes nothing: every trimmed name appears once |
| Interactions.TrimmedNames | bee-aggregation-rob/robots/interactions.py:157-161 | the set of trimmed node names (a definition) |
| Interactions.Kept | bee-aggregation-rob/robots/interactions.py:164-178 | the edges between flat names, trimmed, in order (a definition) |
| Interactions.FlatAttrs | bee-aggregation-rob/robots/interactions.py:183-187 | each kept edge's attributes merged into its flat edge's, later edges overwriting earlier values (a definition) |
| Interactions.Flattened | bee-aggregation-rob/robots/interactions.py:148-189 | the flat graph (a definition): the given nodes, the `Kept` edges and the `FlatAttrs` attributes |
| Interactions.KeptMembers | bee-aggregation-rob/robots/interactions.py:164-178 | a flat edge exists exactly when some original edge joins two flat names and trims to it |
| Interactions.KeptAll | bee-aggregation-rob/robots/interactions.py:170-178 | when every edge joins two flat names, the flat edges are the originals trimmed, one for one and in order |
| Interactions.FlattenKeepsEveryEdge | bee-aggregation-rob/robots/interactions.py:164-178 | flattening a graph whose edges join its nodes drops no edge |
| Interactions.FlatAttrsKeys | bee-aggregation-rob/robots/interactions.py:183-187 | attributes are written on exactly the flat edges some kept edge became |
| Interactions.FlatAttrsHas | bee-aggregation-rob/robots/interactions.py:183-187 | a flat edge has an attribute exactly when an original edge that became it had it |
| Interactions.FlatAttrsLastWriter | bee-aggregation-rob/robots/interactions.py:183-187 | an attribute's value is that of the last original edge that carried it |
| Interactions.TrimmedNamesAreFlat | bee-aggregation-rob/robots/interactions.py:159 | trimmed node names have no `/` and trimming them again changes nothing |
| EnhancerSteps.Pushed | bee-aggregation-rob/robots/enhancer.py:78-92 | the new value is in front, every old value is one place back, the length is kept |
| EnhancerSteps.PushData1d | bee-aggregation-rob/robots/enhancer.py:78-92 | the in-place shift leaves the array equal to `Pushed`; an empty array raises `IndexError` |
| EnhancerSteps.PushedWithin | bee-aggregation-rob/robots/enhancer.py:78-92 | pushing keeps a buffer inside any interval that holds it and the new value |
| EnhancerSteps.Defaults | bee-aggregation-rob/robots/enhancer.py:100-123 | the class-level defaults of the nineteen parameters (a definition) |
| EnhancerSteps.EndsWithRtc | bee-aggregation-rob/robots/enhancer.py:138 | `endswith('.rtc')` (a definition) |
| EnhancerSteps.CasuName | bee-aggregation-rob/robots/enhancer.py:137-141 | the name is the path's basename without a trailing `.rtc`; any other basename is kept; the name has no `/` |
| EnhancerSteps.CasuNameOfRtcFile | bee-aggregation-rob/robots/enhancer.py:137-139 | `dir/name.rtc` names the CASU `name` |
| EnhancerSteps.CasuNameOfBareName | bee-aggregation-rob/robots/enhancer.py:140-141 | a bare name without `.rtc` is taken as it is |
| EnhancerSteps.ParseConf | bee-aggregation-rob/robots/enhancer.py:307-345 | `parse_conf` (a definition): every parameter takes its configured value if there is one, else its default |
| EnhancerSteps.ParseNoConf | bee-aggregation-rob/robots/enhancer.py:307-345 | without a configuration every parameter keeps its default |
| EnhancerSteps.ParseFullConf | bee-aggregation-rob/robots/enhancer.py:313-343 | a configuration naming every parameter overrides every default |
| EnhancerSteps.ParseConfIdempotent | bee-aggregation-rob/robots/enhancer.py:335-343 | reading the same configuration twice changes nothing more |
| EnhancerSteps.OnlyKey | bee-aggregation-rob/robots/enhancer.py:313-343 | a configuration naming one key of `parse_conf`'s list (a definition) |
| EnhancerSteps.WithKey | bee-aggregation-rob/robots/enhancer.py:313-343 | the defaults with one key's parameter replaced (a definition) |
| EnhancerSteps.ParseOneKey | bee-aggregation-rob/robots/enhancer.py:313-343 | for each of the 19 keys, a configuration naming that key alone changes that parameter to the configured value and keeps every other default |
| EnhancerSteps.FitHistLen | bee-aggregation-rob/robots/enhancer.py:148-150 | afterwards `HIST_LEN >= AVG_HIST_LEN`; a buffer that fits is untouched, one too short is lengthened to the window |
| EnhancerSteps.LogText | bee-aggregation-rob/robots/enhancer.py:287-292 | the text `write_logline` writes (a definition): fields joined by the delimiter, the suffix after one more delimiter when non-empty, then the line end |
| EnhancerSteps.LogTextFields | bee-aggregation-rob/robots/enhancer.py:289-292 | a log line without its line end splits back into its fields plus the suffix |
| EnhancerSteps.LogTextWithoutFields | bee-aggregation-rob/robots/enhancer.py:287-292 | with no fields, a line with a suffix starts with the delimiter |
| EnhancerSteps.CountDetections | bee-aggregation-rob/robots/enhancer.py:351-356 | the count is the number of zipped indices below 6 whose reading is strictly above its threshold |
| EnhancerSteps.DetectionShare | bee-aggregation-rob/robots/enhancer.py:358 | `count / MAX_SENSORS`; a zero `MAX_SENSORS` raises `ZeroDivisionError` |
| EnhancerSteps.DetectionShareWithin | bee-aggregation-rob/robots/enhancer.py:358 | six or more configured sensors keep the share in `[0, 1]` |
| EnhancerSteps.PlausibleTemp | bee-aggregation-rob/robots/enhancer.py:364 | a reading is believed when strictly between 2 and 50 degrees (a definition) |
| EnhancerSteps.Plausible | bee-aggregation-rob/robots/enhancer.py:362-365 | the kept readings are exactly those strictly between 2 and 50 |
| EnhancerSteps.ActualTemp | bee-aggregation-rob/robots/enhancer.py:360-370 | the estimate is -1 or a plausible temperature |
| EnhancerSteps.ActualTempOfOneReading | bee-aggregation-rob/robots/enhancer.py:366-368 | a single plausible reading is the estimate itself |
| EnhancerSteps.GetActualTemp | bee-aggregation-rob/robots/enhancer.py:360-370 | the loop returns `ActualTemp` of the readings |
| EnhancerSteps.IsSpace | bee-aggregation-rob/robots/enhancer.py:457 | the whitespace that `strip()` and `split()` of a Python 2 byte string remove: space, tab, newline, carriage return, vertical tab, form feed (a definition) |
| EnhancerSteps.TakeWord | bee-aggregation-rob/robots/enhancer.py:459 | the first word is the longest whitespace-free prefix |
| EnhancerSteps.FirstWord | bee-aggregation-rob/robots/enhancer.py:457-459 | `strip().split()[0]` fails exactly on all-whitespace text; otherwise a non-empty word without whitespace |
| EnhancerSteps.LeadingSpace | bee-aggregation-rob/robots/enhancer.py:457 | `strip()` removes exactly the leading whitespace: all characters before the count are whitespace, and the one at the count is not |
| EnhancerSteps.FirstWordAfterSpace | bee-aggregation-rob/robots/enhancer.py:457-459 | there is a first word exactly when something is left after the leading whitespace, and it is the whitespace-free word starting there |
| EnhancerSteps.FirstWordSkipsSpace | bee-aggregation-rob/robots/enhancer.py:457 | leading whitespace does not change the first word |
| EnhancerSteps.ParseCount | bee-aggregation-rob/robots/enhancer.py:457-459 | `IndexError` for blank data, `ValueError` for a non-number, otherwise the number |
| EnhancerSteps.ReadAt | bee-aggregation-rob/robots/enhancer.py:453 | the `k`-th `read_message()`: the queued messages in order, then nothing (a definition) |
| EnhancerSteps.EmptyReads | bee-aggregation-rob/robots/enhancer.py:465-467 | the `try_cnt` counter: how many of the first reads found nothing (a definition) |
| EnhancerSteps.Absorb | bee-aggregation-rob/robots/enhancer.py:454-460 | one read of the queue (a definition): an empty read changes nothing, a message's count is parsed and stored under its sender, a bad count raises |
| EnhancerSteps.Collect | bee-aggregation-rob/robots/enhancer.py:450-471 | the dict after a number of reads (a definition), or the first parse error |
| EnhancerSteps.RecvAllIncoming | bee-aggregation-rob/robots/enhancer.py:450-471 | the reads stop at the `retry_cnt + 1`-th empty read; the dict keeps what `Collect` says; a non-number stops it with that exception |
| EnhancerSteps.CollectSenders | bee-aggregation-rob/robots/enhancer.py:454-460 | the dict holds exactly the senders of the messages read |
| EnhancerSteps.CollectKeepsLast | bee-aggregation-rob/robots/enhancer.py:460 | each sender's count comes from its last message |
| EnhancerSteps.NoEmptyReadInQueue | bee-aggregation-rob/robots/enhancer.py:465-469 | no read within a queue of messages counts as empty |
| EnhancerSteps.RecvStopsAfterQueue | bee-aggregation-rob/robots/enhancer.py:465-469 | without retries the reads go to the end of the queue and once more |
| EnhancerSteps.StopsAt | bee-aggregation-rob/robots/enhancer.py:450-471 | where the reading loop without retries stops (a definition): at the first empty read with every earlier message parsed, or at the first message that fails to parse, before any empty read |
| EnhancerSteps.CollectFailurePersists | bee-aggregation-rob/robots/enhancer.py:460 | once a read has raised, every longer run of reads has raised |
| EnhancerSteps.EmptyReadsMonotone | bee-aggregation-rob/robots/enhancer.py:465-467 | the count of empty reads never decreases as reads go on |
| EnhancerSteps.StopsAtFirst | bee-aggregation-rob/robots/enhancer.py:450-471 | no read before a stopping read is itself one, so the queue alone decides where the loop stops and whether it raises |
| EnhancerSteps.Refreshed | bee-aggregation-rob/robots/enhancer.py:475-485 | the record update `update_interactions` makes from the collected counts (a definition) |
| EnhancerSteps.RefreshAll | bee-aggregation-rob/robots/enhancer.py:479-485 | known senders get `when := ts`, the count and `tomem := False`; unknown senders and silent neighbours change nothing |
| EnhancerSteps.Due | bee-aggregation-rob/robots/enhancer.py:495 | a record's count is due for its history when not yet stored and younger than `MAX_MSG_AGE` (a definition) |
| EnhancerSteps.ReceivedIsDue | bee-aggregation-rob/robots/enhancer.py:495 | a just-renewed entry is due whenever `MAX_MSG_AGE` is positive |
| EnhancerSteps.Stored | bee-aggregation-rob/robots/enhancer.py:495-499 | only `tomem` changes: it becomes set if it was set or the entry is younger than `MAX_MSG_AGE` |
| EnhancerSteps.PushDueCounts | bee-aggregation-rob/robots/enhancer.py:494-499 | due entries push their count into their history and are marked stored; other histories are unchanged |
| EnhancerSteps.StoredOnce | bee-aggregation-rob/robots/enhancer.py:495-499 | a stored count is never due again, at this cycle or later |
| EnhancerSteps.SmoothAll | bee-aggregation-rob/robots/enhancer.py:521-534 | every history's average is the mean of its first `valid` entries |
| EnhancerSteps.SmoothWithin | bee-aggregation-rob/robots/enhancer.py:521-534 | averages of bounded histories stay within the bounds |
| EnhancerSteps.WeightOf | bee-aggregation-rob/robots/enhancer.py:541-544 | `SELF_WEIGHT` for `self`, the in-edge weight `w` otherwise (a definition) |
| EnhancerSteps.ContribsAll | bee-aggregation-rob/robots/enhancer.py:537-547 | the new dict holds every averaged source, each weight times average, with `SELF_WEIGHT` for `self` |
| EnhancerSteps.HistAfter | bee-aggregation-rob/robots/enhancer.py:494-512 | a history after the pushes keeps its length |
| EnhancerSteps.PushAll | bee-aggregation-rob/robots/enhancer.py:494-512 | every history becomes `HistAfter`: its due count, then for `self` the own count, pushed |
| EnhancerSteps.Averaged | bee-aggregation-rob/robots/enhancer.py:492-547 | the histories pushed, averaged and weighed, with the records marked stored (a definition) |
| EnhancerSteps.Consistent | bee-aggregation-rob/robots/enhancer.py:201-215 | the dicts agree on their sources (a definition): a record per in-neighbour, a history of the configured length, an average and a contribution for it and for `self` |
| EnhancerSteps.AverageAll | bee-aggregation-rob/robots/enhancer.py:492-547 | the dicts stay consistent, and are pushed, averaged and weighed as `Averaged` says |
| EnhancerSteps.SumOver | bee-aggregation-rob/robots/enhancer.py:600-609 | the sum of a dict's values, the activation level (a definition) |
| EnhancerSteps.SumOverAnyKey | bee-aggregation-rob/robots/enhancer.py:602-609 | the sum of a dict's values does not depend on which key is taken first |
| EnhancerSteps.SumValues | bee-aggregation-rob/robots/enhancer.py:600-609 | the accumulation loop, in any iteration order, gives the sum of the contributions |
| EnhancerSteps.SumOverZero | bee-aggregation-rob/robots/enhancer.py:600-609 | all-zero contributions sum to zero |
| EnhancerSteps.ModeFor | bee-aggregation-rob/robots/enhancer.py:641-663 | the three-state schedule (a definition): fixed heat before `INIT_FIXHEAT_PERIOD_MINS` minutes have passed, proportional heat once more than `INIT_NOHEAT_PERIOD_MINS` minutes have passed, no heat in between |
| EnhancerSteps.ModeNeverGoesBack | bee-aggregation-rob/robots/enhancer.py:641-663 | as elapsed time grows the state number never decreases |
| EnhancerSteps.DefaultPeriodsHeatAtOnce | bee-aggregation-rob/robots/enhancer.py:641-654 | with both periods at their default 0 the controller heats proportionally as soon as time has passed |
| EnhancerSteps.HeatSetpoint | bee-aggregation-rob/robots/enhancer.py:622-626 | the activation is clipped to `[0, 1]`, the bonus is `T_RANGE` times it, and the setpoint `MIN_TEMP + bonus` lies in `[MIN_TEMP, MIN_TEMP + T_RANGE]` |
| EnhancerSteps.HeatSetpointSaturates | bee-aggregation-rob/robots/enhancer.py:622-626 | no activation gives `MIN_TEMP`, full activation gives `MAX_TEMP` |
| EnhancerSteps.HeatSetpointMonotone | bee-aggregation-rob/robots/enhancer.py:622-626 | more activation never lowers the setpoint |
| EnhancerSteps.RequestDue | bee-aggregation-rob/robots/enhancer.py:414 | a new request is due when the setpoint has moved more than `REF_DEVIATE` from the last one (a definition) |
| EnhancerSteps.TempCommand | bee-aggregation-rob/robots/enhancer.py:419-427 | standby exactly when the CASU is within half a degree of the setpoint, otherwise a request for the setpoint |
| EnhancerSteps.RequestSettles | bee-aggregation-rob/robots/enhancer.py:414 | right after a request no other is due |
| EnhancerSteps.FixedRequestDue | bee-aggregation-rob/robots/enhancer.py:386-388 | `set_fixed_temp` acts unless the peltier is already on at the target (a definition) |
| EnhancerSteps.FixedTempStep | bee-aggregation-rob/robots/enhancer.py:374-400 | nothing is done when the peltier is already on at the target; otherwise the target is requested and remembered as current and previous, with the peltier on |
| EnhancerSteps.TempWrapperStep | bee-aggregation-rob/robots/enhancer.py:407-436 | only a setpoint that moved more than `REF_DEVIATE` is acted on: one `TempCommand`, the setpoint remembered as previous and the peltier state as commanded |
| EnhancerSteps.TempWrapperSettles | bee-aggregation-rob/robots/enhancer.py:414-436 | after one wrapper call, a second does nothing |
| EnhancerSteps.FixedTempSettles | bee-aggregation-rob/robots/enhancer.py:386-400 | once the CASU reports the target as active, asserting it again does nothing |
| EnhancerSteps.OutputStep | bee-aggregation-rob/robots/enhancer.py:641-668 | no-heat shows dark grey and changes nothing; proportional heat shows the activation in red first and keeps the setpoint; without `ENABLE_TEMP` the heater memory is untouched |
| EnhancerSteps.OutputStepCommands | bee-aggregation-rob/robots/enhancer.py:641-668 | fixed heat requests only the fixed temperature; proportional heat sends, after the LED, the wrapper's one request or nothing; without `ENABLE_TEMP` only LED commands are sent |
| EnhancerSteps.SentAlongAll | bee-aggregation-rob/robots/enhancer.py:590-592 | the sends of the out-map loop (a definition): one `SendValue` of the value per out-map key, in a duplicate-free order covering every key, each to that key's label |
| EnhancerSteps.SendToAll | bee-aggregation-rob/robots/enhancer.py:590-592 | the sends are `SentAlongAll`: one `SendValue` of the value per key of the out-map, in a duplicate-free key order that covers every key, each to that key's label |
| BeeAggregation.CalibThresholds | bee-aggregation-rob/robots/enhancer.py:175-178 | under `MANUAL_CALIB_OVERRIDE` every threshold becomes 700, otherwise the calibration is kept |
| BeeAggregation.Enhancer.Valid | bee-aggregation-rob/robots/enhancer.py:147-215 | the enhancer's invariant (a definition): `HIST_LEN >= AVG_HIST_LEN`, `T_RANGE == MAX_TEMP - MIN_TEMP`, and the dicts `Consistent` with the in-map |
| BeeAggregation.Enhancer.Initial | bee-aggregation-rob/robots/enhancer.py:127-227 | the state before the first cycle (a definition): cycle 0, no-heat state, a zero record per in-neighbour, zero histories, averages and contributions for `self` and every in-neighbour, heater idle at 28 |
| BeeAggregation.Enhancer.constructor | bee-aggregation-rob/robots/enhancer.py:127-227 | the state is `Initial`, with the given name, parameters and maps, the calibration as `CalibThresholds` leaves it, no commands and no log |
| BeeAggregation.Enhancer.OwnShare | bee-aggregation-rob/robots/enhancer.py:349-358 | the own share (a definition): strict detections among the first six zipped readings over `MAX_SENSORS` |
| BeeAggregation.Enhancer.MeasureIrSensors | bee-aggregation-rob/robots/enhancer.py:349-358 | `current_count` becomes `OwnShare` of the readings; a division error is reported and leaves `current_count` as it was |
| BeeAggregation.Enhancer.UpdateInteractions | bee-aggregation-rob/robots/enhancer.py:475-485 | the reads stop where `StopsAt` says: at the first empty read, or at a message that fails to parse before any empty read; the records are `Refreshed` from the collected counts, and a parse error leaves them unchanged |
| BeeAggregation.Enhancer.UpdateAverages | bee-aggregation-rob/robots/enhancer.py:492-547 | the dicts end as `Averaged` says over the window `min(ts, AVG_HIST_LEN)`, and stay consistent |
| BeeAggregation.Enhancer.SetFixedTemp | bee-aggregation-rob/robots/enhancer.py:374-400 | the heater memory and commands follow `FixedTempStep` for the given or the default target |
| BeeAggregation.Enhancer.UpdateTempWrapper | bee-aggregation-rob/robots/enhancer.py:407-436 | the heater memory and commands follow `TempWrapperStep` with the estimated temperature |
| BeeAggregation.Enhancer.SendOwnCount | bee-aggregation-rob/robots/enhancer.py:589-592 | exactly the sends `SentAlongAll` describes for the own smoothed count are appended to the commands |
| BeeAggregation.Enhancer.InfoState | bee-aggregation-rob/robots/enhancer.py:566-587 | the fields `update_info` writes (a definition) |
| BeeAggregation.Enhancer.InfoUpdated | bee-aggregation-rob/robots/enhancer.py:566-592 | what `update_info` makes of those fields (a definition): `OwnShare`, then the queue read up to the stopping read of `StopsAt` and `Refreshed`, then `Averaged` over `min(ts, AVG_HIST_LEN)`; an exception keeps what was done before it and stops there |
| BeeAggregation.Enhancer.UpdateInfo | bee-aggregation-rob/robots/enhancer.py:566-592 | the fields it writes end as `InfoUpdated` says, from their values before, and the averages stay consistent; an exception sends nothing; otherwise the own smoothed count is sent along every out-link as `SentAlongAll` says, and nothing else |
| BeeAggregation.Enhancer.DriveOutputs | bee-aggregation-rob/robots/enhancer.py:640-668 | the heater memory and commands follow `OutputStep` for the current state |
| BeeAggregation.Enhancer.RecomputeSetpoint | bee-aggregation-rob/robots/enhancer.py:600-632 | the activation and setpoint are `HeatSetpoint` of the summed contributions, logged as an `NH_DATA` and a `HEAT_CALCS` line |
| BeeAggregation.Enhancer.LogMode | bee-aggregation-rob/robots/enhancer.py:670-679 | a `MODE` line only when the state changed, then the `IR` and `HEAT` lines |
| BeeAggregation.Enhancer.ApplyMode | bee-aggregation-rob/robots/enhancer.py:635-679 | the state follows the elapsed time, the outputs follow `OutputStep`, and the log follows `LogMode` |
| BeeAggregation.Enhancer.OutputsUpdated | bee-aggregation-rob/robots/enhancer.py:596-680 | what `update_outputs` does (a definition): `HeatSetpoint` of the level, the mode from the elapsed time, heater and LEDs as `OutputStep` says, and the `NH_DATA`, `HEAT_CALCS`, change-only `MODE`, `IR` and `HEAT` log lines |
| BeeAggregation.Enhancer.UpdateOutputs | bee-aggregation-rob/robots/enhancer.py:596-680 | the level is the sum of the contributions; state, heater, commands and log end as `OutputsUpdated` says; the setpoint is in `[MIN_TEMP, MIN_TEMP + T_RANGE]` or the fixed temperature |
| BeeAggregation.Enhancer.Tick | bee-aggregation-rob/robots/enhancer.py:556 | the cycle counter advances by one |
| BeeAggregation.Enhancer.UpdateAll | bee-aggregation-rob/robots/enhancer.py:557-559 | the information fields end as `InfoUpdated` says; an exception leaves the commands, log, heater and mode untouched; without one the sends of `update_info` and the outputs of `update_outputs` (as `OutputsUpdated` says) follow in that order |
| BeeAggregation.Enhancer.OneCycle | bee-aggregation-rob/robots/enhancer.py:555-560 | the counter advances, then the whole state follows `InfoUpdated` at the new count and, when nothing raised, `OutputsUpdated`, with the commands and log in order; an exception leaves commands, log, heater and mode untouched; after a cycle without exception the setpoint lies in `[MIN_TEMP, MAX_TEMP]` or is the fixed temperature |
| BeeAggregation.Enhancer.Stop | bee-aggregation-rob/robots/enhancer.py:733-741 | the LEDs go dark grey on every call; the closing log line and the CASU's release happen on the first call only |
| EnhancerSteps.DistinctKeysCoverMap | bee-aggregation-rob/robots/enhancer.py:590 | iterating a dict visits as many keys as it holds |
| EnhancerSteps.DropLastKey | bee-aggregation-rob/robots/enhancer.py:590 | without its last key, a duplicate-free listing of a dict's keys lists the dict minus that key, still without duplicates |
| BeeAggregation.Start | bee-aggregation-rob/robots/enhancer.py:137-166 | an unknown CASU raises `KeyError`; an unreadable in-edge weight raises its exception; otherwise a fresh `Enhancer` in its `Initial` state with the derived name, the configured parameters and the flat graph's in- and out-maps; the flat graph's nodes are the trimmed names of the graph's nodes, once each |
| Visualizer.Trunc | visualizer/assisi-visualizer/src/visualizer.cpp:101 | the `double` to `int` conversion truncates toward zero |
| Visualizer.TruncMonotone | visualizer/assisi-visualizer/src/visualizer.cpp:163 | truncation is non-decreasing |
| Visualizer.TempMin | visualizer/assisi-visualizer/src/visualizer.cpp:156 | `temp_min`, 24 (a definition) |
| Visualizer.TempMax | visualizer/assisi-visualizer/src/visualizer.cpp:157 | `temp_max`, 40 (a definition) |
| Visualizer.HueMin | visualizer/assisi-visualizer/src/visualizer.cpp:160 | `hue_min`, 240 (a definition) |
| Visualizer.HueMax | visualizer/assisi-visualizer/src/visualizer.cpp:161 | `hue_max`, 380 (a definition) |
| Visualizer.TempToHue | visualizer/assisi-visualizer/src/visualizer.cpp:154-169 | the hue is the truncation of `8.75 * (clip(t, 24, 40) - 24) + 240`, lies in `[240, 380]`, is 240 at or below 24 degrees and 380 at or above 40 |
| Visualizer.TempToHueMonotone | visualizer/assisi-visualizer/src/visualizer.cpp:156-163 | a warmer CASU never shows a lower hue |
| Visualizer.TempToHueAtEvenDegrees | visualizer/assisi-visualizer/src/visualizer.cpp:160-163 | every fourth degree from 24 to 40 gets the exact hue `240 + 35k` |
| Visualizer.HeatingAreaHeight | visualizer/assisi-visualizer/src/visualizer.cpp:27-30 | the height of a heating area: the 100-pixel CASU square with 100-pixel margins on every side, 300 (a definition) |
| Visualizer.Margin | visualizer/assisi-visualizer/src/visualizer.cpp:99-101 | the sector margin `0.5 h - 0.5 h * 0.5 * ir * 0.7`, truncated to `int` (a definition) |
| Visualizer.MarginAtZero | visualizer/assisi-visualizer/src/visualizer.cpp:99-101 | a reading of 0 gives margin `h / 2`, so no reading is visible |
| Visualizer.MarginAtTwo | visualizer/assisi-visualizer/src/visualizer.cpp:100-101 | a reading of 2 gives margin `0.15 h` (truncated) |
| Visualizer.MarginAntitone | visualizer/assisi-visualizer/src/visualizer.cpp:101 | the margin does not grow as the reading grows |
| Visualizer.MarginInArea | visualizer/assisi-visualizer/src/visualizer.cpp:99-102 | for readings in `[0, 2]` the margin is non-negative and at most half the height |
| Visualizer.SectorStart | visualizer/assisi-visualizer/src/visualizer.cpp:103 | the start angle `(60 i - fov / 2) * 16`, truncated (a definition) |
| Visualizer.SectorSpan | visualizer/assisi-visualizer/src/visualizer.cpp:103 | the span angle `fov * 16`, truncated (a definition) |
| Visualizer.Sector | visualizer/assisi-visualizer/src/visualizer.cpp:98-104 | one reading's pie (a definition): its margin, angles and whether a bee is drawn |
| Visualizer.Sectors | visualizer/assisi-visualizer/src/visualizer.cpp:93-112 | the pies for every reading, in order (a definition) |
| Visualizer.FieldOfView | visualizer/assisi-visualizer/src/visualizer.cpp:94 | `n` sectors of `360 / n - 2` degrees leave 2 degrees per sector of the full turn |
| Visualizer.SixSectorsTileTheCircle | visualizer/assisi-visualizer/src/visualizer.cpp:93-103 | with six readings every sector spans 928 sixteenths, starts at `960 i - 464`, and neighbours (including across the full turn) are 32 sixteenths apart |
| Visualizer.DrawReadings | visualizer/assisi-visualizer/src/visualizer.cpp:96-112 | the reading loop yields, per reading, its margin, start and span angles, and whether a bee is drawn |
| Visualizer.CasuData | visualizer/assisi-visualizer/include/subscriber.h:18-27 | what the subscriber stores per CASU: temperature, reference temperature, IR readings and thresholds (a definition) |
| Visualizer.Subscriber.constructor | visualizer/assisi-visualizer/include/subscriber.h:13-34 | the `casu_data` map starts empty, with the given default `CasuData` |
| Visualizer.Subscriber.Index | visualizer/assisi-visualizer/src/visualizer.cpp:73 | `operator[]` inserts the default for a missing key, keeps the rest, and returns the key's entry |
| Visualizer.Inserted | visualizer/assisi-visualizer/src/visualizer.cpp:83 | the map gains the key and keeps every existing entry; a new key gets the default |
| Visualizer.InsertedIdempotent | visualizer/assisi-visualizer/src/visualizer.cpp:93 | looking up a key again changes nothing |
| Visualizer.TopCasu | visualizer/assisi-visualizer/src/visualizer.cpp:73 | the key of the top CASU, `casu-001` (a definition) |
| Visualizer.BottomCasu | visualizer/assisi-visualizer/src/visualizer.cpp:83 | the key of the bottom CASU, `casu-002` (a definition) |
| Visualizer.Render | visualizer/assisi-visualizer/src/visualizer.cpp:70-135 | what one paint shows (a definition): the hue and pies of `casu-001` and `casu-002` |
| Visualizer.PaintEvent | visualizer/assisi-visualizer/src/visualizer.cpp:48-152 | after a paint the map holds `casu-001` and `casu-002` and otherwise what it held, and the frame shows their hues and pies |
| Visualizer.PaintStable | visualizer/assisi-visualizer/src/visualizer.cpp:116 | a second paint leaves the map as the first one left it |

## Left out

- Hardware and time are not modelled: CASU calls, `time.sleep`, wall-clock time and `sync_flash`, and log and sync-file handling. Readings, the message queue and elapsed time are parameters, and the commands sent are recorded.
- The `calibration` module is not part of this model. Its thresholds are an input to `Start`.
- YAML and `.nbg` loading are not modelled. A configuration is a `Conf` value whose entries already have the Dafny type of their parameter, and a graph is a `Graph` value. Python's distinction between an `int` and a `float` read from YAML is lost, which matters for `MAX_SENSORS` (below). `AVG_HIST_LEN` and `HIST_LEN` are natural numbers, so negative settings cannot be expressed: in the source a negative `HIST_LEN` makes `np.zeros` raise, and a negative `AVG_HIST_LEN` makes the window `bee_hist[k][0:valid]` drop entries from the end.
- The model does not decide in which order pygraphviz yields edges. The edge sequence is an input, in the library's order.
- Dict iteration order is not modelled. The loops over dicts pick any remaining key, and sums are proved independent of the order.
- Numbers use exact arithmetic. IEEE floating-point rounding, NaN and infinity are not modelled, nor is text formatting of numbers (`"{:.3f}"`, `str(float)`, `disp_vector`).
- `SendValue` records the number, not its text.
- `BeeAggregation.Enhancer.UpdateAverages` requires `ts >= 1` and `AVG_HIST_LEN >= 1`. With an empty averaging window the source's `np.mean` of an empty slice gives NaN with a warning, which this model does not represent.
- BeeAggregation.Enhancer.UpdateInfo: requires `ts >= 1` and `AVG_HIST_LEN >= 1`, because it calls `UpdateAverages`; the empty window is not modelled.
- BeeAggregation.Enhancer.UpdateAll: requires `ts >= 1` and `AVG_HIST_LEN >= 1`, as `UpdateInfo` does.
- BeeAggregation.Enhancer.OneCycle: requires `AVG_HIST_LEN >= 1`; its own counter step makes `ts >= 1`.
- The history buffers in the `Enhancer` are `seq` values that are replaced. In-place update and aliasing of the numpy arrays are modelled only by `EnhancerSteps.PushData1d`, on an `array`.
- `BeeAggregation.Enhancer.UpdateOutputs` does not model the per-neighbour `print` and log fields. The `NH_DATA` line records only the number of sources.
- The `IR` and `HEAT` log lines record that they were written, not the sensor values in them.
- `show_inout` in interactions.py only prints, and is not modelled.
- The `verb` printing and the warning prints throughout are not modelled.
- The `unset_temp`, `tx_count` and `_sync_flash` helpers are not modelled separately. `tx_count` appears as the `SendValue` command it sends.
- EnhancerSteps.DetectionShare: divides as real numbers. Under Python 2, `float(count / self.MAX_SENSORS)` at enhancer.py:358 floor-divides when `MAX_SENSORS` is an integer, and `parse_conf` stores the YAML value without a cast. So a configured `MAX_SENSORS: 6` gives an own share of 0.0 for any count below 6, which zeroes the CASU's own contribution. Only the default `6.0` or a float setting behaves as modelled.
- `BeeAggregation.Start` passes no default weight to `get_inmap`, as the source does. An in-edge without a weight therefore raises `TypeError`.
- The relay and listener scripts with ZMQ sockets or threads are not modelled; they only do I/O. Neither is `fish-attract-bees/controllers/listen_and_heat.py`, which has no logic.
- The commented-out controller of communicate_and_heat.py is not modelled.
- The `while True` loops of the fish controllers are modelled over a finite sequence of cycles (`FishCorridor.ReportLoop`, `FishCasuOnly.Controller.Cycle` per iteration); the endless repetition is not.
- Qt drawing is not modelled: painters, gradients, SVG rendering, the scaling of the scene and the bee positions computed with `cos`/`sin`. `QColor::setHsv` is also out, so whether Qt accepts a hue above 359 is not modelled.
- `Visualizer.SectorStart` computes `60 * i` exactly. The source computes it in `unsigned` arithmetic, which wraps only for more than 71 million readings.
- The default-constructed `CasuData` is a parameter of `Visualizer.Subscriber`, because its constructor body is not part of this model.
- The subscriber's message handling is not modelled: `CasuMsg`, `CatsMsg` and `FishData::appendPos` are not part of this model.
