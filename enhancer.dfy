/** The `Enhancer` controller of bee-aggregation-rob/robots/enhancer.py: a CASU
    that heats in proportion to the bees it and its neighbours detect. Each
    cycle it counts its own IR detections, takes in its neighbours' counts,
    smooths every source over a window of its history, weighs and sums the
    averages into an activation, and maps that to a setpoint; a three-state
    schedule decides whether that setpoint is used. Sensor readings, the
    message queue and the elapsed time are parameters of the methods; the
    commands it sends and the log lines it writes are recorded. */
module BeeAggregation {
  import opened Wrappers
  import opened PyNumeric
  import opened BeeDensity
  import opened CasuIo
  import opened EnhancerSteps
  import Interactions

  /** The kinds of log line `write_logline` writes; timestamps, sensor values
      and number formatting are not modelled. */
  datatype LogLine =
    | NhData(sources: nat)
    | HeatCalcs(activation: real, bonus: real)
    | ModeLine(code: int)
    | IrLine
    | HeatLine
    | Finished

  /** The data `update_info` works on: the own share, the neighbours'
      records, and every source's history, average and contribution. */
  datatype Info = Info(count: real, rx: map<string, RxRecord>, hist: map<string, seq<real>>,
                       smoothed: map<string, real>, contribs: map<string, real>)

  /** `calib_data['IR']`, every threshold forced to 700 under `MANUAL_CALIB_OVERRIDE`. */
  function CalibThresholds(calib: seq<real>, manualOverride: bool): (r: seq<real>)
    ensures |r| == |calib|
    ensures manualOverride ==> forall i :: 0 <= i < |r| ==> r[i] == 700.0
    ensures !manualOverride ==> r == calib
  {
    if manualOverride then seq(|calib|, _ => 700.0) else calib
  }

  class Enhancer {
    const params: Params
    const verb: int
    const tRange: real
    const name: string
    const inMap: map<string, Interactions.InEdge>
    const outMap: map<string, Option<string>>
    /** The IR thresholds from calibration. */
    const calibIr: seq<real>

    var ts: int
    var state: Mode
    /** `None` before the first cycle, so that the first state is always logged. */
    var oldState: Option<Mode>
    var mostRecentRx: map<string, RxRecord>
    var beeHist: map<string, seq<real>>
    var smoothedBeeHist: map<string, real>
    var stateContribs: map<string, real>
    var currentCount: real
    var activePeltier: bool
    var currentTemp: real
    var prevTemp: real
    var stopped: bool
    /** Commands sent to the CASU so far. */
    var commands: seq<Command>
    /** Lines written to the log file so far. */
    var log: seq<LogLine>

    ghost predicate Valid()
      reads this`mostRecentRx, this`beeHist, this`smoothedBeeHist, this`stateContribs
    {
      params.histLen >= params.avgHistLen &&
      tRange == params.maxTemp - params.minTemp &&
      verb == params.verb &&
      Consistent(inMap, mostRecentRx, beeHist, smoothedBeeHist, stateContribs, params.histLen)
    }

    /** The state `__init__` sets up before the first cycle: no cycle run and
        no state logged yet, the no-heat state, every neighbour last heard at
        cycle 0 with count 0 and nothing stored, every source's history,
        average and contribution zero, and the heater idle at 28 degrees.
        (`current_count` is first set by the first cycle.) */
    ghost predicate Initial()
      reads this
    {
      ts == 0 && state == InitNoheat && oldState.None? &&
      mostRecentRx.Keys == inMap.Keys &&
      beeHist.Keys == smoothedBeeHist.Keys == stateContribs.Keys == inMap.Keys + {"self"} &&
      (forall k :: k in inMap ==> mostRecentRx[k] == RxRecord(0, 0.0, false)) &&
      (forall k :: (k == "self" || k in inMap) ==> beeHist[k] == seq(params.histLen, _ => 0.0)) &&
      (forall k :: (k == "self" || k in inMap) ==> smoothedBeeHist[k] == 0.0 && stateContribs[k] == 0.0) &&
      !activePeltier && currentTemp == 28.0 && prevTemp == 28.0 && !stopped
    }

    /** The state `__init__` leaves behind once the configuration, the
        interaction maps and the calibration are in hand. */
    constructor (name: string, params: Params, inMap: map<string, Interactions.InEdge>,
                 outMap: map<string, Option<string>>, calib: seq<real>)
      requires params.histLen >= params.avgHistLen
      ensures Valid()
      ensures this.name == name && this.params == params && this.inMap == inMap && this.outMap == outMap
      ensures calibIr == CalibThresholds(calib, params.manualCalibOverride)
      ensures Initial()
      ensures commands == [] && log == []
    {
      this.name := name;
      this.params := params;
      verb := params.verb;
      tRange := params.maxTemp - params.minTemp;
      this.inMap := inMap;
      this.outMap := outMap;
      calibIr := CalibThresholds(calib, params.manualCalibOverride);
      ts := 0;
      state := InitNoheat;
      oldState := None;
      mostRecentRx := map k | k in inMap :: RxRecord(0, 0.0, false);
      beeHist := map k | k in inMap.Keys + {"self"} :: seq(params.histLen, _ => 0.0);
      smoothedBeeHist := map k | k in inMap.Keys + {"self"} :: 0.0;
      stateContribs := map k | k in inMap.Keys + {"self"} :: 0.0;
      currentCount := 0.0;
      activePeltier := false;
      currentTemp := 28.0;
      prevTemp := 28.0;
      stopped := false;
      commands := [];
      log := [];
    }

    /** The own share `measure_ir_sensors` computes from the IR readings
        `levels`: the strict detections among the first six zipped readings,
        over `MAX_SENSORS`. */
    ghost function OwnShare(levels: seq<real>): Result<real>
    {
      DetectionShare(|AboveUpTo(levels, calibIr, Min(6, Pairs(levels, calibIr)))|, params.maxSensors)
    }

    /** `measure_ir_sensors` with the IR readings `levels`. */
    method MeasureIrSensors(levels: seq<real>) returns (err: Option<PyError>)
      modifies this`currentCount
      ensures var share := OwnShare(levels);
        (share.Failure? ==> err == Some(share.error) && currentCount == old(currentCount)) &&
        (share.Success? ==> err.None? && currentCount == share.value)
    {
      var count := CountDetections(levels, calibIr);
      var share := DetectionShare(count, params.maxSensors);
      if share.Failure? {
        return Some(share.error);
      }
      currentCount := share.value;
      return None;
    }

    /** `update_interactions`: drains the message queue `inbox` (without
        retries) and renews the entries of the senders it knows. */
    method UpdateInteractions(inbox: seq<Option<Message>>, toFloat: string -> Option<real>)
      returns (err: Option<PyError>, consumed: nat)
      requires Valid()
      modifies this`mostRecentRx
      ensures Valid()
      ensures consumed >= 1
      ensures StopsAt(inbox, consumed, toFloat)
      ensures var c := Collect(inbox, consumed, toFloat);
        (c.Failure? ==> err == Some(c.error) && mostRecentRx == old(mostRecentRx)) &&
        (c.Success? ==> (err.None? &&
          Refreshed(old(mostRecentRx), c.value, ts, mostRecentRx)))
    {
      var msgs;
      msgs, consumed := RecvAllIncoming(inbox, 0, toFloat);
      if msgs.Failure? {
        return Some(msgs.error), consumed;
      }
      mostRecentRx := RefreshAll(mostRecentRx, msgs.value, ts);
      return None, consumed;
    }

    /** `update_averages`. The averaging window must hold at least one entry
        (`ts` and `AVG_HIST_LEN` positive). */
    method UpdateAverages()
      requires Valid() && ts >= 1 && params.avgHistLen >= 1
      modifies this`beeHist, this`mostRecentRx, this`smoothedBeeHist, this`stateContribs
      ensures Valid()
      ensures Averaged(old(beeHist), old(mostRecentRx), ts, params.maxMsgAge, currentCount, Min(ts, params.avgHistLen),
                       inMap, params.selfWeight, beeHist, mostRecentRx, smoothedBeeHist, stateContribs)
    {
      var h, rx, sm, c :=
        AverageAll(beeHist, mostRecentRx, smoothedBeeHist, ts, params.maxMsgAge, currentCount,
                   Min(ts, params.avgHistLen), inMap, params.selfWeight, stateContribs, params.histLen);
      beeHist, mostRecentRx, smoothedBeeHist, stateContribs := h, rx, sm, c;
    }

    /** `set_fixed_temp(temp)` with the CASU reporting setpoint `tref` and state `on`. */
    method SetFixedTemp(temp: Option<real>, tref: real, on: bool)
      modifies this`currentTemp, this`prevTemp, this`activePeltier, this`commands
      ensures var step := FixedTempStep(Heater(old(currentTemp), old(prevTemp), old(activePeltier)),
                                             temp.GetOr(params.initFixheatTemp), tref, on);
        Heater(currentTemp, prevTemp, activePeltier) == step.0 && commands == old(commands) + step.1
    {
      var target := if temp.None? then params.initFixheatTemp else temp.value;
      if tref == target && on {
      } else {
        commands := commands + [SetTemp(target)];
        currentTemp := target;
        activePeltier := true;
        prevTemp := currentTemp;
      }
    }

    /** `update_temp_wrapper` with the temperature sensors reading `temps`. */
    method UpdateTempWrapper(temps: seq<real>)
      modifies this`prevTemp, this`activePeltier, this`commands
      ensures var step := TempWrapperStep(Heater(currentTemp, old(prevTemp), old(activePeltier)),
                                               params.refDeviate, ActualTemp(temps));
        Heater(currentTemp, prevTemp, activePeltier) == step.0 && commands == old(commands) + step.1
    {
      ghost var step := TempWrapperStep(Heater(currentTemp, prevTemp, activePeltier), params.refDeviate,
                                        ActualTemp(temps));
      if RequestDue(currentTemp, prevTemp, params.refDeviate) {
        var t := GetActualTemp(temps);
        assert step.1 == [TempCommand(currentTemp, t)];
        if Abs(t - currentTemp) <= 0.5 {
          commands := commands + [TempStandby];
          activePeltier := false;
        } else {
          commands := commands + [SetTemp(currentTemp)];
          activePeltier := true;
        }
        prevTemp := currentTemp;
      }
    }

    /** The end of `update_info`: the own smoothed count sent once along every
        outgoing link, to the link's label, in the dict's order `order`. */
    method SendOwnCount() returns (ghost sends: seq<Command>, ghost order: seq<string>)
      requires "self" in smoothedBeeHist
      modifies this`commands
      ensures commands == old(commands) + sends
      ensures SentAlongAll(sends, order, outMap, smoothedBeeHist["self"])
    {
      var s;
      s, order := SendToAll(outMap, smoothedBeeHist["self"]);
      sends := s;
      commands := commands + s;
    }

    /** The fields `update_info` updates. */
    ghost function InfoState(): Info
      reads this`currentCount, this`mostRecentRx, this`beeHist, this`smoothedBeeHist, this`stateContribs
    {
      Info(currentCount, mostRecentRx, beeHist, smoothedBeeHist, stateContribs)
    }

    /** What `update_info` at cycle `ts` makes of `before`, with the IR
        readings `levels` and the message queue `inbox`: the own share
        (`OwnShare`); then the `consumed` reads up to where `StopsAt` says
        they stop, taken in as `Refreshed` says into the records `rx`; then
        the histories pushed, averaged and weighed as `Averaged` says. An
        exception on the way propagates as `err`; what came before it stays
        done and nothing after it happens. */
    ghost predicate InfoUpdated(levels: seq<real>, inbox: seq<Option<Message>>, toFloat: string -> Option<real>,
                                ts: nat, before: Info, after: Info, err: Option<PyError>, consumed: nat,
                                rx: map<string, RxRecord>)
    {
      var share := OwnShare(levels);
      var c := Collect(inbox, consumed, toFloat);
      consumed >= 1 &&
      (share.Failure? ==> err == Some(share.error) && after == before) &&
      (share.Success? ==> StopsAt(inbox, consumed, toFloat)) &&
      (share.Success? && c.Failure? ==> err == Some(c.error) && after == before.(count := share.value)) &&
      (share.Success? && c.Success? ==>
        err.None? && after.count == share.value &&
        Refreshed(before.rx, c.value, ts, rx) &&
        Averaged(before.hist, rx, ts, params.maxMsgAge, after.count, Min(ts, params.avgHistLen), inMap,
                 params.selfWeight, after.hist, after.rx, after.smoothed, after.contribs))
    }

    /** `update_info`: the fields it updates change as `InfoUpdated` says;
        then, when nothing raised, the own smoothed count is sent along every
        outgoing link as `SentAlongAll` says. */
    method UpdateInfo(levels: seq<real>, inbox: seq<Option<Message>>, toFloat: string -> Option<real>)
      returns (err: Option<PyError>, ghost consumed: nat, ghost rx: map<string, RxRecord>,
               ghost sends: seq<Command>, ghost order: seq<string>, ghost info: Info)
      requires Valid() && ts >= 1 && params.avgHistLen >= 1
      modifies this`currentCount, this`mostRecentRx, this`beeHist, this`smoothedBeeHist, this`stateContribs, this`commands
      ensures Valid()
      ensures info == InfoState()
      ensures InfoUpdated(levels, inbox, toFloat, old(ts), old(InfoState()), info, err, consumed, rx)
      ensures err.Some? ==> commands == old(commands)
      ensures err.None? ==> "self" in smoothedBeeHist && commands == old(commands) + sends &&
                            SentAlongAll(sends, order, outMap, smoothedBeeHist["self"])
    {
      consumed, rx, sends, order := 1, mostRecentRx, [], [];
      err := MeasureIrSensors(levels);
      if err.Some? {
        info := InfoState();
        return;
      }
      var n;
      err, n := UpdateInteractions(inbox, toFloat);
      consumed, rx := n, mostRecentRx;
      if err.Some? {
        info := InfoState();
        return;
      }
      UpdateAverages();
      sends, order := SendOwnCount();
      info := InfoState();
    }

    /** The mode branch of `update_outputs`, with the proportional setpoint
        already in `currentTemp`. */
    method DriveOutputs(activation: real, tref: real, on: bool, temps: seq<real>)
      modifies this`prevTemp, this`activePeltier, this`commands, this`currentTemp
      ensures var step := OutputStep(Heater(old(currentTemp), old(prevTemp), old(activePeltier)), state,
                                          activation, params.enableTemp, params.initFixheatTemp,
                                          params.refDeviate, tref, on, ActualTemp(temps));
        Heater(currentTemp, prevTemp, activePeltier) == step.0 && commands == old(commands) + step.1
    {
      ghost var h := Heater(currentTemp, prevTemp, activePeltier);
      match state {
        case FixedTemp =>
          OutputStepFixed(h, activation, params.enableTemp, params.initFixheatTemp, params.refDeviate, tref, on,
                          ActualTemp(temps));
          if params.enableTemp {
            SetFixedTemp(None, tref, on);
          }
        case HeatPropto =>
          OutputStepPropto(h, activation, params.enableTemp, params.initFixheatTemp, params.refDeviate, tref, on,
                           ActualTemp(temps));
          ghost var before := commands;
          var led := Led(Some(activation), Some(0.0), Some(0.0));
          commands := commands + [led];
          if params.enableTemp {
            UpdateTempWrapper(temps);
            assert commands == before + [led] + TempWrapperStep(h, params.refDeviate, ActualTemp(temps)).1;
          }
        case InitNoheat =>
          commands := commands + [Led(Some(0.2), Some(0.2), Some(0.2))];
      }
    }

    /** The first half of `update_outputs`: the activation is the sum of the
        contributions, clipped, and the setpoint is proportional to it; both
        are logged. */
    method RecomputeSetpoint() returns (activation: real, ghost level: real)
      modifies this`currentTemp, this`log
      ensures level == SumOver(stateContribs)
      ensures var hs := HeatSetpoint(params.minTemp, tRange, level);
        activation == hs.0 && currentTemp == hs.2 &&
        log == old(log) + [NhData(|smoothedBeeHist|), HeatCalcs(hs.0, hs.1)]
    {
      var sum := SumValues(stateContribs);
      level := sum;
      log := log + [NhData(|smoothedBeeHist|)];
      var (a, bonus, setpoint) := HeatSetpoint(params.minTemp, tRange, sum);
      currentTemp := setpoint;
      log := log + [HeatCalcs(a, bonus)];
      activation := a;
    }

    /** The end of `update_outputs`: a mode line on the cycles the mode
        changes, then the sensor lines. */
    method LogMode()
      modifies this`oldState, this`log
      ensures oldState == Some(state)
      ensures log == old(log) + (if Some(state) != old(oldState) then [ModeLine(state.Code())] else []) + [IrLine, HeatLine]
    {
      if Some(state) != oldState {
        log := log + [ModeLine(state.Code())];
      }
      oldState := Some(state);
      log := log + [IrLine, HeatLine];
    }

    /** The second half of `update_outputs`, with the proportional setpoint
        already in `currentTemp`: the mode from the elapsed time, the outputs
        it drives, and the mode log. */
    method ApplyMode(elap: real, activation: real, tref: real, on: bool, temps: seq<real>)
      modifies this`currentTemp, this`prevTemp, this`activePeltier, this`commands, this`state, this`oldState, this`log
      ensures state == ModeFor(elap, params.initFixheatPeriodMins, params.initNoheatPeriodMins)
      ensures oldState == Some(state)
      ensures log == old(log) + (if Some(state) != old(oldState) then [ModeLine(state.Code())] else []) + [IrLine, HeatLine]
      ensures Heater(currentTemp, prevTemp, activePeltier) ==
        OutputStep(Heater(old(currentTemp), old(prevTemp), old(activePeltier)), state, activation,
                   params.enableTemp, params.initFixheatTemp, params.refDeviate, tref, on, ActualTemp(temps)).0
      ensures commands == old(commands) +
        OutputStep(Heater(old(currentTemp), old(prevTemp), old(activePeltier)), state, activation,
                   params.enableTemp, params.initFixheatTemp, params.refDeviate, tref, on, ActualTemp(temps)).1
    {
      state := ModeFor(elap, params.initFixheatPeriodMins, params.initNoheatPeriodMins);
      DriveOutputs(activation, tref, on, temps);
      LogMode();
    }

    /** What `update_outputs` at `elap` seconds since start does, with the
        CASU reporting setpoint `tref` and state `on`, the temperature sensors
        reading `temps`, the contributions summing to `level` from `sources`
        sources, the heater memory `before` and the last logged mode
        `beforeMode`: the activation and setpoint from `HeatSetpoint`, the
        mode from the elapsed time, the heater and the LEDs driven from the
        new setpoint as `OutputStep` says (`after`, `sent`), and the log lines
        `logged`: the neighbourhood and heat lines, a mode line when the mode
        changed, and the sensor lines. */
    ghost predicate OutputsUpdated(elap: real, tref: real, on: bool, temps: seq<real>, level: real, sources: nat,
                                   before: Heater, beforeMode: Option<Mode>,
                                   after: Heater, mode: Mode, lastMode: Option<Mode>,
                                   sent: seq<Command>, logged: seq<LogLine>)
    {
      var hs := HeatSetpoint(params.minTemp, tRange, level);
      var step := OutputStep(Heater(hs.2, before.prevTemp, before.activePeltier), mode, hs.0, params.enableTemp,
                             params.initFixheatTemp, params.refDeviate, tref, on, ActualTemp(temps));
      mode == ModeFor(elap, params.initFixheatPeriodMins, params.initNoheatPeriodMins) &&
      lastMode == Some(mode) && after == step.0 && sent == step.1 &&
      logged == [NhData(sources), HeatCalcs(hs.0, hs.1)] +
                (if Some(mode) != beforeMode then [ModeLine(mode.Code())] else []) + [IrLine, HeatLine]
    }

    /** `update_outputs`, as `OutputsUpdated` says, with `level` the sum of
        the contributions. */
    method UpdateOutputs(elap: real, tref: real, on: bool, temps: seq<real>)
      returns (ghost level: real, ghost sent: seq<Command>, ghost logged: seq<LogLine>)
      modifies this`currentTemp, this`prevTemp, this`activePeltier, this`commands, this`state, this`oldState, this`log
      ensures level == SumOver(stateContribs)
      ensures OutputsUpdated(elap, tref, on, temps, level, |smoothedBeeHist|,
                             old(Heater(currentTemp, prevTemp, activePeltier)), old(oldState),
                             Heater(currentTemp, prevTemp, activePeltier), state, oldState, sent, logged)
      ensures commands == old(commands) + sent && log == old(log) + logged
      ensures 0.0 <= tRange ==> (params.minTemp <= currentTemp <= params.minTemp + tRange ||
                                 (state == FixedTemp && currentTemp == params.initFixheatTemp))
    {
      ghost var h, m, c, l := Heater(currentTemp, prevTemp, activePeltier), oldState, commands, log;
      var a;
      a, level := RecomputeSetpoint();
      ApplyMode(elap, a, tref, on, temps);
      sent, logged := commands[|c|..], log[|l|..];
      assert commands == c + sent && log == l + logged;
    }

    /** The cycle counter advances. */
    method Tick()
      modifies this`ts
      ensures ts == old(ts) + 1
    {
      ts := ts + 1;
    }

    /** The body of `one_cycle` once the counter has advanced: information
        is updated as `UpdateInfo` says and the outputs recomputed as
        `UpdateOutputs` says; an exception on the way ends the cycle there,
        leaving the outputs, the commands and the log as they were. */
    method UpdateAll(levels: seq<real>, inbox: seq<Option<Message>>, toFloat: string -> Option<real>,
                    elap: real, tref: real, on: bool, temps: seq<real>)
      returns (err: Option<PyError>, ghost consumed: nat, ghost rx: map<string, RxRecord>,
               ghost sends: seq<Command>, ghost order: seq<string>, ghost level: real,
               ghost sent: seq<Command>, ghost logged: seq<LogLine>, ghost info: Info)
      requires Valid() && ts >= 1 && params.avgHistLen >= 1
      modifies this`currentCount, this`mostRecentRx, this`beeHist, this`smoothedBeeHist,
        this`stateContribs, this`commands, this`currentTemp, this`prevTemp, this`activePeltier,
        this`state, this`oldState, this`log
      ensures Valid()
      ensures info == InfoState()
      ensures InfoUpdated(levels, inbox, toFloat, old(ts), old(InfoState()), info, err, consumed, rx)
      ensures err.Some? ==>
        commands == old(commands) && log == old(log) &&
        Heater(currentTemp, prevTemp, activePeltier) == old(Heater(currentTemp, prevTemp, activePeltier)) &&
        state == old(state) && oldState == old(oldState)
      ensures err.None? ==>
        "self" in smoothedBeeHist && SentAlongAll(sends, order, outMap, smoothedBeeHist["self"]) &&
        level == SumOver(stateContribs) &&
        OutputsUpdated(elap, tref, on, temps, level, |smoothedBeeHist|,
                       old(Heater(currentTemp, prevTemp, activePeltier)), old(oldState),
                       Heater(currentTemp, prevTemp, activePeltier), state, oldState, sent, logged) &&
        commands == old(commands) + sends + sent && log == old(log) + logged
      ensures err.None? && 0.0 <= tRange ==> (params.minTemp <= currentTemp <= params.maxTemp ||
                                              (state == FixedTemp && currentTemp == params.initFixheatTemp))
    {
      ghost var t, p, a, m, l := currentTemp, prevTemp, activePeltier, oldState, log;
      err, consumed, rx, sends, order, info := UpdateInfo(levels, inbox, toFloat);
      level, sent, logged := 0.0, [], [];
      assert currentTemp == t;
      assert prevTemp == p;
      assert activePeltier == a;
      assert oldState == m;
      assert log == l;
      if err.Some? {
        return;
      }
      level, sent, logged := UpdateOutputs(elap, tref, on, temps);
      assert InfoState() == info;
    }

    /** `one_cycle` without the synchronisation flash: the cycle counter
        advances, then `UpdateAll`. */
    method OneCycle(levels: seq<real>, inbox: seq<Option<Message>>, toFloat: string -> Option<real>,
                    elap: real, tref: real, on: bool, temps: seq<real>)
      returns (err: Option<PyError>, ghost consumed: nat, ghost rx: map<string, RxRecord>,
               ghost sends: seq<Command>, ghost order: seq<string>, ghost level: real,
               ghost sent: seq<Command>, ghost logged: seq<LogLine>, ghost info: Info)
      requires Valid() && ts >= 0 && params.avgHistLen >= 1
      modifies this`ts, this`currentCount, this`mostRecentRx, this`beeHist, this`smoothedBeeHist,
        this`stateContribs, this`commands, this`currentTemp, this`prevTemp, this`activePeltier,
        this`state, this`oldState, this`log
      ensures Valid()
      ensures ts == old(ts) + 1
      ensures info == InfoState()
      ensures InfoUpdated(levels, inbox, toFloat, ts, old(InfoState()), info, err, consumed, rx)
      ensures err.Some? ==>
        commands == old(commands) && log == old(log) &&
        Heater(currentTemp, prevTemp, activePeltier) == old(Heater(currentTemp, prevTemp, activePeltier)) &&
        state == old(state) && oldState == old(oldState)
      ensures err.None? ==>
        "self" in smoothedBeeHist && SentAlongAll(sends, order, outMap, smoothedBeeHist["self"]) &&
        level == SumOver(stateContribs) &&
        OutputsUpdated(elap, tref, on, temps, level, |smoothedBeeHist|,
                       old(Heater(currentTemp, prevTemp, activePeltier)), old(oldState),
                       Heater(currentTemp, prevTemp, activePeltier), state, oldState, sent, logged) &&
        commands == old(commands) + sends + sent && log == old(log) + logged
      ensures err.None? && 0.0 <= tRange ==> (params.minTemp <= currentTemp <= params.maxTemp ||
                                              (state == FixedTemp && currentTemp == params.initFixheatTemp))
    {
      Tick();
      err, consumed, rx, sends, order, level, sent, logged, info := UpdateAll(levels, inbox, toFloat, elap, tref, on, temps);
    }

    /** `stop`: the LEDs go dark grey every time; the closing log line and the
        CASU's release happen only the first time. */
    method Stop()
      modifies this`commands, this`log, this`stopped
      ensures stopped
      ensures !old(stopped) ==> (commands == old(commands) + [Led(Some(0.2), Some(0.2), Some(0.2)), StopCasu] &&
                                 log == old(log) + [Finished])
      ensures old(stopped) ==> commands == old(commands) + [Led(Some(0.2), Some(0.2), Some(0.2))] && log == old(log)
    {
      commands := commands + [Led(Some(0.2), Some(0.2), Some(0.2))];
      if !stopped {
        log := log + [Finished];
        commands := commands + [StopCasu];
        stopped := true;
      }
    }
  }

  /** `Enhancer.__init__` up to the hardware: the CASU's name from its `.rtc`
      path, the parameters from the configuration, the flattened interaction
      graph and this CASU's in- and out-maps (in-edges must carry a weight, as
      no default weight is given), and the calibration thresholds `calib`.
      `flat` is the flattened graph. */
  method Start(casuPath: string, conf: Conf, nbg: Interactions.Graph, calib: seq<real>, toFloat: string -> Option<real>)
    returns (r: Result<Enhancer>, ghost flat: Interactions.Graph)
    ensures flat == Interactions.Flattened(nbg, flat.nodes)
    ensures Interactions.NoDuplicates(flat.nodes)
    ensures forall n :: n in flat.nodes <==> n in Interactions.TrimmedNames(nbg)
    ensures CasuName(casuPath) !in flat.nodes ==> r == Failure(KeyError)
    ensures CasuName(casuPath) in flat.nodes ==>
              var inmap := Interactions.InmapUpTo(flat, CasuName(casuPath), None, toFloat, |flat.edges|);
              (inmap.Failure? ==> r == Failure(inmap.error)) &&
              (inmap.Success? ==> (r.Success? && fresh(r.value) && r.value.Valid() &&
                                   r.value.name == CasuName(casuPath) &&
                                   r.value.params == FitHistLen(ParseConf(Defaults, conf)) &&
                                   r.value.inMap == inmap.value &&
                                   r.value.outMap == Interactions.Outmap(flat, CasuName(casuPath)) &&
                                   r.value.calibIr == CalibThresholds(calib, r.value.params.manualCalibOverride) &&
                                   r.value.Initial() && r.value.commands == [] && r.value.log == []))
  {
    var name := CasuName(casuPath);
    var params := FitHistLen(ParseConf(Defaults, conf));
    var g := Interactions.Flatten(nbg);
    flat := g;
    var inmap := Interactions.GetInmap(g, name, None, toFloat);
    if inmap.Failure? {
      return Failure(inmap.error), flat;
    }
    var outmap := Interactions.GetOutmap(g, name);
    assert outmap.Success?;
    var e := new Enhancer(name, params, inmap.value, outmap.value, calib);
    return Success(e), flat;
  }
}
