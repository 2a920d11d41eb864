/** What the three fish-corridor controllers share: the usage check on the
    command line and the report loop that sends one density estimate per cycle. */
module FishCorridor {
  import opened Wrappers
  import opened CasuIo
  import BeeDensity

  const Usage := "Please invoke the program as follows: listen_and_heat.py rtcfile.rtc <left/right>"

  /** The two positional arguments: the CASU's `.rtc` file and its side. */
  datatype Invocation = Invocation(rtcFile: string, side: string)

  /** `sys.argv` must hold the program name and two arguments, else the program exits. */
  function CheckArgs(argv: seq<string>): (r: Result<Invocation>)
    ensures r.Failure? <==> |argv| < 3
    ensures r.Failure? ==> r.error == SystemExit(Usage)
    ensures r.Success? ==> r.value.rtcFile == argv[1] && r.value.side == argv[2]
  {
    if |argv| < 3 then Failure(SystemExit(Usage)) else Success(Invocation(argv[1], argv[2]))
  }

  /** `thresholds[myside]` followed by the density estimate. */
  function SideEstimate(thresholds: map<string, seq<real>>, side: string, readings: seq<real>): (r: Result<real>)
    ensures side !in thresholds ==> r == Failure(KeyError)
    ensures side in thresholds ==> r == BeeDensity.Estimate(readings, thresholds[side])
  {
    if side !in thresholds then Failure(KeyError) else BeeDensity.Estimate(readings, thresholds[side])
  }

  /** Runs the `while True` report loop over the IR readings of successive
      cycles: each cycle sends its estimate to `cats`, and the first cycle whose
      estimate raises ends the program with that exception. */
  method ReportLoop(thresholds: map<string, seq<real>>, side: string, cycles: seq<seq<real>>)
    returns (sent: seq<Command>, err: Option<PyError>)
    ensures |sent| <= |cycles|
    ensures forall i :: 0 <= i < |sent| ==>
      SideEstimate(thresholds, side, cycles[i]).Success? &&
      sent[i] == SendValue(Some("cats"), SideEstimate(thresholds, side, cycles[i]).value)
    ensures err.None? <==> |sent| == |cycles|
    ensures err.Some? ==>
      SideEstimate(thresholds, side, cycles[|sent|]).Failure? &&
      err.value == SideEstimate(thresholds, side, cycles[|sent|]).error
  {
    sent, err := [], None;
    var i := 0;
    while i < |cycles|
      invariant 0 <= i <= |cycles| && |sent| == i
      invariant forall j :: 0 <= j < i ==>
        SideEstimate(thresholds, side, cycles[j]).Success? &&
        sent[j] == SendValue(Some("cats"), SideEstimate(thresholds, side, cycles[j]).value)
    {
      var estimate := SideEstimate(thresholds, side, cycles[i]);
      if estimate.Failure? {
        err := Some(estimate.error);
        return;
      }
      sent := sent + [SendValue(Some("cats"), estimate.value)];
      i := i + 1;
    }
  }
}

/** fish-corridor-bees/controllers/communicate.py: reports the bee density only. */
module Communicate {
  import opened Wrappers
  import BeeDensity
  import FishCorridor

  /** The hard-coded per-side IR thresholds. */
  function Thresholds(): (t: map<string, seq<real>>)
    ensures t.Keys == {"left", "right"}
    ensures forall side :: side in t ==> |t[side]| == 6
  {
    map["left" := [11300.0, 14500.0, 18500.0, 17600.0, 18500.0, 12000.0],
        "right" := [13500.0, 12400.0, 20000.0, 12500.0, 15500.0, 13500.0]]
  }

  /** The estimate this controller sends each cycle. */
  function Estimate(side: string, readings: seq<real>): (r: Result<real>)
    ensures side != "left" && side != "right" ==> r == Failure(KeyError)
    ensures (side == "left" || side == "right") && |readings| == 0 ==> r == Failure(ZeroDivisionError)
    ensures r.Success? <==> (side == "left" || side == "right") && |readings| > 0
    ensures r.Success? ==>
      0.0 <= r.value <= 1.0 &&
      r.value == |BeeDensity.Above(readings, Thresholds()[side])| as real /
                 (if |readings| < 6 then |readings| else 6) as real
  {
    FishCorridor.SideEstimate(Thresholds(), side, readings)
  }
}

/** fish-corridor-bees/controllers/communicate_and_heat.py: as communicate.py,
    with other thresholds; its heating logic is commented out in the source. */
module CommunicateAndHeat {
  import opened Wrappers
  import BeeDensity
  import FishCorridor

  /** The hard-coded per-side IR thresholds. */
  function Thresholds(): (t: map<string, seq<real>>)
    ensures t.Keys == {"left", "right"}
    ensures forall side :: side in t ==> |t[side]| == 6
  {
    map["left" := [14000.0, 11000.0, 11000.0, 11000.0, 11000.0, 10000.0],
        "right" := [11000.0, 9000.0, 14000.0, 13000.0, 10000.0, 10000.0]]
  }

  /** The estimate this controller sends each cycle. */
  function Estimate(side: string, readings: seq<real>): (r: Result<real>)
    ensures side != "left" && side != "right" ==> r == Failure(KeyError)
    ensures (side == "left" || side == "right") && |readings| == 0 ==> r == Failure(ZeroDivisionError)
    ensures r.Success? <==> (side == "left" || side == "right") && |readings| > 0
    ensures r.Success? ==>
      0.0 <= r.value <= 1.0 &&
      r.value == |BeeDensity.Above(readings, Thresholds()[side])| as real /
                 (if |readings| < 6 then |readings| else 6) as real
  {
    FishCorridor.SideEstimate(Thresholds(), side, readings)
  }
}
