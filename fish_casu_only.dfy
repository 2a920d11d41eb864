/** fish-corridor-bees/controllers/listen_and_heat_fishcasu_only.py: listens for
    the fish CASU's verdict on the fish's swimming direction, steps its own
    setpoint half a degree towards or away from heat, and reports bee density. */
module FishCasuOnly {
  import opened Wrappers
  import opened CasuIo
  import opened PyStrings
  import opened PyNumeric
  import opened ClipTemplate
  import BeeDensity
  import FishCorridor

  const TempMin: real := 29.0
  const TempMax: real := 36.0
  const TempStep: real := 0.5

  /** The hard-coded per-side IR thresholds. */
  function Thresholds(): (t: map<string, seq<real>>)
    ensures t.Keys == {"left", "right"}
    ensures forall side :: side in t ==> |t[side]| == 6
  {
    map["left" := [11300.0, 14500.0, 18500.0, 17600.0, 18500.0, 12000.0],
        "right" := [15000.0, 13500.0, 20500.0, 12500.0, 15500.0, 13500.0]]
  }

  /** `directions = {'left':'CCW','right':'CW'}`. */
  function Directions(): map<string, string>
  {
    map["left" := "CCW", "right" := "CW"]
  }

  /** The start-up: the usage check, then `directions[myside]`. */
  function Startup(argv: seq<string>): (r: Result<(string, string)>)
    ensures |argv| < 3 ==> r == Failure(SystemExit(FishCorridor.Usage))
    ensures |argv| >= 3 && argv[2] != "left" && argv[2] != "right" ==> r == Failure(KeyError)
    ensures |argv| >= 3 && argv[2] == "left" ==> r == Success(("left", "CCW"))
    ensures |argv| >= 3 && argv[2] == "right" ==> r == Success(("right", "CW"))
  {
    match FishCorridor.CheckArgs(argv)
    case Failure(e) => Failure(e)
    case Success(inv) =>
      if inv.side in Directions() then Success((inv.side, Directions()[inv.side])) else Failure(KeyError)
  }

  /** `sorted([temp_min, t ± 0.5, temp_max])[1]`: half a degree up when the fish
      CASU names our direction, half a degree down otherwise, clamped. */
  function StepTemp(t: real, direction: string, myDirection: string): (r: real)
    ensures TempMin <= r <= TempMax
    ensures direction == myDirection ==> r == Clip(t + TempStep, TempMin, TempMax)
    ensures direction != myDirection ==> r == Clip(t - TempStep, TempMin, TempMax)
  {
    var moved := if direction == myDirection then t + TempStep else t - TempStep;
    Median3IsClip(TempMin, moved, TempMax);
    Median3(TempMin, moved, TempMax)
  }

  /** One `fish:direction` item: `ValueError` unless it splits into exactly two
      parts on `:`; only `fishCasu` items move the setpoint, and each one sets
      the new temperature and lights red (heating) or blue (cooling). */
  function ItemStep(t: real, item: string, myDirection: string): (r: Result<(real, seq<Command>)>)
    ensures r.Failure? <==> |Split(item, ':')| != 2
    ensures r.Failure? ==> r.error == ValueError
    ensures r.Success? && Split(item, ':')[0] != "fishCasu" ==> r.value == (t, [])
    ensures r.Success? && Split(item, ':')[0] == "fishCasu" ==>
      r.value.0 == StepTemp(t, Split(item, ':')[1], myDirection) && |r.value.1| == 2 &&
      r.value.1[0] == SetTemp(r.value.0) &&
      r.value.1[1] == (if Split(item, ':')[1] == myDirection then Led(Some(1.0), None, None)
                       else Led(None, None, Some(1.0)))
  {
    var parts := Split(item, ':');
    if |parts| != 2 then Failure(ValueError)
    else if parts[0] != "fishCasu" then Success((t, []))
    else
      var t' := StepTemp(t, parts[1], myDirection);
      var led := if parts[1] == myDirection then Led(Some(1.0), None, None) else Led(None, None, Some(1.0));
      Success((t', [SetTemp(t'), led]))
  }

  /** What handling a message's items does: the setpoint after them, the
      exception that stopped the loop (if any), and the commands issued. */
  datatype Outcome = Outcome(temp: real, error: Option<PyError>, commands: seq<Command>)

  /** The `for item in data` loop over the first `|items|` items. */
  function ApplyItems(t: real, items: seq<string>, myDirection: string): Outcome
  {
    if |items| == 0 then Outcome(t, None, [])
    else Continue(ApplyItems(t, items[..|items| - 1], myDirection), items[|items| - 1], myDirection)
  }

  /** One more pass of the loop body: an earlier exception has ended the loop,
      otherwise the item is stepped. */
  function Continue(o: Outcome, item: string, myDirection: string): (r: Outcome)
    ensures o.error.Some? ==> r == o
  {
    if o.error.Some? then o
    else match ItemStep(o.temp, item, myDirection)
      case Failure(e) => Outcome(o.temp, Some(e), o.commands)
      case Success(step) => Outcome(step.0, None, o.commands + step.1)
  }

  /** Item `i` goes through after the first `i` did. */
  lemma ApplyItemsNext(t: real, items: seq<string>, i: nat, myDirection: string, temp: real, issued: seq<Command>)
    requires i < |items|
    requires ApplyItems(t, items[..i], myDirection) == Outcome(temp, None, issued)
    requires ItemStep(temp, items[i], myDirection).Success?
    ensures var step := ItemStep(temp, items[i], myDirection).value;
      ApplyItems(t, items[..i + 1], myDirection) == Outcome(step.0, None, issued + step.1)
  {
    assert items[..i + 1][..i] == items[..i];
  }

  /** Item `i` fails after the first `i` went through: the loop ends there. */
  lemma ApplyItemsFailAt(t: real, items: seq<string>, i: nat, myDirection: string, temp: real, issued: seq<Command>)
    requires i < |items|
    requires ApplyItems(t, items[..i], myDirection) == Outcome(temp, None, issued)
    requires ItemStep(temp, items[i], myDirection).Failure?
    ensures ApplyItems(t, items, myDirection) ==
      Outcome(temp, Some(ItemStep(temp, items[i], myDirection).error), issued)
  {
    assert items[..i + 1][..i] == items[..i];
    ErrorStopsLoop(t, items[..i + 1], items[i + 1..], myDirection);
    assert items[..i + 1] + items[i + 1..] == items;
  }

  /** Whatever the items, a setpoint in `[29, 36]` stays in `[29, 36]`. */
  lemma {:induction false} ApplyItemsInRange(t: real, items: seq<string>, myDirection: string)
    requires TempMin <= t <= TempMax
    ensures TempMin <= ApplyItems(t, items, myDirection).temp <= TempMax
  {
    if |items| > 0 {
      ApplyItemsInRange(t, items[..|items| - 1], myDirection);
    }
  }

  /** Items that all parse and none of which names `fishCasu` change nothing. */
  lemma {:induction false} ForeignItemsKeepTemp(t: real, items: seq<string>, myDirection: string)
    requires forall k :: 0 <= k < |items| ==>
      |Split(items[k], ':')| == 2 && Split(items[k], ':')[0] != "fishCasu"
    ensures ApplyItems(t, items, myDirection) == Outcome(t, None, [])
  {
    if |items| > 0 {
      ForeignItemsKeepTemp(t, items[..|items| - 1], myDirection);
    }
  }

  /** Once an item fails to parse, later items are not looked at. */
  lemma {:induction false} ErrorStopsLoop(t: real, items: seq<string>, more: seq<string>, myDirection: string)
    requires ApplyItems(t, items, myDirection).error.Some?
    ensures ApplyItems(t, items + more, myDirection) == ApplyItems(t, items, myDirection)
    decreases |more|
  {
    if |more| > 0 {
      var all := items + more;
      assert all[..|all| - 1] == items + more[..|more| - 1];
      ErrorStopsLoop(t, items, more[..|more| - 1], myDirection);
    } else {
      assert items + more == items;
    }
  }

  /** The `for item in data` loop itself, starting from setpoint `t`. */
  method HandleItems(t: real, items: seq<string>, myDirection: string) returns (o: Outcome)
    ensures o == ApplyItems(t, items, myDirection)
  {
    var i := 0;
    var temp, issued := t, [];
    while i < |items|
      invariant 0 <= i <= |items|
      invariant ApplyItems(t, items[..i], myDirection) == Outcome(temp, None, issued)
    {
      var step := ItemStep(temp, items[i], myDirection);
      if step.Failure? {
        ApplyItemsFailAt(t, items, i, myDirection, temp, issued);
        return Outcome(temp, Some(step.error), issued);
      }
      ApplyItemsNext(t, items, i, myDirection, temp, issued);
      temp, issued := step.value.0, issued + step.value.1;
      i := i + 1;
    }
    assert items[..i] == items;
    return Outcome(temp, None, issued);
  }

  /** The controller's state across iterations of its `while True` loop. */
  class Controller {
    const side: string
    const myDirection: string
    var tempSet: real
    /** Commands sent to the CASU so far. */
    var commands: seq<Command>

    ghost predicate Valid()
      reads this
    {
      side in Directions() && myDirection == Directions()[side] &&
      TempMin <= tempSet <= TempMax
    }

    /** After a successful `Startup`: `temp_set = temp_min`. */
    constructor (side: string, direction: string)
      requires side in Directions() && direction == Directions()[side]
      ensures Valid()
      ensures this.side == side && myDirection == direction
      ensures tempSet == TempMin && commands == []
    {
      this.side := side;
      myDirection := direction;
      tempSet := TempMin;
      commands := [];
    }

    /** Handles one received message `data`: its comma-separated items in order. */
    method HandleMessage(data: string) returns (err: Option<PyError>)
      requires Valid()
      modifies this`tempSet, this`commands
      ensures Valid()
      ensures var o := ApplyItems(old(tempSet), Split(data, ','), myDirection);
        tempSet == o.temp && err == o.error && commands == old(commands) + o.commands
    {
      var o := HandleItems(tempSet, Split(data, ','), myDirection);
      ApplyItemsInRange(tempSet, Split(data, ','), myDirection);
      tempSet, err, commands := o.temp, o.error, commands + o.commands;
    }

    /** Estimates the bee density from this cycle's IR readings and sends it to
        `cats`; an empty reading list raises `ZeroDivisionError`. */
    method ReportDensity(readings: seq<real>) returns (err: Option<PyError>)
      requires Valid()
      modifies this`commands
      ensures var e := BeeDensity.Estimate(readings, Thresholds()[side]);
        (e.Failure? ==> err == Some(e.error) && commands == old(commands)) &&
        (e.Success? ==> err.None? && commands == old(commands) + [SendValue(Some("cats"), e.value)])
    {
      var estimate := FishCorridor.SideEstimate(Thresholds(), side, readings);
      if estimate.Failure? {
        err := Some(estimate.error);
      } else {
        err := None;
        commands := commands + [SendValue(Some("cats"), estimate.value)];
      }
    }

    /** One iteration of the main loop: handle the message read, if any, then report. */
    method Cycle(msg: Option<string>, readings: seq<real>) returns (err: Option<PyError>)
      requires Valid()
      modifies this`tempSet, this`commands
      ensures Valid()
      ensures msg.None? ==> tempSet == old(tempSet)
      ensures msg.Some? ==> tempSet == ApplyItems(old(tempSet), Split(msg.value, ','), myDirection).temp
      ensures var o := if msg.Some? then ApplyItems(old(tempSet), Split(msg.value, ','), myDirection)
                       else Outcome(old(tempSet), None, []);
        var e := BeeDensity.Estimate(readings, Thresholds()[side]);
        (o.error.Some? ==> err == o.error && commands == old(commands) + o.commands) &&
        (o.error.None? && e.Failure? ==> err == Some(e.error) && commands == old(commands) + o.commands) &&
        (o.error.None? && e.Success? ==>
          err.None? && commands == old(commands) + o.commands + [SendValue(Some("cats"), e.value)])
    {
      err := None;
      if msg.Some? {
        err := HandleMessage(msg.value);
        if err.Some? {
          return;
        }
      }
      err := ReportDensity(readings);
    }
  }
}
